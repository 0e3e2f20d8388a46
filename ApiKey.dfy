/** Resolution of the Gemini API key, done on every run of the script (app.py:15-30).

    The environment variable and the secrets store are inputs; whether the
    client library accepts the key (`genai.configure`) is a boolean input. */
module ApiKey {
  import opened Wrappers

  /** The secrets store: either it cannot be read at all (looking a name up
      in it raises), or it maps the key's name to an optional entry. */
  datatype Secrets = Unreadable | Readable(entry: Option<string>)

  /** Python truthiness of a `str | None`: present and non-empty. */
  predicate Present(v: Option<string>)
  {
    v.Some? && v.value != []
  }

  /** The value `API_KEY` ends up holding (lines 16-19): the environment value,
      replaced by the secrets entry only when the environment value is missing
      or empty and the store holds an entry; with neither, it keeps the
      environment value (`None` or `""`). It is present exactly when one of
      the candidates is. */
  function ResolveKey(env: Option<string>, entry: Option<string>): (r: Option<string>)
    ensures r == env || r == entry
    ensures Present(env) ==> r == env
    ensures !Present(env) && entry.Some? ==> r == entry
    ensures !Present(env) && entry.None? ==> r == env
    ensures Present(r) <==> Present(env) || Present(entry)
  {
    if !Present(env) && entry.Some? then entry else env
  }

  /** `api_key_valid` after the start-up block (lines 15-30). The store is only
      consulted when the environment value is not present; an unreadable store
      then raises and the except branch makes the key invalid, as does a
      failing `configure`. So the key is valid exactly when the client accepts
      it and a non-empty key came from the environment or from a readable
      store. */
  function KeyValid(env: Option<string>, secrets: Secrets, configureSucceeds: bool): (r: bool)
    ensures r <==> configureSucceeds && (Present(env) || (secrets.Readable? && Present(secrets.entry)))
  {
    if Present(env) then configureSucceeds
    else match secrets
      case Unreadable => false
      case Readable(entry) => Present(ResolveKey(env, entry)) && configureSucceeds
  }

  /** A present environment value makes the secrets store irrelevant: it is
      never consulted, so even an unreadable store cannot invalidate the key. */
  lemma EnvironmentShadowsSecrets(env: Option<string>, s1: Secrets, s2: Secrets, configureSucceeds: bool)
    requires Present(env)
    ensures KeyValid(env, s1, configureSucceeds) == KeyValid(env, s2, configureSucceeds) == configureSucceeds
  {
  }
}
