/** Outline generation in app.py: the button handler of lines 58-121, which
    builds the prompt, calls the model, pulls the JSON object out of the
    reply and stores it in session state, and the results area of lines
    126-157, which renders what is stored.

    The model call and `json.loads` are parameters: `generate` returns the
    reply text or None when the call raises, `parse` returns the parsed value
    or None when parsing raises. */
module OutlineStage {
  import opened Wrappers
  import opened Json
  import Decimal
  import ApiKey
  import JsonSpan
  import Prompt
  import opened OutlineView

  /** How an attempted generation ended: the parsed value was stored, the
      reply held no `{...}` span (its text is shown), or an exception was
      caught. */
  datatype Attempt = Stored(data: Value) | NoJson(raw: string) | Raised

  /** What the handler did: stopped at one of the two input checks, before
      building a prompt, or sent `prompt` to the model. */
  datatype Outcome = KeyInvalid | KeywordEmpty | Attempted(prompt: string, attempt: Attempt)

  /** Lines 98-121 once the model has answered `reply`: a value is stored
      exactly when the reply came, held a `{...}` span and that span parsed;
      the reply is shown as not JSON exactly when it came without a span;
      every other path is a caught exception. */
  function RunAttempt(reply: Option<string>, parse: string -> Option<Value>): (r: Attempt)
    ensures r.Stored? <==> reply.Some? && JsonSpan.Extract(reply.value).Some? &&
                           parse(JsonSpan.Extract(reply.value).value).Some?
    ensures r.Stored? ==> Some(r.data) == parse(JsonSpan.Extract(reply.value).value)
    ensures r.NoJson? <==> reply.Some? && JsonSpan.Extract(reply.value).None?
    ensures r.NoJson? ==> r.raw == reply.value
  {
    match reply
    case None => Raised
    case Some(text) =>
      match JsonSpan.Extract(text)
      case None => NoJson(text)
      case Some(span) =>
        match parse(span)
        case None => Raised
        case Some(v) => Stored(v)
  }

  /** The button handler (lines 58-121): the key check comes first, then
      the keyword check, and only when both pass is the outline prompt built
      and sent, its reply handled by `RunAttempt`. */
  function Handle(keyValid: bool, keyword: string, intent: string, numH2: nat,
                  generate: string -> Option<string>, parse: string -> Option<Value>): (r: Outcome)
    ensures r.KeyInvalid? <==> !keyValid
    ensures r.KeywordEmpty? <==> keyValid && keyword == []
    ensures r.Attempted? ==> r.prompt == Prompt.OutlinePrompt(keyword, intent, numH2) &&
                             r.attempt == RunAttempt(generate(r.prompt), parse)
  {
    if !keyValid then KeyInvalid
    else if keyword == [] then KeywordEmpty
    else
      var prompt := Prompt.OutlinePrompt(keyword, intent, numH2);
      Attempted(prompt, RunAttempt(generate(prompt), parse))
  }

  /** `st.session_state.outline_data` after the handler ended with `outcome`:
      untouched when an input check stopped it, otherwise the stored value,
      or None after no match or an exception. */
  function NextState(previous: Option<Value>, outcome: Outcome): (r: Option<Value>)
    ensures !outcome.Attempted? ==> r == previous
    ensures outcome.Attempted? ==> (r.Some? <==> outcome.attempt.Stored?)
    ensures r.Some? && outcome.Attempted? ==> r.value == outcome.attempt.data
  {
    match outcome
    case Attempted(_, Stored(v)) => Some(v)
    case Attempted(_, _) => None
    case _ => previous
  }

  /** The session state the page keeps across reruns. A missing
      `outline_data` entry and an entry holding None are both None here: the
      page treats them alike. */
  class Session {
    var outlineData: Option<Value>

    constructor ()
      ensures outlineData == None
    {
      outlineData := None;
    }

    /** The button handler, assigning the state in the branches the source
        does. */
    method GenerateOutline(keyValid: bool, keyword: string, intent: string, numH2: nat,
                           generate: string -> Option<string>, parse: string -> Option<Value>)
      returns (outcome: Outcome)
      modifies this
      ensures outcome == Handle(keyValid, keyword, intent, numH2, generate, parse)
      ensures outlineData == NextState(old(outlineData), outcome)
    {
      if !keyValid {
        return KeyInvalid;
      }
      if keyword == [] {
        return KeywordEmpty;
      }
      var prompt := Prompt.OutlinePrompt(keyword, intent, numH2);
      var reply := generate(prompt);
      if reply.None? {
        outlineData := None;
        return Attempted(prompt, Raised);
      }
      var span := JsonSpan.Extract(reply.value);
      if span.Some? {
        var parsed := parse(span.value);
        if parsed.Some? {
          outlineData := parsed;
          outcome := Attempted(prompt, Stored(parsed.value));
        } else {
          outlineData := None;
          outcome := Attempted(prompt, Raised);
        }
      } else {
        outlineData := None;
        outcome := Attempted(prompt, NoJson(reply.value));
      }
    }

    /** The results area (lines 126-157), for the stored outline when it is
        present and truthy. */
    method RenderResults() returns (view: View)
      ensures view == ResultsView(outlineData)
    {
      if outlineData.None? || !Truthy(outlineData.value) {
        return Hidden;
      }
      var decoded := Decode(outlineData.value);
      if decoded.None? {
        return Unsupported;
      }
      var outline := decoded.value;
      var sections := RenderSections(outline.sections);
      view := Shown(Preamble(outline) + sections + EPILOGUE);
    }

    /** One run of the script for one user action: the key check at the top,
        the handler when the button was pressed, then the results area. A
        failed input check calls `st.stop()`, which also ends the run before
        the results area. */
    method Rerun(env: Option<string>, secrets: ApiKey.Secrets, configureSucceeds: bool,
                 pressed: bool, keyword: string, intent: string, numH2: nat,
                 generate: string -> Option<string>, parse: string -> Option<Value>)
      returns (outcome: Option<Outcome>, view: View)
      modifies this
      ensures var keyValid := ApiKey.KeyValid(env, secrets, configureSucceeds);
              outcome == (if pressed then Some(Handle(keyValid, keyword, intent, numH2, generate, parse)) else None)
      ensures outlineData == if pressed then NextState(old(outlineData), outcome.value) else old(outlineData)
      ensures view == if outcome.Some? && !outcome.value.Attempted? then Hidden else ResultsView(outlineData)
    {
      var keyValid := ApiKey.KeyValid(env, secrets, configureSucceeds);
      outcome := None;
      if pressed {
        var o := GenerateOutline(keyValid, keyword, intent, numH2, generate, parse);
        outcome := Some(o);
        if !o.Attempted? {
          return outcome, Hidden;
        }
      }
      view := RenderResults();
    }
  }

  /** The outer loop of lines 139-154 over the sections, in order. */
  method RenderSections(secs: seq<Section>) returns (elements: seq<Element>)
    ensures elements == SectionsFrom(secs, 0)
  {
    elements := [];
    var i := 0;
    while i < |secs|
      invariant 0 <= i <= |secs|
      invariant elements == SectionsFrom(secs[..i], 0)
    {
      var lines := RenderSection(i, secs[i]);
      SectionsStep(secs, i);
      elements := elements + lines;
      i := i + 1;
    }
    assert secs[..i] == secs;
  }

  /** The body of the outer loop (lines 140-154) for the section at 0-based
      position `i`, with the inner loop over its H3 headings. */
  method RenderSection(i: nat, section: Section) returns (lines: seq<Element>)
    ensures lines == SectionLines(i, section)
  {
    var number := Decimal.FromNat(i + 1);
    lines := [Markdown(CHAPTER_OPEN + number + CHAPTER_CLOSE),
              Markdown("## " + section.heading.GetOr("[H2見出し " + number + "]"))];
    ghost var head := lines;
    var subheadings := section.subheadings;
    if subheadings != [] {
      var j := 0;
      while j < |subheadings|
        invariant 0 <= j <= |subheadings|
        invariant lines == head + SubheadingLines(subheadings[..j])
      {
        assert subheadings[..j + 1][..j] == subheadings[..j];
        lines := lines + [Markdown("#### " + subheadings[j]), Markdown(PLACEHOLDER)];
        j := j + 1;
      }
      assert subheadings[..j] == subheadings;
    } else {
      lines := lines + [Markdown(NO_SUBHEADINGS)];
    }
    lines := lines + [Markdown("")];
  }

  /** One more iteration of the outer loop renders one more section. */
  lemma SectionsStep(secs: seq<Section>, i: nat)
    requires i < |secs|
    ensures SectionsFrom(secs[..i + 1], 0) == SectionsFrom(secs[..i], 0) + SectionLines(i, secs[i])
  {
    assert secs[..i + 1][..i] == secs[..i];
    assert SectionsFrom(secs[..i + 1], 0) == Concat(secs[..i + 1], 0, SectionLines);
  }

  // ---------------------------------------------------------------------
  // Properties
  // ---------------------------------------------------------------------

  /** An invalid key or an empty keyword stops the handler before any prompt
      is built or sent, and leaves the stored outline as it was; otherwise
      the prompt for the inputs is sent. */
  lemma GateStopsBeforeModelCall(keyValid: bool, keyword: string, intent: string, numH2: nat,
                                 generate: string -> Option<string>, parse: string -> Option<Value>,
                                 previous: Option<Value>)
    ensures var outcome := Handle(keyValid, keyword, intent, numH2, generate, parse);
            (outcome.Attempted? <==> keyValid && keyword != []) &&
            (!keyValid ==> outcome == KeyInvalid) &&
            (keyValid && keyword == [] ==> outcome == KeywordEmpty) &&
            (!outcome.Attempted? ==> NextState(previous, outcome) == previous) &&
            (outcome.Attempted? ==> outcome.prompt == Prompt.OutlinePrompt(keyword, intent, numH2))
  {
  }

  /** After an attempted generation the state is the parsed value of the
      extracted span, or None: it is never a mix, and the previous value
      plays no part. */
  lemma AttemptStoresParsedOrNone(reply: Option<string>, parse: string -> Option<Value>,
                                  prompt: string, p1: Option<Value>, p2: Option<Value>)
    ensures var outcome := Attempted(prompt, RunAttempt(reply, parse));
            NextState(p1, outcome) == NextState(p2, outcome) &&
            NextState(p1, outcome) ==
              (if reply.Some? && JsonSpan.Extract(reply.value).Some?
               then parse(JsonSpan.Extract(reply.value).value) else None)
  {
  }

  /** A reply with no `{`, or with no `}` after its first `{`, is reported as
      not JSON and clears the stored outline. */
  lemma NoJsonClearsState(text: string, parse: string -> Option<Value>, prompt: string, previous: Option<Value>)
    requires '{' !in text || '}' !in text[JsonSpan.FirstIndexOf(text, '{').value + 1..]
    ensures RunAttempt(Some(text), parse) == NoJson(text)
    ensures NextState(previous, Attempted(prompt, RunAttempt(Some(text), parse))) == None
  {
    JsonSpan.NoMatchIff(text);
  }

  /** When the parser turns text starting with `{` only into objects, a
      stored value is always an object. */
  lemma StoredIsObject(reply: Option<string>, parse: string -> Option<Value>)
    requires forall t :: t != [] && t[0] == '{' && parse(t).Some? ==> parse(t).value.JObj?
    ensures RunAttempt(reply, parse).Stored? ==> RunAttempt(reply, parse).data.JObj?
  {
  }

  /** A reply made of commentary without braces around a JSON payload that
      parses to `v` stores exactly `v`. */
  lemma WrappedPayloadIsStored(before: string, payload: string, after: string,
                               parse: string -> Option<Value>, v: Value)
    requires '{' !in before && '}' !in after
    requires |payload| >= 2 && payload[0] == '{' && payload[|payload| - 1] == '}'
    requires parse(payload) == Some(v)
    ensures RunAttempt(Some(before + payload + after), parse) == Stored(v)
  {
    JsonSpan.ExtractRoundTrip(before, payload, after);
  }

  /** End to end: when the model answers with an outline in the prompt's
      schema, wrapped in such commentary, the results area shows exactly that
      outline. */
  lemma GeneratedOutlineIsShown(keyword: string, intent: string, numH2: nat,
                                generate: string -> Option<string>, parse: string -> Option<Value>,
                                before: string, payload: string, after: string,
                                o: Outline, previous: Option<Value>)
    requires keyword != []
    requires generate(Prompt.OutlinePrompt(keyword, intent, numH2)) == Some(before + payload + after)
    requires '{' !in before && '}' !in after
    requires |payload| >= 2 && payload[0] == '{' && payload[|payload| - 1] == '}'
    requires parse(payload) == Some(Encode(o))
    ensures ResultsView(NextState(previous, Handle(true, keyword, intent, numH2, generate, parse)))
            == Shown(ResultsArea(o))
  {
    WrappedPayloadIsStored(before, payload, after, parse, Encode(o));
    EncodedOutlineIsShown(o);
  }
}
