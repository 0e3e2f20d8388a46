# SEO outline generator: a Dafny model of app.py

`app.py` is a single Streamlit page. Streamlit runs it from the top on every interaction, so on every run it first resolves a Gemini API key. When the user presses the button, it checks its inputs and builds a prompt from the keyword, the search intent and the number of H2 sections. It then calls the model, cuts the first-`{`-to-last-`}` span out of the reply and parses it with `json.loads`. The result goes into `st.session_state.outline_data`. Unless an input check stopped the run with `st.stop()`, the page then renders the stored outline, when it is present and truthy, as a list of Streamlit elements: H1 title, numbered H2 chapters, and H3 headings with placeholders.

The model has one module per piece of that behaviour:

- `ApiKey`: choosing the key from the environment variable and the secrets store, and when `api_key_valid` is true (app.py:15-30).
- `Prompt`: the f-string prompt and a reader that recovers the interpolated values from it (app.py:68-96).
- `JsonSpan`: the greedy `\{.*\}` search with `re.DOTALL`, stated as first `{` / last `}` and proved equal to leftmost-longest regex matching (app.py:110-112).
- `Json`: the values `json.loads` returns and Python truthiness.
- `OutlineView`: reading the stored dict through `.get` with its fallbacks, the JSON schema the prompt asks for, and the elements of the results area (app.py:126-157).
- `OutlineStage`: the button handler as a pure function (`Handle`, `RunAttempt`, `NextState`), and a `Session` class. The class holds `outlineData` and has three methods: the handler `GenerateOutline`, the results-area rendering `RenderResults` built from loop-based `RenderSections` and `RenderSection`, and `Rerun` for one script run.
- `Decimal`: Python's `str()` of the counters `i+1` and `num_h2`.
- `Wrappers`: `Option`.

The model call and `json.loads` are parameters: `generate: string -> Option<string>` and `parse: string -> Option<Value>`. In each, `None` stands for an exception. The environment variable and the secrets store are inputs. Whether `genai.configure` accepts the key is a boolean input.

Two behaviours of the handler that the model keeps:

- After a failed extraction or a raised exception, the handler writes `None` into `outline_data`; the previous outline is not kept (app.py:117, 121).
- The section count is bounded only by the slider (5-10, app.py:52). The handler does not check it.

## Model

| member | source | states |
|---|---|---|
| `ApiKey.ResolveKey` | app.py:16-19 | `API_KEY` is one of the two candidates: the environment value whenever it is non-empty, the secrets entry when the environment value is missing or empty and the entry exists, and otherwise the environment value unchanged; it is non-empty iff one of the candidates is |
| `ApiKey.KeyValid` | app.py:15-30 | `api_key_valid` holds iff `configure` succeeds and a non-empty key came from the environment or from a readable secrets store |
| `ApiKey.EnvironmentShadowsSecrets` | app.py:18 | with a non-empty environment value the secrets store is never consulted, so not even an unreadable store changes validity |
| `Decimal.FromNat` | app.py:140-141 | the rendered counter is a non-empty digit string without a leading zero |
| `Decimal.ValueOfFromNat` | app.py:141 | reading a rendered counter back gives the number |
| `Decimal.FromNatInjective` | app.py:141 | distinct numbers render as distinct numerals |
| `Prompt.Fill` | app.py:68-96 | the keyword stands right after the opening text, the intent right after the text closing the keyword, and the prompt ends with the two renderings of `num_h2` around the schema text |
| `Prompt.OutlineTemplateWellDelimited` | app.py:73-93 | each interpolated value is followed by a closing quote `」` or a non-digit (`個`) |
| `Prompt.FillRoundTrip` | app.py:68-96 | for any well-delimited template, reading a filled-in prompt back gives the keyword, the intent and the section count, provided the two strings contain no `」` |
| `Prompt.Parse` | app.py:68-96 | an accepted text starts with the opening text, and the keyword it reads contains no `」` |
| `Prompt.ParsedIsFilled` | app.py:68-96 | every text the reader accepts is the template filled with what it reads |
| `Prompt.OutlinePromptRoundTrip` | app.py:68-96 | the outline prompt determines keyword, intent and `num_h2`, and only outline prompts read back at all |
| `JsonSpan.FirstIndexOf` | app.py:110 | the result is the first occurrence of the character, or none exactly when it does not occur |
| `JsonSpan.LastIndexOf` | app.py:110 | the result is the last occurrence of the character, or none exactly when it does not occur |
| `JsonSpan.MatchBounds` | app.py:110 | the bounds, when there are any, delimit a span `\{.*\}` matches: a `{` at the start, a `}` at the end, at least two characters |
| `JsonSpan.Extract` | app.py:110-112 | an extracted string has at least two characters, starts with `{` and ends with `}` |
| `JsonSpan.MatchIsLeftmostLongest` | app.py:110 | the match is a `\{.*\}` span that starts at the leftmost possible position and is the longest from there (search semantics with a greedy star) |
| `JsonSpan.NoMatchIffNoCandidate` | app.py:110-111 | there is no match iff no substring matches the pattern |
| `JsonSpan.NoMatchIff` | app.py:110-117 | there is no match iff the reply has no `{`, or no `}` after its first `{` |
| `JsonSpan.MatchIsFirstToLast` | app.py:110-112 | a match is the substring from the first `{` to the last `}` |
| `JsonSpan.ExtractRoundTrip` | app.py:110-112 | a `{...}` payload with commentary before it that has no `{` and after it that has no `}` is extracted exactly |
| `OutlineView.DecodeTitle` | app.py:134 | the title is readable iff it is absent or a string, and is absent in the result exactly when the key is absent |
| `OutlineView.SectionItems` | app.py:139 | `data.get("outline", [])` iterates the items of a list, and nothing for an absent key, an empty string or an empty dict; any other value is not read |
| `OutlineView.Characters` | app.py:147 | iterating a string yields its characters one by one, as one-character strings |
| `OutlineView.DecodeSubheadings` | app.py:144-148 | an absent or falsy `sections_H3` gives no H3; a truthy list gives its strings; a string gives one H3 per character; nothing else is read |
| `OutlineView.DecodeSection` | app.py:140-144 | an item reads as a section iff it is a dict whose `heading_H2` is absent or a string and whose `sections_H3` reads; the section holds exactly those values |
| `OutlineView.Decode` | app.py:126-144 | the stored value reads as an outline iff it is a dict whose title, `outline` list and every item read; section k of the result is the reading of item k |
| `OutlineView.TitleFallback` | app.py:134 | the code block shows the H1 title, or `タイトル生成エラー` when it is missing |
| `OutlineView.ChapterLabelNumber` | app.py:141 | the label is `**--- 第` + numeral + `章 ---**`, and its numeral reads back as i+1 |
| `OutlineView.HeadingLineText` | app.py:140-142 | the line is `## ` followed by the section's H2 heading, or by `[H2見出し i+1]` when the key is absent |
| `OutlineView.ChapterLabelsDistinct` | app.py:141 | different sections get different chapter labels |
| `OutlineView.SubheadingLines` | app.py:147-150 | the inner loop emits exactly two elements per H3 |
| `OutlineView.SubheadingLinesAt` | app.py:147-150 | H3 j gives its `#### ` heading at position 2j and the placeholder at 2j+1 |
| `OutlineView.SectionLinesShape` | app.py:140-154 | a section renders as chapter label, H2 line, one heading plus placeholder per H3 (or exactly one "not generated" line when there are none), then the spacer |
| `OutlineView.ConcatAppend` | app.py:139 | rendering a concatenation of sections renders the parts in order, the numbering continuing |
| `OutlineView.ConcatAt` | app.py:139 | the block of section i stands between the blocks of the sections before and after it |
| `OutlineView.SectionsFromAppend` | app.py:139-154 | the outer loop over a concatenation emits the two parts' blocks one after the other |
| `OutlineView.SectionsInOrder` | app.py:139-154 | sections appear in input order, section i numbered i+1 |
| `OutlineView.ChapterInResults` | app.py:129-157 | in the results area, section i's block follows the preamble and the blocks before it, and opens with the label of chapter i+1 and its H2 line or fallback |
| `OutlineView.ResultsView` | app.py:126 | the results area is hidden iff the stored value is missing/None or not truthy, so an empty dict hides it; otherwise it shows the results area of the decoded outline, when it decodes |
| `OutlineView.Strings` | app.py:147-148 | a list is read as H3 headings iff every item is a string, item by item |
| `OutlineView.DecodeSections` | app.py:139-140 | the `outline` items read iff each one does, and section k is the reading of item k: same number, same order |
| `OutlineView.DecodeEncodedSection` | app.py:86-92 | a section in the prompt's schema reads back as itself |
| `OutlineView.DecodeEncodedSections` | app.py:85-93 | a list of sections in the prompt's schema reads back as itself |
| `OutlineView.DecodeEncode` | app.py:83-95 | an outline in the prompt's JSON schema reads back through the `.get` calls as itself |
| `OutlineView.EncodedOutlineIsShown` | app.py:126-157 | an outline stored in the prompt's schema is always shown, in full |
| `OutlineStage.RunAttempt` | app.py:98-121 | a value is stored iff the reply came, held a `{...}` span and the span parsed, and it is the parsed value; the reply is shown as not JSON iff it came without a span; every other path is a caught exception |
| `OutlineStage.Handle` | app.py:58-121 | the key check is first, then the keyword check; only when both pass is the outline prompt built and sent and its reply handled |
| `OutlineStage.NextState` | app.py:58-121 | `outline_data` is untouched when an input check stopped the handler; after an attempt it is the stored value, or None |
| `OutlineStage.RenderSection` | app.py:140-154 | the loop body with its inner loop emits exactly the block specified for that section |
| `OutlineStage.RenderSections` | app.py:139-154 | the outer loop emits the blocks of all sections in order |
| `OutlineStage.SectionsStep` | app.py:139 | one more iteration appends the next section's block |
| `OutlineStage.Session.constructor` | app.py:126 | a fresh session holds no outline |
| `OutlineStage.Session.GenerateOutline` | app.py:58-121 | the handler's outcome is `Handle` of its inputs and the new `outline_data` is `NextState` of the old one |
| `OutlineStage.Session.RenderResults` | app.py:126-157 | the rendered view is the results view of the stored value |
| `OutlineStage.Session.Rerun` | app.py:15-157 | one run: the key check, the handler only when pressed, `st.stop()` hiding the results after a failed input check, otherwise the results of the new state |
| `OutlineStage.GateStopsBeforeModelCall` | app.py:59-64 | an invalid key or an empty keyword stops before any prompt is built or sent and leaves `outline_data` untouched; otherwise the outline prompt is sent |
| `OutlineStage.AttemptStoresParsedOrNone` | app.py:98-121 | after an attempt, `outline_data` is the parsed span or None, whatever it held before |
| `OutlineStage.NoJsonClearsState` | app.py:110-117 | a reply with no `{`, or no `}` after the first `{`, is reported as not JSON and clears `outline_data` |
| `OutlineStage.StoredIsObject` | app.py:113 | if parsing text that starts with `{` can only give an object, a stored value is an object |
| `OutlineStage.WrappedPayloadIsStored` | app.py:107-113 | a payload wrapped in brace-free commentary is stored exactly as it parses |
| `OutlineStage.GeneratedOutlineIsShown` | app.py:98-157 | a reply holding an outline in the prompt's schema ends with exactly that outline rendered |

## Left out

- Streamlit layout, widgets, spinner and the texts of `st.error`/`st.text`/`st.stop` (app.py:9-12, 26, 30, 34-54, 60-63, 101, 115-116, 120). The handler's `Outcome` and the `View` record what the page reports and whether the results area is drawn.
- The Gemini client (app.py:99-105). It is the `generate` parameter. A failure anywhere in it, including building the `GenerativeModel`, is `None`.
- `json.loads` (app.py:113). It is the `parse` parameter. `StoredIsObject` states, as a hypothesis, that text starting with `{` parses to an object.
- Reading `os.environ` and `st.secrets` (app.py:16-19). They are inputs. An unreadable store stands for any exception raised while looking the key up.
- `genai.configure` (app.py:22). Whether it exists in the imported client library and accepts the key is the `configureSucceeds` input. The library is not part of this model.
- The general regex engine. Only the semantics of this one pattern are modelled.
- The fixed instruction text of the prompt. It is abbreviated, marked with an ellipsis. The text next to each interpolated value is exact.
- `OutlineView.Decode`: a stored dict only renders when its fields have the shapes below. Any other shape gives `Unsupported`, and the model does not say what Streamlit shows then. Python would format the value with `str()`, raise part-way through the results area or, for a non-empty dict `sections_H3`, render one H3 heading with its placeholder per key, in insertion order. The model's JSON objects are unordered maps, so that order is not available to it.
  - the title is absent or a string;
  - `outline` is a list of dicts, absent, an empty string or an empty dict;
  - each heading is absent or a string;
  - each `sections_H3` is false, a list of strings or a string (one H3 per character).
- JSON numbers are integers. Only their truthiness is used.
- How Streamlit turns Markdown into HTML. Each element is kept as the text passed to its call, including the empty spacer after each section and the closing `---` and `st.info`.
