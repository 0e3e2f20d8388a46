/** The outline prompt of app.py:68-96: an f-string into which the keyword,
    the search intent and the number of H2 sections are interpolated (the
    number twice).

    The fixed instruction text is abbreviated here (the elisions are marked
    with an ellipsis); the characters next to each interpolated value are the
    source's own, since they are what delimits the values. */
module Prompt {
  import opened Wrappers
  import Decimal

  /** Up to and including the opening quote of the keyword (lines 68-73). */
  const OPENING: string :=
    "\n    あなたはプロのSEOコンテンツストラテジストであり、人気ブログの編集長です。…\n\n    **【キーワードと意図】**\n    - ターゲットキーワード: 「"
  /** From the keyword's closing quote to the intent's opening quote (73-74). */
  const KEYWORD_TO_INTENT: string := "」\n    - 検索意図: 「"
  /** From the intent's closing quote to the first section count (74-78). */
  const INTENT_TO_COUNT: string :=
    "」" + "\n\n    **【SEOコンテンツ生成ルール】**\n    1. **H1タイトル**: …\n    2. **H2見出し**: 記事の主要なステップやセクションを"
  /** From the first section count to the second, inside the JSON schema (78-93). */
  const COUNT_TO_COUNT: string :=
    "個" + "定義し、…\n    {\n      \"article_title_H1\": …,\n      \"outline\": [\n        …\n        // ... (H2セクションは計"
  /** After the second section count (93-96). */
  const CLOSING: string := "個生成する)\n      ]\n    }\n    "

  /** A prompt template: fixed text around the three interpolated values, the
      section count appearing twice. */
  datatype Template = Template(
    opening: string, keywordToIntent: string, intentToCount: string,
    countToCount: string, closing: string)

  /** The template of `system_prompt`. */
  const OUTLINE_TEMPLATE: Template :=
    Template(OPENING, KEYWORD_TO_INTENT, INTENT_TO_COUNT, COUNT_TO_COUNT, CLOSING)

  /** The f-string interpolation: the fixed pieces with the values in between.
      The keyword stands right after the opening text, the intent right
      after the text that closes the keyword, and the prompt ends with the
      two renderings of the count. */
  function Fill(t: Template, keyword: string, intent: string, numH2: nat): (r: string)
    ensures t.opening <= r
    ensures var k := |t.opening|;
            k + |keyword| <= |r| && r[k..k + |keyword|] == keyword
    ensures var k := |t.opening| + |keyword| + |t.keywordToIntent|;
            k + |intent| <= |r| && r[k..k + |intent|] == intent
    ensures var k := |r| - |FillCount(t, numH2)|;
            0 <= k && r[k..] == FillCount(t, numH2)
  {
    t.opening + keyword + t.keywordToIntent + intent + t.intentToCount +
    Decimal.FromNat(numH2) + t.countToCount + Decimal.FromNat(numH2) + t.closing
  }

  /** Everything from the first section count on. */
  function FillCount(t: Template, numH2: nat): string
  {
    Decimal.FromNat(numH2) + t.countToCount + Decimal.FromNat(numH2) + t.closing
  }

  lemma FillParts(t: Template, keyword: string, intent: string, numH2: nat)
    ensures Fill(t, keyword, intent, numH2) ==
            t.opening + (keyword + (t.keywordToIntent + intent + t.intentToCount + FillCount(t, numH2)))
  {
  }

  /** `system_prompt` for the given inputs. */
  function OutlinePrompt(keyword: string, intent: string, numH2: nat): string
  {
    Fill(OUTLINE_TEMPLATE, keyword, intent, numH2)
  }

  /** Each interpolated value is followed by text that ends it unambiguously:
      a closing quote after the two strings, a non-digit after the count. */
  predicate WellDelimited(t: Template)
  {
    t.keywordToIntent != [] && t.keywordToIntent[0] == '」' &&
    t.intentToCount != [] && t.intentToCount[0] == '」' &&
    t.countToCount != [] && !Decimal.IsDigit(t.countToCount[0])
  }

  lemma OutlineTemplateWellDelimited()
    ensures WellDelimited(OUTLINE_TEMPLATE)
  {
  }

  /** The longest prefix of `s` that does not contain `c`. */
  function TakeUntil(s: string, c: char): (r: string)
    ensures r <= s && c !in r
    ensures |r| < |s| ==> s[|r|] == c
  {
    if s == [] || s[0] == c then [] else [s[0]] + TakeUntil(s[1..], c)
  }

  /** The longest prefix of `s` made of digits. */
  function TakeDigits(s: string): (r: string)
    ensures r <= s && Decimal.AllDigits(r)
    ensures |r| < |s| ==> !Decimal.IsDigit(s[|r|])
  {
    if s == [] || !Decimal.IsDigit(s[0]) then [] else [s[0]] + TakeDigits(s[1..])
  }

  /** Reads keyword, intent and section count back out of a filled-in
      template, or None when the text is not one. Each stage reads one value
      and the fixed text after it. */
  function Parse(t: Template, p: string): (r: Option<(string, string, nat)>)
    ensures r.Some? ==> t.opening <= p && '」' !in r.value.0
  {
    if !(t.opening <= p) then None else
    var r := p[|t.opening|..];
    var keyword := TakeUntil(r, '」');
    match ParseAfterKeyword(t, r[|keyword|..])
    case None => None
    case Some((intent, numH2)) => Some((keyword, intent, numH2))
  }

  function ParseAfterKeyword(t: Template, r: string): Option<(string, nat)>
  {
    if !(t.keywordToIntent <= r) then None else
    var r' := r[|t.keywordToIntent|..];
    var intent := TakeUntil(r', '」');
    match ParseAfterIntent(t, r'[|intent|..])
    case None => None
    case Some(numH2) => Some((intent, numH2))
  }

  function ParseAfterIntent(t: Template, r: string): Option<nat>
  {
    if !(t.intentToCount <= r) then None else
    var r' := r[|t.intentToCount|..];
    var digits := TakeDigits(r');
    var numH2 := Decimal.Value(digits);
    if digits == Decimal.FromNat(numH2) && r'[|digits|..] == t.countToCount + digits + t.closing
    then Some(numH2) else None
  }

  lemma {:induction false} TakeUntilStops(a: string, b: string, c: char)
    requires c !in a && b != [] && b[0] == c
    ensures TakeUntil(a + b, c) == a
  {
    if a != [] {
      assert (a + b)[1..] == a[1..] + b;
      TakeUntilStops(a[1..], b, c);
    }
  }

  lemma {:induction false} TakeDigitsStops(a: string, b: string)
    requires Decimal.AllDigits(a) && b != [] && !Decimal.IsDigit(b[0])
    ensures TakeDigits(a + b) == a
  {
    if a != [] {
      assert (a + b)[1..] == a[1..] + b;
      TakeDigitsStops(a[1..], b);
    }
  }

  /** The text after the intent reads back as the count. */
  lemma AfterIntentRoundTrip(t: Template, numH2: nat)
    requires WellDelimited(t)
    ensures ParseAfterIntent(t, t.intentToCount + FillCount(t, numH2)) == Some(numH2)
  {
    var d := Decimal.FromNat(numH2);
    var rest := t.countToCount + d + t.closing;
    assert (t.intentToCount + FillCount(t, numH2))[|t.intentToCount|..] == d + rest;
    TakeDigitsStops(d, rest);
    Decimal.ValueOfFromNat(numH2);
    assert (d + rest)[|d|..] == rest;
  }

  /** The text after the keyword reads back as the intent and the count. */
  lemma AfterKeywordRoundTrip(t: Template, intent: string, numH2: nat)
    requires WellDelimited(t) && '」' !in intent
    ensures ParseAfterKeyword(t, t.keywordToIntent + intent + t.intentToCount + FillCount(t, numH2))
            == Some((intent, numH2))
  {
    var rest := t.intentToCount + FillCount(t, numH2);
    var s := t.keywordToIntent + intent + t.intentToCount + FillCount(t, numH2);
    assert t.keywordToIntent <= s && s[|t.keywordToIntent|..] == intent + rest by {
      assert s == t.keywordToIntent + (intent + rest);
    }
    assert TakeUntil(intent + rest, '」') == intent by {
      TakeUntilStops(intent, rest, '」');
    }
    assert (intent + rest)[|intent|..] == rest;
    assert ParseAfterIntent(t, rest) == Some(numH2) by {
      AfterIntentRoundTrip(t, numH2);
    }
  }

  /** Interpolation loses nothing: a prompt built from a keyword and an intent
      that contain no closing quote `」` gives back exactly those inputs and
      the section count. */
  lemma FillRoundTrip(t: Template, keyword: string, intent: string, numH2: nat)
    requires WellDelimited(t)
    requires '」' !in keyword && '」' !in intent
    ensures Parse(t, Fill(t, keyword, intent, numH2)) == Some((keyword, intent, numH2))
  {
    var rest := t.keywordToIntent + intent + t.intentToCount + FillCount(t, numH2);
    FillParts(t, keyword, intent, numH2);
    assert (t.opening + (keyword + rest))[|t.opening|..] == keyword + rest;
    TakeUntilStops(keyword, rest, '」');
    assert (keyword + rest)[|keyword|..] == rest;
    AfterKeywordRoundTrip(t, intent, numH2);
  }

  lemma ParsedAfterIntent(t: Template, r: string)
    requires ParseAfterIntent(t, r).Some?
    ensures r == t.intentToCount + FillCount(t, ParseAfterIntent(t, r).value)
  {
    var d := Decimal.FromNat(ParseAfterIntent(t, r).value);
    AfterIntentRead(t, r);
    Reassemble(r, t.intentToCount, d, t.countToCount + d + t.closing);
    Regroup(t.intentToCount, d, t.countToCount, t.closing);
  }

  lemma Regroup(a: string, d: string, c: string, e: string)
    ensures a + d + (c + d + e) == a + (d + c + d + e)
  {
  }

  /** The count the reader accepts is written out, then the fixed text, then
      the count again. */
  lemma AfterIntentRead(t: Template, r: string)
    requires ParseAfterIntent(t, r).Some?
    ensures var r', d := r[|t.intentToCount|..], Decimal.FromNat(ParseAfterIntent(t, r).value);
            t.intentToCount <= r && d <= r' && r'[|d|..] == t.countToCount + d + t.closing
  {
  }

  lemma ParsedAfterKeyword(t: Template, r: string)
    requires ParseAfterKeyword(t, r).Some?
    ensures r == t.keywordToIntent + ParseAfterKeyword(t, r).value.0 + t.intentToCount +
                 FillCount(t, ParseAfterKeyword(t, r).value.1)
  {
    var v := ParseAfterKeyword(t, r).value;
    var rest := r[|t.keywordToIntent|..][|v.0|..];
    AfterKeywordRead(t, r);
    ParsedAfterIntent(t, rest);
    Reassemble(r, t.keywordToIntent, v.0, t.intentToCount + FillCount(t, v.1));
    Regroup3(t.keywordToIntent + v.0, t.intentToCount, FillCount(t, v.1));
  }

  lemma Regroup3(a: string, b: string, c: string)
    ensures a + (b + c) == a + b + c
  {
  }

  /** The intent the reader accepts follows the fixed text, and the count is
      read from what follows the intent. */
  lemma AfterKeywordRead(t: Template, r: string)
    requires ParseAfterKeyword(t, r).Some?
    ensures var v, r' := ParseAfterKeyword(t, r).value, r[|t.keywordToIntent|..];
            t.keywordToIntent <= r && v.0 <= r' && ParseAfterIntent(t, r'[|v.0|..]) == Some(v.1)
  {
  }

  /** A text cut into a prefix, a prefix of the remainder and the rest. */
  lemma Reassemble(r: string, a: string, b: string, c: string)
    requires a <= r && b <= r[|a|..] && r[|a|..][|b|..] == c
    ensures r == a + b + c
  {
    assert r == a + r[|a|..];
    assert r[|a|..] == b + r[|a|..][|b|..];
  }

  /** A text made of the opening and the filled-in rest is the filled-in
      template. */
  lemma FilledFromParts(t: Template, p: string, keyword: string, intent: string, numH2: nat)
    requires t.opening <= p
    requires p[|t.opening|..] == keyword + (t.keywordToIntent + intent + t.intentToCount + FillCount(t, numH2))
    ensures p == Fill(t, keyword, intent, numH2)
  {
    assert p == t.opening + p[|t.opening|..];
    FillParts(t, keyword, intent, numH2);
  }

  /** An accepted text is the opening text followed by what the reader read
      and the fixed text between. */
  lemma ParsedShape(t: Template, p: string)
    requires Parse(t, p).Some?
    ensures var v := Parse(t, p).value;
            t.opening <= p &&
            p[|t.opening|..] == v.0 + (t.keywordToIntent + v.1 + t.intentToCount + FillCount(t, v.2))
  {
    var v := Parse(t, p).value;
    var r := p[|t.opening|..];
    var tail := r[|v.0|..];
    ParseRead(t, p);
    ParsedAfterKeyword(t, tail);
    assert tail == t.keywordToIntent + v.1 + t.intentToCount + FillCount(t, v.2);
    PrefixJoin(r, v.0);
  }

  lemma PrefixJoin(r: string, a: string)
    requires a <= r
    ensures r == a + r[|a|..]
  {
  }

  /** The keyword the reader accepts follows the opening text, and the rest
      is read from what follows the keyword. */
  lemma ParseRead(t: Template, p: string)
    requires Parse(t, p).Some?
    ensures var v, r := Parse(t, p).value, p[|t.opening|..];
            t.opening <= p && v.0 <= r && ParseAfterKeyword(t, r[|v.0|..]) == Some((v.1, v.2))
  {
  }

  /** Conversely, every text the reader accepts is the prompt of what it
      reads. */
  lemma ParsedIsFilled(t: Template, p: string)
    requires Parse(t, p).Some?
    ensures p == Fill(t, Parse(t, p).value.0, Parse(t, p).value.1, Parse(t, p).value.2)
  {
    var v := Parse(t, p).value;
    ParsedShape(t, p);
    FilledFromParts(t, p, v.0, v.1, v.2);
  }

  /** The outline prompt determines its inputs: reading it back gives the
      keyword, the intent and the section count, and the only texts read
      back at all are outline prompts. */
  lemma OutlinePromptRoundTrip(keyword: string, intent: string, numH2: nat, p: string)
    ensures '」' !in keyword && '」' !in intent ==>
            Parse(OUTLINE_TEMPLATE, OutlinePrompt(keyword, intent, numH2)) == Some((keyword, intent, numH2))
    ensures Parse(OUTLINE_TEMPLATE, p) == Some((keyword, intent, numH2)) ==>
            p == OutlinePrompt(keyword, intent, numH2)
  {
    OutlineTemplateWellDelimited();
    if '」' !in keyword && '」' !in intent {
      FillRoundTrip(OUTLINE_TEMPLATE, keyword, intent, numH2);
    }
    if Parse(OUTLINE_TEMPLATE, p).Some? {
      ParsedIsFilled(OUTLINE_TEMPLATE, p);
    }
  }
}
