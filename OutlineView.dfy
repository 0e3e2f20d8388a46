/** The results area of app.py:124-157: the outline stored in session state,
    read through `dict.get` with fallbacks, and the sequence of Streamlit
    elements it is rendered as. */
module OutlineView {
  import opened Wrappers
  import opened Json
  import Decimal

  /** One H2 section: its heading, if the key is there, and its H3 headings. */
  datatype Section = Section(heading: Option<string>, subheadings: seq<string>)

  /** The outline the model returns: an optional H1 title and the sections. */
  datatype Outline = Outline(title: Option<string>, sections: seq<Section>)

  /** One call into the page: `st.markdown`, `st.header`, `st.subheader`,
      `st.code` or `st.info`, with its text. */
  datatype Element =
    | Markdown(text: string)
    | Header(text: string)
    | Subheader(text: string)
    | Code(text: string)
    | Info(text: string)

  /** What the results area shows: nothing, the rendered outline, or a stored
      value of a shape whose rendering is not modelled (Python would raise on
      it or print it with `str()`). */
  datatype View = Hidden | Shown(elements: seq<Element>) | Unsupported

  const TITLE_KEY: string := "article_title_H1"
  const OUTLINE_KEY: string := "outline"
  const HEADING_KEY: string := "heading_H2"
  const SUBHEADINGS_KEY: string := "sections_H3"

  const TITLE_FALLBACK: string := "タイトル生成エラー"
  const PLACEHOLDER: string := "> *ここに具体的な手順や内容（本文）が入ります。*"
  const NO_SUBHEADINGS: string := "#### *（H3見出しが生成されていません。手動で追加してください。）*"

  // ---------------------------------------------------------------------
  // Reading the stored value (the `.get` calls of lines 134, 139, 140, 144)
  // ---------------------------------------------------------------------

  /** `data.get("article_title_H1", fallback)` as far as `st.code` can show it:
      absent, or a string. */
  function DecodeTitle(v: Option<Value>): (r: Option<Option<string>>)
    ensures r.Some? <==> v.None? || v.value.JStr?
    ensures r.Some? ==> (r.value.Some? <==> v.Some?) && (v.Some? ==> r.value.value == v.value.s)
  {
    match v
    case None => Some(None)
    case Some(JStr(t)) => Some(Some(t))
    case Some(_) => None
  }

  /** What `enumerate(data.get("outline", []))` iterates over: a list's items;
      nothing for an absent key, an empty string or an empty dict. */
  function SectionItems(v: Option<Value>): (r: Option<seq<Value>>)
    ensures r.Some? <==> v.None? || v.value.JArr? || v.value == JStr([]) || v.value == JObj(map[])
    ensures r.Some? && v.Some? && v.value.JArr? ==> r.value == v.value.items
    ensures r.Some? && !(v.Some? && v.value.JArr?) ==> r.value == []
  {
    match v
    case None => Some([])
    case Some(JArr(items)) => Some(items)
    case Some(JStr(s)) => if s == [] then Some([]) else None
    case Some(JObj(fields)) => if |fields| == 0 then Some([]) else None
    case Some(_) => None
  }

  /** Every item a string. */
  function Strings(items: seq<Value>): (r: Option<seq<string>>)
    ensures r.Some? <==> forall k :: 0 <= k < |items| ==> items[k].JStr?
    ensures r.Some? ==> |r.value| == |items| &&
                        forall k :: 0 <= k < |items| ==> items[k] == JStr(r.value[k])
  {
    if items == [] then Some([])
    else match (items[0], Strings(items[1..]))
      case (JStr(s), Some(rest)) => Some([s] + rest)
      case _ => None
  }

  /** The one-character strings a Python `for` over `s` yields. */
  function Characters(s: string): (r: seq<string>)
    ensures |r| == |s| && forall k :: 0 <= k < |s| ==> r[k] == [s[k]]
  {
    seq(|s|, k requires 0 <= k < |s| => [s[k]])
  }

  /** The H3 headings of `h2_section.get("sections_H3", [])`: none when the
      value is absent or false; the items of a list of strings; one heading
      per character when the value is a string, as iterating a Python string
      does. */
  function DecodeSubheadings(v: Option<Value>): (r: Option<seq<string>>)
    ensures v.None? || !Truthy(v.value) ==> r == Some([])
    ensures v.Some? && Truthy(v.value) && v.value.JArr? ==> r == Strings(v.value.items)
    ensures v.Some? && v.value.JStr? ==>
              r.Some? && |r.value| == |v.value.s| && forall k :: 0 <= k < |r.value| ==> r.value[k] == [v.value.s[k]]
    ensures r.Some? ==> v.None? || !Truthy(v.value) || v.value.JArr? || v.value.JStr?
  {
    match v
    case None => Some([])
    case Some(x) =>
      if !Truthy(x) then Some([])
      else match x
        case JArr(items) => Strings(items)
        case JStr(s) => Some(Characters(s))
        case _ => None
  }

  /** One item of `outline` read as a section: a dict whose `heading_H2` is
      absent or a string and whose `sections_H3` decodes. */
  function DecodeSection(v: Value): (r: Option<Section>)
    ensures r.Some? <==>
              v.JObj? && (HEADING_KEY !in v.fields || v.fields[HEADING_KEY].JStr?) &&
              DecodeSubheadings(Get(v.fields, SUBHEADINGS_KEY)).Some?
    ensures r.Some? ==>
              r.value.heading == (if HEADING_KEY in v.fields then Some(v.fields[HEADING_KEY].s) else None) &&
              Some(r.value.subheadings) == DecodeSubheadings(Get(v.fields, SUBHEADINGS_KEY))
  {
    match v
    case JObj(fields) =>
      var heading := match Get(fields, HEADING_KEY)
        case None => Some(None)
        case Some(JStr(h)) => Some(Some(h))
        case Some(_) => None;
      var subheadings := DecodeSubheadings(Get(fields, SUBHEADINGS_KEY));
      if heading.Some? && subheadings.Some? then Some(Section(heading.value, subheadings.value)) else None
    case _ => None
  }

  /** The items of `outline` read as sections, in order. */
  function DecodeSections(items: seq<Value>): (r: Option<seq<Section>>)
    ensures r.Some? <==> forall k :: 0 <= k < |items| ==> DecodeSection(items[k]).Some?
    ensures r.Some? ==> |r.value| == |items| &&
                        forall k :: 0 <= k < |items| ==> r.value[k] == DecodeSection(items[k]).value
  {
    if items == [] then Some([])
    else match (DecodeSection(items[0]), DecodeSections(items[1..]))
      case (Some(s), Some(rest)) => Some([s] + rest)
      case _ => None
  }

  /** The stored dict read as an outline, or None when its shape is one whose
      rendering is not modelled. */
  function Decode(v: Value): (r: Option<Outline>)
    ensures r.Some? <==>
              v.JObj? && DecodeTitle(Get(v.fields, TITLE_KEY)).Some? &&
              SectionItems(Get(v.fields, OUTLINE_KEY)).Some? &&
              DecodeSections(SectionItems(Get(v.fields, OUTLINE_KEY)).value).Some?
    ensures r.Some? ==>
              var items := SectionItems(Get(v.fields, OUTLINE_KEY)).value;
              Some(r.value.title) == DecodeTitle(Get(v.fields, TITLE_KEY)) &&
              |r.value.sections| == |items| &&
              forall k :: 0 <= k < |items| ==> r.value.sections[k] == DecodeSection(items[k]).value
  {
    match v
    case JObj(fields) =>
      var title := DecodeTitle(Get(fields, TITLE_KEY));
      var items := SectionItems(Get(fields, OUTLINE_KEY));
      if title.Some? && items.Some? then
        match DecodeSections(items.value)
        case Some(sections) => Some(Outline(title.value, sections))
        case None => None
      else None
    case _ => None
  }

  // ---------------------------------------------------------------------
  // The JSON shape the prompt asks for (lines 83-95)
  // ---------------------------------------------------------------------

  function StringValues(hs: seq<string>): (r: seq<Value>)
    ensures |r| == |hs| && forall k :: 0 <= k < |hs| ==> r[k] == JStr(hs[k])
  {
    seq(|hs|, k requires 0 <= k < |hs| => JStr(hs[k]))
  }

  function EncodeSection(s: Section): Value
  {
    var h3 := map[SUBHEADINGS_KEY := JArr(StringValues(s.subheadings))];
    match s.heading
    case Some(h) => JObj(h3[HEADING_KEY := JStr(h)])
    case None => JObj(h3)
  }

  /** An outline written in the schema the prompt requests; an absent title
      or heading is an absent key. */
  function Encode(o: Outline): Value
  {
    var body := map[OUTLINE_KEY := JArr(seq(|o.sections|, k requires 0 <= k < |o.sections| => EncodeSection(o.sections[k])))];
    match o.title
    case Some(t) => JObj(body[TITLE_KEY := JStr(t)])
    case None => JObj(body)
  }

  // ---------------------------------------------------------------------
  // Rendering (lines 129-157)
  // ---------------------------------------------------------------------

  const CHAPTER_OPEN: string := "**--- 第"
  const CHAPTER_CLOSE: string := "章 ---**"

  /** `**--- 第{i+1}章 ---**` for the section at 0-based position `i`. */
  function ChapterLabel(i: nat): Element
  {
    Markdown(CHAPTER_OPEN + Decimal.FromNat(i + 1) + CHAPTER_CLOSE)
  }

  /** `## {h2_title}` with the `[H2見出し {i+1}]` fallback. */
  function HeadingLine(i: nat, s: Section): Element
  {
    Markdown("## " + s.heading.GetOr("[H2見出し " + Decimal.FromNat(i + 1) + "]"))
  }

  /** The inner loop of lines 147-150: a heading and a placeholder per H3. */
  function SubheadingLines(hs: seq<string>): (r: seq<Element>)
    ensures |r| == 2 * |hs|
  {
    if hs == [] then []
    else SubheadingLines(hs[..|hs| - 1]) + [Markdown("#### " + hs[|hs| - 1]), Markdown(PLACEHOLDER)]
  }

  function SectionBody(hs: seq<string>): seq<Element>
  {
    if hs != [] then SubheadingLines(hs) else [Markdown(NO_SUBHEADINGS)]
  }

  /** One iteration of the outer loop (lines 140-154). */
  function SectionLines(i: nat, s: Section): seq<Element>
  {
    [ChapterLabel(i), HeadingLine(i, s)] + SectionBody(s.subheadings) + [Markdown("")]
  }

  /** `render` applied to each section with its position, in order, the
      first section at position `start`. */
  function Concat(secs: seq<Section>, start: nat, render: (nat, Section) -> seq<Element>): seq<Element>
  {
    if secs == [] then []
    else Concat(secs[..|secs| - 1], start, render) + render(start + |secs| - 1, secs[|secs| - 1])
  }

  /** The outer loop over `secs`, the first of them at position `start`. */
  function SectionsFrom(secs: seq<Section>, start: nat): seq<Element>
  {
    Concat(secs, start, SectionLines)
  }

  /** Lines 129-136, before the loop. */
  function Preamble(o: Outline): seq<Element>
  {
    [Markdown("---"), Header("✅ 生成された記事骨子 (SEOアウトライン)"), Subheader("🥇 H1タイトル (記事の顔)"),
     Code(o.title.GetOr(TITLE_FALLBACK)), Markdown("### 📝 記事構成案 (H2とH3)")]
  }

  /** Lines 156-157, after the loop. */
  const EPILOGUE: seq<Element> :=
    [Markdown("---"), Info("この骨子に基づき、次のステップでは「記事本文の自動生成」機能を追加していきます。")]

  /** Lines 126-157 for a decoded outline. */
  function ResultsArea(o: Outline): seq<Element>
  {
    Preamble(o) + SectionsFrom(o.sections, 0) + EPILOGUE
  }

  /** The condition of line 126 and what follows it. The results area is
      drawn only for a stored value that is present and truthy, so neither
      for None nor for an empty dict, and then shows the decoded outline. */
  function ResultsView(data: Option<Value>): (r: View)
    ensures r.Hidden? <==> data.None? || !Truthy(data.value)
    ensures data == Some(JObj(map[])) ==> r.Hidden?
    ensures r.Shown? <==> !r.Hidden? && Decode(data.value).Some?
    ensures r.Shown? ==> r.elements == ResultsArea(Decode(data.value).value)
  {
    if data.None? || !Truthy(data.value) then Hidden
    else match Decode(data.value)
      case None => Unsupported
      case Some(o) => Shown(ResultsArea(o))
  }

  // ---------------------------------------------------------------------
  // Properties
  // ---------------------------------------------------------------------

  /** The H1 title, or its fallback, is the code block of the fourth element. */
  lemma TitleFallback(o: Outline)
    ensures ResultsArea(o)[3] == Code(if o.title.Some? then o.title.value else TITLE_FALLBACK)
    ensures o.title.None? ==> ResultsArea(o)[3] == Code("タイトル生成エラー")
  {
  }

  /** The chapter label is a Markdown line whose numeral, between the fixed
      texts, reads back as i+1. */
  lemma ChapterLabelNumber(i: nat)
    ensures var r := ChapterLabel(i); var n := |r.text| - |CHAPTER_CLOSE|;
            r.Markdown? && |CHAPTER_OPEN| < n && r.text[..|CHAPTER_OPEN|] == CHAPTER_OPEN &&
            r.text[n..] == CHAPTER_CLOSE &&
            Decimal.AllDigits(r.text[|CHAPTER_OPEN|..n]) && Decimal.Value(r.text[|CHAPTER_OPEN|..n]) == i + 1
  {
    var number := Decimal.FromNat(i + 1);
    Decimal.ValueOfFromNat(i + 1);
    var text := CHAPTER_OPEN + number + CHAPTER_CLOSE;
    assert text[|CHAPTER_OPEN|..|text| - |CHAPTER_CLOSE|] == number;
  }

  /** The H2 line is `## ` followed by the section's heading when it has one,
      and otherwise by the `[H2見出し i+1]` fallback. */
  lemma HeadingLineText(i: nat, s: Section)
    ensures var r := HeadingLine(i, s);
            r.Markdown? && |r.text| >= 3 && r.text[..3] == "## " &&
            (s.heading.Some? ==> r.text[3..] == s.heading.value) &&
            (s.heading.None? ==> r.text[3..] == "[H2見出し " + Decimal.FromNat(i + 1) + "]")
  {
    var rest := s.heading.GetOr("[H2見出し " + Decimal.FromNat(i + 1) + "]");
    assert ("## " + rest)[3..] == rest;
  }

  /** Different sections get different chapter labels. */
  lemma ChapterLabelsDistinct(i: nat, j: nat)
    requires i != j
    ensures ChapterLabel(i) != ChapterLabel(j)
  {
    ChapterLabelNumber(i);
    ChapterLabelNumber(j);
  }

  /** H3 heading `j` renders as the line pair at 2j and 2j+1: its `####`
      heading, then the placeholder. */
  lemma {:induction false} SubheadingLinesAt(hs: seq<string>, j: nat)
    requires j < |hs|
    ensures SubheadingLines(hs)[2 * j] == Markdown("#### " + hs[j])
    ensures SubheadingLines(hs)[2 * j + 1] == Markdown(PLACEHOLDER)
  {
    var init := hs[..|hs| - 1];
    if j < |init| {
      SubheadingLinesAt(init, j);
    }
  }

  /** The block of one section: chapter label, H2 heading, then either one
      heading and one placeholder per H3 or, with no H3, the single "not
      generated" line, then the spacer. */
  lemma SectionLinesShape(i: nat, s: Section)
    ensures var lines, hs := SectionLines(i, s), s.subheadings;
            |lines| == 3 + (if hs == [] then 1 else 2 * |hs|) &&
            lines[0] == ChapterLabel(i) && lines[1] == HeadingLine(i, s) &&
            lines[|lines| - 1] == Markdown("") &&
            (hs == [] ==> lines[2] == Markdown(NO_SUBHEADINGS)) &&
            (forall j :: 0 <= j < |hs| ==>
              lines[2 + 2 * j] == Markdown("#### " + hs[j]) && lines[3 + 2 * j] == Markdown(PLACEHOLDER))
  {
    var hs := s.subheadings;
    forall j | 0 <= j < |hs|
      ensures SectionLines(i, s)[2 + 2 * j] == Markdown("#### " + hs[j])
      ensures SectionLines(i, s)[3 + 2 * j] == Markdown(PLACEHOLDER)
    {
      SubheadingLinesAt(hs, j);
    }
  }

  lemma {:induction false} ConcatAppend(a: seq<Section>, b: seq<Section>, start: nat,
                                        render: (nat, Section) -> seq<Element>)
    ensures Concat(a + b, start, render) == Concat(a, start, render) + Concat(b, start + |a|, render)
  {
    if b == [] {
      assert a + b == a;
    } else {
      var b', last := b[..|b| - 1], b[|b| - 1];
      assert (a + b)[..|a + b| - 1] == a + b' && (a + b)[|a + b| - 1] == last;
      ConcatAppend(a, b', start, render);
    }
  }

  lemma ConcatAt(secs: seq<Section>, i: nat, start: nat, render: (nat, Section) -> seq<Element>)
    requires i < |secs|
    ensures Concat(secs, start, render) ==
            Concat(secs[..i], start, render) + render(start + i, secs[i]) + Concat(secs[i + 1..], start + i + 1, render)
  {
    ConcatSplit(secs, i, start, render);
    ConcatFirst(secs[i..], start + i, render);
    assert secs[i..][1..] == secs[i + 1..];
  }

  /** Cutting the sections at `i`. */
  lemma ConcatSplit(secs: seq<Section>, i: nat, start: nat, render: (nat, Section) -> seq<Element>)
    requires i <= |secs|
    ensures Concat(secs, start, render) == Concat(secs[..i], start, render) + Concat(secs[i..], start + i, render)
  {
    assert secs == secs[..i] + secs[i..];
    ConcatAppend(secs[..i], secs[i..], start, render);
  }

  /** The first section's block comes first. */
  lemma ConcatFirst(secs: seq<Section>, start: nat, render: (nat, Section) -> seq<Element>)
    requires secs != []
    ensures Concat(secs, start, render) == render(start, secs[0]) + Concat(secs[1..], start + 1, render)
  {
    assert secs == [secs[0]] + secs[1..];
    ConcatAppend([secs[0]], secs[1..], start, render);
    assert [secs[0]][..0] == [];
  }

  /** Rendering a concatenation renders the parts one after the other, the
      numbering continuing across the boundary. */
  lemma SectionsFromAppend(a: seq<Section>, b: seq<Section>, start: nat)
    ensures SectionsFrom(a + b, start) == SectionsFrom(a, start) + SectionsFrom(b, start + |a|)
  {
    ConcatAppend(a, b, start, SectionLines);
  }

  /** Sections appear in input order: section `i` is rendered, numbered
      start+i, after every section before it and before every section after
      it. */
  lemma SectionsInOrder(secs: seq<Section>, i: nat, start: nat)
    requires i < |secs|
    ensures SectionsFrom(secs, start) ==
            SectionsFrom(secs[..i], start) + SectionLines(start + i, secs[i]) + SectionsFrom(secs[i + 1..], start + i + 1)
  {
    ConcatAt(secs, i, start, SectionLines);
  }

  /** In the results area, section `i` (0-based) has its block after the
      preamble and the blocks of the sections before it. The block opens with
      the label of chapter i+1, then the H2 heading or, when it is missing,
      the `[H2見出し i+1]` fallback. */
  lemma ChapterInResults(o: Outline, i: nat)
    requires i < |o.sections|
    ensures var p, area := |Preamble(o)| + |SectionsFrom(o.sections[..i], 0)|, ResultsArea(o);
            p + 1 < |area| && area[p] == ChapterLabel(i) && area[p + 1] == HeadingLine(i, o.sections[i])
  {
    var q := |SectionsFrom(o.sections[..i], 0)|;
    SectionLinesHead(i, o.sections[i]);
    LineInSections(o.sections, i, 0, i);
    SectionInResults(o, q);
    SectionInResults(o, q + 1);
  }

  /** The first two lines of the block of section `i`, numbered `n`
      (start+i), in the outer loop's output. */
  lemma LineInSections(secs: seq<Section>, i: nat, start: nat, n: nat)
    requires i < |secs| && n == start + i
    ensures var q, out, block := |SectionsFrom(secs[..i], start)|, SectionsFrom(secs, start), SectionLines(n, secs[i]);
            |block| >= 2 && q + 1 < |out| && out[q] == block[0] && out[q + 1] == block[1]
  {
    var before, block, after :=
      SectionsFrom(secs[..i], start), SectionLines(start + i, secs[i]), SectionsFrom(secs[i + 1..], start + i + 1);
    SectionsInOrder(secs, i, start);
    SectionLinesHead(start + i, secs[i]);
    IndexAfter(before, block, after, 0);
    IndexAfter(before, block, after, 1);
  }

  /** A block opens with the chapter label and the H2 line. */
  lemma SectionLinesHead(i: nat, s: Section)
    ensures |SectionLines(i, s)| >= 2 && SectionLines(i, s)[0] == ChapterLabel(i) &&
            SectionLines(i, s)[1] == HeadingLine(i, s)
  {
  }

  /** Element `k` of the outer loop's output, seen in the results area. */
  lemma SectionInResults(o: Outline, k: nat)
    requires k < |SectionsFrom(o.sections, 0)|
    ensures |Preamble(o)| + k < |ResultsArea(o)| &&
            ResultsArea(o)[|Preamble(o)| + k] == SectionsFrom(o.sections, 0)[k]
  {
    IndexAfter(Preamble(o), SectionsFrom(o.sections, 0), EPILOGUE, k);
  }

  /** An element of the middle part of a concatenation, seen from the whole. */
  lemma IndexAfter(a: seq<Element>, b: seq<Element>, c: seq<Element>, k: nat)
    requires k < |b|
    ensures |a| + k < |a + b + c| && (a + b + c)[|a| + k] == b[k]
  {
  }

  /** Reading an outline written in the prompt's schema gives it back. */
  lemma DecodeEncode(o: Outline)
    ensures Decode(Encode(o)) == Some(o)
  {
    var items := seq(|o.sections|, k requires 0 <= k < |o.sections| => EncodeSection(o.sections[k]));
    DecodeEncodedSections(o.sections, items);
  }

  lemma {:induction false} DecodeEncodedSections(secs: seq<Section>, items: seq<Value>)
    requires |items| == |secs| && forall k :: 0 <= k < |secs| ==> items[k] == EncodeSection(secs[k])
    ensures DecodeSections(items) == Some(secs)
  {
    if secs != [] {
      DecodeEncodedSection(secs[0]);
      DecodeEncodedSections(secs[1..], items[1..]);
      assert secs == [secs[0]] + secs[1..];
    }
  }

  lemma DecodeEncodedSection(s: Section)
    ensures DecodeSection(EncodeSection(s)) == Some(s)
  {
    var hs := s.subheadings;
    var items := StringValues(hs);
    var fields := EncodeSection(s).fields;
    assert HEADING_KEY != SUBHEADINGS_KEY by { assert |HEADING_KEY| != |SUBHEADINGS_KEY|; }
    assert Get(fields, SUBHEADINGS_KEY) == Some(JArr(items));
    assert Get(fields, HEADING_KEY) == if s.heading.Some? then Some(JStr(s.heading.value)) else None;
    if hs != [] {
      var r := Strings(items);
      assert r.Some?;
      assert r.value == hs;
    }
  }

  /** Any outline stored in the prompt's schema is shown, in full. */
  lemma EncodedOutlineIsShown(o: Outline)
    ensures ResultsView(Some(Encode(o))) == Shown(ResultsArea(o))
  {
    DecodeEncode(o);
    assert OUTLINE_KEY in Encode(o).fields;
  }
}
