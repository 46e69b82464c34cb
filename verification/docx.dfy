/**
 * The document reader the checks use, over an already-loaded document: a
 * list of paragraphs (text, style name, runs with font names) and a list of
 * sections with their page geometry in EMU.
 */
module Docx {
  import opened Common
  import opened Text

  datatype Run = Run(fontName: Option<string>)
  datatype Paragraph = Paragraph(text: string, style: Option<string>, runs: seq<Run>)

  /** Page geometry of a section; python-docx reports `None` for an unset value. */
  datatype Section = Section(
    pageWidth: Option<int>, pageHeight: Option<int>,
    leftMargin: Option<int>, rightMargin: Option<int>,
    topMargin: Option<int>, bottomMargin: Option<int>)

  datatype Document = Document(paragraphs: seq<Paragraph>, sections: seq<Section>)

  /** `p.text.strip()` is empty: every character is whitespace (`Text.StripEmptyIffAllSpace`). */
  predicate Blank(p: Paragraph) {
    forall i :: 0 <= i < |p.text| ==> IsSpace(p.text[i])
  }

  /** The index of the first paragraph that is not blank, or the length when all are. */
  function FirstNonBlank(ps: seq<Paragraph>): (i: nat)
    ensures i <= |ps|
    ensures forall j :: 0 <= j < i ==> Blank(ps[j])
    ensures i < |ps| ==> !Blank(ps[i])
    decreases |ps|
  {
    if |ps| == 0 || !Blank(ps[0]) then 0
    else
      var n := FirstNonBlank(ps[1..]);
      forall j | 0 < j <= n ensures Blank(ps[j]) {
        assert ps[j] == ps[1..][j - 1];
      }
      assert n < |ps| - 1 ==> ps[n + 1] == ps[1..][n];
      n + 1
  }

  /** `get_title`: the stripped text of the first paragraph that is not blank, or "". */
  function GetTitle(doc: Document): (t: string)
    ensures t == "" <==> forall i :: 0 <= i < |doc.paragraphs| ==> Blank(doc.paragraphs[i])
    ensures t != "" ==> exists i :: 0 <= i < |doc.paragraphs| && t == Strip(doc.paragraphs[i].text)
                                   && forall j :: 0 <= j < i ==> Blank(doc.paragraphs[j])
  {
    var i := FirstNonBlank(doc.paragraphs);
    if i < |doc.paragraphs| then
      StripEmptyIffAllSpace(doc.paragraphs[i].text);
      Strip(doc.paragraphs[i].text)
    else ""
  }

  function Texts(ps: seq<Paragraph>): (r: seq<string>)
    ensures |r| == |ps| && forall i :: 0 <= i < |ps| ==> r[i] == ps[i].text
  {
    seq(|ps|, i requires 0 <= i < |ps| => ps[i].text)
  }

  /** `get_all_text`: every paragraph's text joined by "\n", blank paragraphs included. */
  function GetAllText(doc: Document): string {
    Join(Texts(doc.paragraphs), "\n")
  }

  function TotalLength(ts: seq<string>): nat
    decreases |ts|
  {
    if |ts| == 0 then 0 else |ts[0]| + TotalLength(ts[1..])
  }

  /** Joining puts exactly one separator between neighbours, so every paragraph adds its length plus one newline. */
  lemma {:induction false} JoinLength(ts: seq<string>, sep: string)
    ensures |Join(ts, sep)| == TotalLength(ts) + (if |ts| == 0 then 0 else (|ts| - 1) * |sep|)
    decreases |ts|
  {
    if |ts| > 1 {
      JoinLength(ts[1..], sep);
    }
  }

  lemma AllTextLength(doc: Document)
    ensures |GetAllText(doc)| ==
            TotalLength(Texts(doc.paragraphs)) + (if |doc.paragraphs| == 0 then 0 else |doc.paragraphs| - 1)
  {
    JoinLength(Texts(doc.paragraphs), "\n");
  }

  datatype Heading = Heading(index: nat, level: nat, text: string, style: string)

  predicate IsHeadingStyle(style: Option<string>) {
    style.Some? && Contains(style.value, "Heading")
  }

  /** The level `get_headings` assigns: the first of "Heading 1/2/3" found anywhere in the style name, else 0. */
  function HeadingLevel(style: string): (l: nat)
    ensures l <= 3
    ensures l == 1 <==> Contains(style, "Heading 1")
    ensures l == 2 <==> !Contains(style, "Heading 1") && Contains(style, "Heading 2")
    ensures l == 3 <==> !Contains(style, "Heading 1") && !Contains(style, "Heading 2") && Contains(style, "Heading 3")
  {
    if Contains(style, "Heading 1") then 1
    else if Contains(style, "Heading 2") then 2
    else if Contains(style, "Heading 3") then 3
    else 0
  }

  function MakeHeading(index: nat, p: Paragraph): Heading
    requires p.style.Some?
  {
    Heading(index, HeadingLevel(p.style.value), p.text, p.style.value)
  }

  function HeadingsFrom(ps: seq<Paragraph>, start: nat): seq<Heading>
    decreases |ps|
  {
    if |ps| == 0 then []
    else if IsHeadingStyle(ps[0].style) then [MakeHeading(start, ps[0])] + HeadingsFrom(ps[1..], start + 1)
    else HeadingsFrom(ps[1..], start + 1)
  }

  /** `s` is the heading record of paragraph `i` of `ps`, indices counted from `start`. */
  predicate HeadingOf(ps: seq<Paragraph>, start: nat, h: Heading) {
    start <= h.index < start + |ps| && IsHeadingStyle(ps[h.index - start].style)
    && h == MakeHeading(h.index, ps[h.index - start])
  }

  lemma {:induction false} HeadingsFromSound(ps: seq<Paragraph>, start: nat)
    ensures forall k :: 0 <= k < |HeadingsFrom(ps, start)| ==> HeadingOf(ps, start, HeadingsFrom(ps, start)[k])
    decreases |ps|
  {
    if |ps| > 0 {
      var rest := HeadingsFrom(ps[1..], start + 1);
      HeadingsFromSound(ps[1..], start + 1);
      forall k | 0 <= k < |rest| ensures HeadingOf(ps, start, rest[k]) {
        assert HeadingOf(ps[1..], start + 1, rest[k]);
        assert ps[rest[k].index - start] == ps[1..][rest[k].index - (start + 1)];
      }
      if IsHeadingStyle(ps[0].style) {
        var hs := [MakeHeading(start, ps[0])] + rest;
        assert forall k :: 1 <= k < |hs| ==> hs[k] == rest[k - 1];
      }
    }
  }

  lemma {:induction false} HeadingsFromOrdered(ps: seq<Paragraph>, start: nat)
    ensures forall k, m :: 0 <= k < m < |HeadingsFrom(ps, start)| ==>
              HeadingsFrom(ps, start)[k].index < HeadingsFrom(ps, start)[m].index
    decreases |ps|
  {
    if |ps| > 0 {
      var rest := HeadingsFrom(ps[1..], start + 1);
      HeadingsFromOrdered(ps[1..], start + 1);
      HeadingsFromSound(ps[1..], start + 1);
      if IsHeadingStyle(ps[0].style) {
        var hs := [MakeHeading(start, ps[0])] + rest;
        assert forall k :: 1 <= k < |hs| ==> hs[k] == rest[k - 1];
        assert forall k :: 0 <= k < |rest| ==> rest[k].index >= start + 1;
      }
    }
  }

  lemma {:induction false} HeadingsFromComplete(ps: seq<Paragraph>, start: nat)
    ensures forall i :: 0 <= i < |ps| && IsHeadingStyle(ps[i].style) ==> MakeHeading(start + i, ps[i]) in HeadingsFrom(ps, start)
    decreases |ps|
  {
    if |ps| > 0 {
      HeadingsFromComplete(ps[1..], start + 1);
      forall i | 1 <= i < |ps| && IsHeadingStyle(ps[i].style) ensures MakeHeading(start + i, ps[i]) in HeadingsFrom(ps, start) {
        assert ps[i] == ps[1..][i - 1];
        assert MakeHeading(start + 1 + (i - 1), ps[1..][i - 1]) in HeadingsFrom(ps[1..], start + 1);
      }
    }
  }

  /**
   * `get_headings`: exactly the paragraphs whose style name contains
   * "Heading", in document order, each with its index, level, text and style.
   */
  function GetHeadings(doc: Document): (hs: seq<Heading>)
    ensures forall k :: 0 <= k < |hs| ==> HeadingOf(doc.paragraphs, 0, hs[k])
    ensures forall k, m :: 0 <= k < m < |hs| ==> hs[k].index < hs[m].index
    ensures forall i :: 0 <= i < |doc.paragraphs| && IsHeadingStyle(doc.paragraphs[i].style) ==>
              MakeHeading(i, doc.paragraphs[i]) in hs
  {
    HeadingsFromSound(doc.paragraphs, 0);
    HeadingsFromOrdered(doc.paragraphs, 0);
    HeadingsFromComplete(doc.paragraphs, 0);
    HeadingsFrom(doc.paragraphs, 0)
  }

  datatype Orientation = Portrait | Landscape

  datatype PageSetup = PageSetup(
    pageWidth: int, pageHeight: int, leftMargin: Option<int>, rightMargin: Option<int>,
    topMargin: Option<int>, bottomMargin: Option<int>, orientation: Orientation)

  /**
   * `get_page_setup` over the first section. `None` stands for the raised
   * exception: no section at all, or an unset width or height, which the
   * `<` comparison rejects.
   */
  function GetPageSetup(doc: Document): (r: Option<PageSetup>)
    ensures r.Some? <==> |doc.sections| > 0 && doc.sections[0].pageWidth.Some? && doc.sections[0].pageHeight.Some?
    ensures r.Some? ==> r.value.leftMargin == doc.sections[0].leftMargin
    ensures r.Some? ==> (r.value.orientation == Portrait <==> r.value.pageWidth < r.value.pageHeight)
    ensures r.Some? ==> r.value.pageWidth == doc.sections[0].pageWidth.value
                        && r.value.pageHeight == doc.sections[0].pageHeight.value
  {
    if |doc.sections| == 0 then None
    else
      var s := doc.sections[0];
      if s.pageWidth.None? || s.pageHeight.None? then None
      else
        var w, h := s.pageWidth.value, s.pageHeight.value;
        Some(PageSetup(w, h, s.leftMargin, s.rightMargin, s.topMargin, s.bottomMargin,
                       if w < h then Portrait else Landscape))
  }

  /** The non-empty font names of the runs, in paragraph and run order. */
  function RunFontNames(runs: seq<Run>): (names: seq<string>)
    ensures forall k :: 0 <= k < |names| ==> names[k] != ""
    decreases |runs|
  {
    if |runs| == 0 then []
    else
      var rest := RunFontNames(runs[1..]);
      match runs[0].fontName
      case Some(n) => if n != "" then [n] + rest else rest
      case None => rest
  }

  function FontNames(ps: seq<Paragraph>): (names: seq<string>)
    ensures forall k :: 0 <= k < |names| ==> names[k] != ""
    decreases |ps|
  {
    if |ps| == 0 then [] else RunFontNames(ps[0].runs) + FontNames(ps[1..])
  }

  /** The loop of `get_fonts`: append a name when it has not been seen. */
  function CollectNew(names: seq<string>, acc: seq<string>): seq<string>
    decreases |names|
  {
    if |names| == 0 then acc
    else CollectNew(names[1..], if names[0] in acc then acc else acc + [names[0]])
  }

  /** `get_fonts`, reduced to the font names it lists. */
  function GetFonts(doc: Document): seq<string> {
    CollectNew(FontNames(doc.paragraphs), [])
  }

  /** Continuing the `get_fonts` loop after a prefix gives the first-occurrence list of the whole. */
  lemma {:induction false} CollectNewIsDedup(p: seq<string>, s: seq<string>)
    ensures CollectNew(s, Dedup(p)) == Dedup(p + s)
    decreases |s|
  {
    if |s| == 0 {
      assert p + s == p;
    } else {
      var q := p + [s[0]];
      assert CollectNew(s, Dedup(p)) == CollectNew(s[1..], if s[0] in Dedup(p) then Dedup(p) else Dedup(p) + [s[0]]);
      DedupSnoc(p, s[0]);
      CollectNewIsDedup(q, s[1..]);
      AppendHeadTail(p, s);
    }
  }

  /** `get_fonts` lists each non-empty font name once, in first-occurrence order. */
  lemma GetFontsFirstOccurrence(doc: Document)
    ensures GetFonts(doc) == Dedup(FontNames(doc.paragraphs))
    ensures forall i, j :: 0 <= i < j < |GetFonts(doc)| ==> GetFonts(doc)[i] != GetFonts(doc)[j]
    ensures forall n :: n in GetFonts(doc) <==> n in FontNames(doc.paragraphs)
  {
    CollectNewIsDedup([], FontNames(doc.paragraphs));
    assert [] + FontNames(doc.paragraphs) == FontNames(doc.paragraphs);
  }

  function LongWords(ws: seq<string>): (r: seq<string>)
    ensures forall x :: x in r <==> x in ws && |x| > 2
    decreases |ws|
  {
    if |ws| == 0 then []
    else
      var rest := LongWords(ws[1..]);
      assert forall x :: x in ws <==> x == ws[0] || x in ws[1..];
      if |ws[0]| > 2 then [ws[0]] + rest else rest
  }

  /** The words longer than two characters of the first `budget` paragraphs that are not blank. */
  function KeywordCandidates(ps: seq<Paragraph>, budget: nat): seq<string>
    decreases |ps|
  {
    if |ps| == 0 || budget == 0 then []
    else if Blank(ps[0]) then KeywordCandidates(ps[1..], budget)
    else ParagraphWords(ps[0]) + KeywordCandidates(ps[1..], budget - 1)
  }

  /** The words of one paragraph longer than two characters, in order. */
  function ParagraphWords(p: Paragraph): (r: seq<string>)
    ensures forall x :: x in r ==> |x| > 2
  {
    LongWords(Words(p.text))
  }

  /**
   * `extract_keywords`: distinct candidates, at most ten. `list(set(...))`
   * has no defined order; first-occurrence order stands in for it.
   */
  function DocumentKeywords(doc: Document): (r: seq<string>)
    ensures |r| <= 10
    ensures forall i, j :: 0 <= i < j < |r| ==> r[i] != r[j]
    ensures forall k :: 0 <= k < |r| ==> |r[k]| > 2 && r[k] in KeywordCandidates(doc.paragraphs, 3)
    ensures |r| == Min(10, |Dedup(KeywordCandidates(doc.paragraphs, 3))|)
  {
    var all := Dedup(KeywordCandidates(doc.paragraphs, 3));
    CandidatesAreLong(doc.paragraphs, 3);
    PyPrefix(all, 10)
  }

  lemma {:induction false} CandidatesAreLong(ps: seq<Paragraph>, budget: nat)
    ensures forall x :: x in KeywordCandidates(ps, budget) ==> |x| > 2
    decreases |ps|
  {
    if |ps| > 0 && budget > 0 {
      var c := KeywordCandidates(ps, budget);
      var b := if Blank(ps[0]) then budget else budget - 1;
      var here := if Blank(ps[0]) then [] else ParagraphWords(ps[0]);
      var rest := KeywordCandidates(ps[1..], b);
      CandidatesAreLong(ps[1..], b);
      assert c == here + rest;
      forall x | x in c ensures |x| > 2 {
        assert x in here || x in rest;
      }
    }
  }

  /**
   * Edge cases of the parser as written: substring matching gives
   * "Heading 10" level 1 and "Heading 4" level 0; a square page is reported
   * as landscape; and blank paragraphs in front of the first three non-blank
   * ones change nothing in the keyword candidates.
   */
  lemma ParserEdgeCases(doc: Document, p: Paragraph, ps: seq<Paragraph>, budget: nat)
    ensures HeadingLevel("Heading 10") == 1
    ensures HeadingLevel("Heading 4") == 0
    ensures |doc.sections| > 0 && doc.sections[0].pageWidth.Some? && doc.sections[0].pageWidth == doc.sections[0].pageHeight ==>
              GetPageSetup(doc).Some? && GetPageSetup(doc).value.orientation == Landscape
    ensures Blank(p) ==> KeywordCandidates([p] + ps, budget) == KeywordCandidates(ps, budget)
  {
    ContainsAt("Heading 10", "Heading 1", 0);
    ContainsSameLength("Heading 4", "Heading 1");
    ContainsSameLength("Heading 4", "Heading 2");
    ContainsSameLength("Heading 4", "Heading 3");
    if Blank(p) && budget > 0 {
      assert ([p] + ps)[1..] == ps;
    }
  }
}
