/**
 * The format stage of a check: the left margin, the fonts outside the
 * common list and the number of headings. Reading the margin can raise,
 * which fails the whole check.
 */
module FormatStage {
  import opened Text
  import opened CheckModel
  import opened Common
  import opened Docx
  import opened IssueCounts

  /** The smallest accepted left margin in EMU: 5 cm at 914400 EMU per inch, although the message says 2 cm. */
  const MinLeftMargin: int := 1800000

  const CommonFonts: seq<string> := ["宋体", "Times New Roman", "黑体", "Arial"]

  /** The fonts outside the common list, in their order. */
  function NonStandardFonts(fonts: seq<string>): (r: seq<string>)
    ensures forall f :: f in r <==> f in fonts && f !in CommonFonts
    ensures (forall i, j :: 0 <= i < j < |fonts| ==> fonts[i] != fonts[j]) ==>
              forall i, j :: 0 <= i < j < |r| ==> r[i] != r[j]
    decreases |fonts|
  {
    if |fonts| == 0 then []
    else
      var rest := NonStandardFonts(fonts[1..]);
      assert forall f :: f in fonts <==> f == fonts[0] || f in fonts[1..];
      if fonts[0] !in CommonFonts then [fonts[0]] + rest else rest
  }

  function FontIssue(font: string): Issue {
    Issue(FormatFont, Info, "正文", "使用了非标准字体：" + font,
          "建议使用标准字体：" + Join(CommonFonts, ", "), None)
  }

  function FontIssues(fonts: seq<string>): (r: seq<Issue>)
    ensures |r| == |NonStandardFonts(fonts)|
    ensures forall k :: 0 <= k < |r| ==> r[k] == FontIssue(NonStandardFonts(fonts)[k])
    ensures forall k :: 0 <= k < |r| ==> r[k].issueType == FormatFont && r[k].level == Info
  {
    var odd := NonStandardFonts(fonts);
    seq(|odd|, k requires 0 <= k < |odd| => FontIssue(odd[k]))
  }

  function MarginIssues(leftMargin: int): (r: seq<Issue>)
    ensures |r| == (if leftMargin < MinLeftMargin then 1 else 0)
    ensures forall k :: 0 <= k < |r| ==> r[k].issueType == FormatPage && r[k].level == Warning
  {
    if leftMargin < MinLeftMargin then
      [Issue(FormatPage, Warning, "页面设置", "左边距小于2cm", "建议设置左边距为2cm", None)]
    else []
  }

  function HeadingIssues(count: nat): (r: seq<Issue>)
    ensures |r| == (if count < 3 then 1 else 0)
    ensures forall k :: 0 <= k < |r| ==> r[k].issueType == FormatHeading && r[k].level == Warning
  {
    if count < 3 then
      [Issue(FormatHeading, Warning, "文档结构", "标题层级较少，文档结构可能不够清晰", "建议使用多级标题组织文档结构", None)]
    else []
  }


  /** The left margin the format check compares; `None` when reading it raises. */
  function LeftMargin(doc: Document): Option<int> {
    var ps := GetPageSetup(doc);
    if ps.None? then None else ps.value.leftMargin
  }

  /**
   * `_check_format`, `None` standing for the exception it raises when the
   * page setup cannot be read or the left margin is unset (`None < int`).
   */
  function CheckFormat(doc: Document): (r: Option<seq<Issue>>)
    ensures r.Some? <==> LeftMargin(doc).Some?
    ensures r.Some? <==> |doc.sections| > 0 && doc.sections[0].pageWidth.Some?
                         && doc.sections[0].pageHeight.Some? && doc.sections[0].leftMargin.Some?
    ensures r.Some? ==>
              CountLevel(r.value, Warning) == Ind(LeftMargin(doc).value < MinLeftMargin) + Ind(|GetHeadings(doc)| < 3)
    ensures r.Some? ==> CountLevel(r.value, Info) == |NonStandardFonts(GetFonts(doc))|
    ensures r.Some? ==> CountLevel(r.value, Critical) == 0 && CountLevel(r.value, Error) == 0
  {
    var m := LeftMargin(doc);
    if m.None? then None
    else
      FormatCounts(m.value, GetFonts(doc), |GetHeadings(doc)|);
      Some(MarginIssues(m.value) + FontIssues(GetFonts(doc)) + HeadingIssues(|GetHeadings(doc)|))
  }

  /** The format issues count a WARNING per failed page or heading rule and an INFO per non-standard font. */
  lemma FormatCounts(margin: int, fonts: seq<string>, headings: nat)
    ensures var r := MarginIssues(margin) + FontIssues(fonts) + HeadingIssues(headings);
            CountLevel(r, Warning) == Ind(margin < MinLeftMargin) + Ind(headings < 3)
            && CountLevel(r, Info) == |NonStandardFonts(fonts)|
            && CountLevel(r, Critical) == 0 && CountLevel(r, Error) == 0
  {
    var a, b, c := MarginIssues(margin), FontIssues(fonts), HeadingIssues(headings);
    CountUniform(a, Warning);
    CountUniform(b, Info);
    CountUniform(c, Warning);
    CountThreeAll(a, b, c);
  }

  /** Each non-standard font of the document is reported by exactly one INFO issue. */
  lemma FontsReportedOnce(doc: Document)
    ensures forall f :: f in NonStandardFonts(GetFonts(doc)) <==> f in FontNames(doc.paragraphs) && f !in CommonFonts
    ensures forall i, j :: 0 <= i < j < |FontIssues(GetFonts(doc))| ==>
              FontIssues(GetFonts(doc))[i].description != FontIssues(GetFonts(doc))[j].description
  {
    GetFontsFirstOccurrence(doc);
    var odd := NonStandardFonts(GetFonts(doc));
    var r := FontIssues(GetFonts(doc));
    forall i, j | 0 <= i < j < |r| ensures r[i].description != r[j].description {
      var p := "使用了非标准字体：";
      assert r[i].description == p + odd[i] && r[j].description == p + odd[j];
      assert (p + odd[i])[|p|..] == odd[i] && (p + odd[j])[|p|..] == odd[j];
    }
  }
}
