/**
 * The status and progress writes of a background check run: which stages
 * run for each check type, when a run fails, and the order of the writes
 * it commits.
 */
module CheckProgress {
  import opened Common
  import opened CheckModel
  import opened Docx
  import opened FormatStage

  predicate RunsTitle(t: CheckType) { t == TitleCheck || t == FullCheck }
  predicate RunsFormat(t: CheckType) { t == FormatCheck || t == FullCheck }
  predicate RunsContent(t: CheckType) { t == ContentCheck || t == FullCheck }

  /** One committed write of the result's status and progress. */
  datatype Write = Write(status: CheckStatus, progress: real)

  /** A run fails iff the document cannot be parsed or a format stage it runs raises. */
  predicate RunFails(t: CheckType, doc: Option<Document>) {
    doc.None? || (RunsFormat(t) && LeftMargin(doc.value).None?)
  }

  /**
   * The progress values written, in order, by the stages that run:
   * PROCESSING writes strictly between 10 and 100, increasing, one per
   * stage that ran.
   */
  function StageWrites(t: CheckType, formatOk: bool): (sw: seq<Write>)
    ensures forall k :: 0 <= k < |sw| ==> sw[k].status == Processing && 10.0 < sw[k].progress < 100.0
    ensures Increasing(sw)
    ensures Write(Processing, 40.0) in sw <==> RunsTitle(t)
    ensures Write(Processing, 70.0) in sw <==> RunsFormat(t) && formatOk
    ensures Write(Processing, 90.0) in sw <==> RunsContent(t) && formatOk
  {
    var sw := (if RunsTitle(t) then [Write(Processing, 40.0)] else [])
              + (if RunsFormat(t) && formatOk then [Write(Processing, 70.0)] else [])
              + (if RunsContent(t) && formatOk then [Write(Processing, 90.0)] else []);
    StageWritesCases(t, formatOk, sw);
    sw
  }

  /** `StageWrites` case by case over the check type. */
  lemma StageWritesCases(t: CheckType, formatOk: bool, sw: seq<Write>)
    requires sw == (if RunsTitle(t) then [Write(Processing, 40.0)] else [])
                   + (if RunsFormat(t) && formatOk then [Write(Processing, 70.0)] else [])
                   + (if RunsContent(t) && formatOk then [Write(Processing, 90.0)] else [])
    ensures forall k :: 0 <= k < |sw| ==> sw[k].status == Processing && 10.0 < sw[k].progress < 100.0
    ensures Increasing(sw)
    ensures Write(Processing, 40.0) in sw <==> RunsTitle(t)
    ensures Write(Processing, 70.0) in sw <==> RunsFormat(t) && formatOk
    ensures Write(Processing, 90.0) in sw <==> RunsContent(t) && formatOk
  {
    if !formatOk && (t == FormatCheck || t == ContentCheck) {
      assert sw == [];
    } else if !formatOk || t == TitleCheck {
      assert sw == [Write(Processing, 40.0)];
      WriteShapes(sw, 40.0);
    } else if t == FormatCheck {
      assert sw == [Write(Processing, 70.0)];
      WriteShapes(sw, 70.0);
    } else if t == ContentCheck {
      assert sw == [Write(Processing, 90.0)];
      WriteShapes(sw, 90.0);
    } else {
      assert sw == [Write(Processing, 40.0), Write(Processing, 70.0), Write(Processing, 90.0)];
      WriteShapes(sw, 40.0);
    }
  }

  /** Writes whose progress strictly increases. */
  predicate Increasing(ws: seq<Write>) {
    forall i, j :: 0 <= i < j < |ws| ==> ws[i].progress < ws[j].progress
  }

  /**
   * The writes a run commits: PROCESSING/10, the stage writes when the
   * document parsed, then COMPLETED/100 or FAILED/0. Every write between
   * the first and the last is PROCESSING, progress strictly increases up
   * to a completion and up to the final write of a failure, and 40, 70
   * and 90 are written iff their stage ran.
   */
  function RunWrites(t: CheckType, doc: Option<Document>): (ws: seq<Write>)
    ensures |ws| >= 2 && ws[0] == Write(Processing, 10.0)
    ensures forall k :: 0 < k < |ws| - 1 ==> ws[k].status == Processing
    ensures ws[|ws| - 1] == if RunFails(t, doc) then Write(Failed, 0.0) else Write(Completed, 100.0)
    ensures !RunFails(t, doc) ==> Increasing(ws)
    ensures RunFails(t, doc) ==> Increasing(ws[..|ws| - 1])
    ensures Write(Processing, 40.0) in ws <==> doc.Some? && RunsTitle(t)
    ensures Write(Processing, 70.0) in ws <==> doc.Some? && RunsFormat(t) && !RunFails(t, doc)
    ensures Write(Processing, 90.0) in ws <==> doc.Some? && RunsContent(t) && !RunFails(t, doc)
  {
    var ok := !RunFails(t, doc);
    var sw := if doc.None? then [] else StageWrites(t, ok);
    var last := if ok then Write(Completed, 100.0) else Write(Failed, 0.0);
    WritesFramed(sw, last);
    [Write(Processing, 10.0)] + sw + [last]
  }

  /** The two shapes the stage writes take: a single write, or all three of a full check. */
  lemma WriteShapes(sw: seq<Write>, p: real)
    ensures sw == [Write(Processing, p)] && 10.0 < p < 100.0 ==>
              (forall q :: Write(Processing, q) in sw <==> q == p)
              && (forall k :: 0 <= k < |sw| ==> sw[k].status == Processing && 10.0 < sw[k].progress < 100.0)
              && Increasing(sw)
    ensures sw == [Write(Processing, 40.0), Write(Processing, 70.0), Write(Processing, 90.0)] ==>
              (forall q :: Write(Processing, q) in sw <==> q == 40.0 || q == 70.0 || q == 90.0)
              && (forall k :: 0 <= k < |sw| ==> sw[k].status == Processing && 10.0 < sw[k].progress < 100.0)
              && Increasing(sw)
  {
  }

  /** Framing the stage writes by the first write and a final non-PROCESSING write. */
  lemma WritesFramed(sw: seq<Write>, last: Write)
    requires forall k :: 0 <= k < |sw| ==> sw[k].status == Processing && 10.0 < sw[k].progress < 100.0
    requires Increasing(sw)
    requires last.status != Processing
    ensures Increasing([Write(Processing, 10.0)] + sw)
    ensures last.progress == 100.0 ==> Increasing([Write(Processing, 10.0)] + sw + [last])
    ensures forall p :: p in {40.0, 70.0, 90.0} ==>
              (Write(Processing, p) in [Write(Processing, 10.0)] + sw + [last] <==> Write(Processing, p) in sw)
    ensures forall k :: 0 < k < |sw| + 1 ==> ([Write(Processing, 10.0)] + sw + [last])[k].status == Processing
    ensures ([Write(Processing, 10.0)] + sw + [last])[..|sw| + 1] == [Write(Processing, 10.0)] + sw
  {
    var ws := [Write(Processing, 10.0)] + sw;
    assert forall k :: 0 < k < |ws| ==> ws[k] == sw[k - 1];
    assert (ws + [last])[..|ws|] == ws;
  }
}
