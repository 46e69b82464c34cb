/**
 * The previous-papers page: its own picker rule (by MIME type, and a size
 * strictly under 50 MiB), the upload it sends, and the years its two
 * selectors offer. The current year is a parameter.
 */
module PreviousPaperPage {
  import opened Common
  import opened Js
  import opened FileUploadWidget
  import Text
  import ClientAuth
  import ClientConstants
  import PaperUploadPage

  /** The MIME type of an Office Open XML word-processing document. */
  const DocxMime: string := "application/vnd.openxmlformats-officedocument.wordprocessingml.document"

  const TypeMessage: string := "只能上传 .docx 文件"
  const SizeMessage: string := "文件大小不能超过 50MB"
  const NoFileMessage: string := "请上传论文文件"

  /** What the picker returns: `false` keeps the file out of the automatic upload, `LIST_IGNORE` also keeps it out of the list. */
  datatype Verdict = HoldBack | ListIgnore

  datatype Picked = Picked(list: seq<ClientFile>, verdict: Verdict, notice: Option<string>)

  /** `beforeUpload(file)`: the type first, then `size / 1024 / 1024 < 50`. */
  function BeforeUpload(list: seq<ClientFile>, file: ClientFile): (r: Picked)
    ensures r.verdict == HoldBack <==> file.mime == DocxMime && file.size < 52428800
    ensures r.verdict == HoldBack ==> r.list == [file] && r.notice.None?
    ensures r.verdict == ListIgnore ==> r.list == list && r.notice.Some?
    ensures file.mime != DocxMime ==> r.notice == Some(TypeMessage)
  {
    if file.mime != DocxMime then Picked(list, ListIgnore, Some(TypeMessage))
    else if !(file.size as real / 1024.0 / 1024.0 < 50.0) then Picked(list, ListIgnore, Some(SizeMessage))
    else Picked([file], HoldBack, None)
  }

  /** The upload: the file first, then every validated form value, whatever its truthiness. */
  function UploadParts(list: seq<ClientFile>, values: seq<(string, JsVal)>): (r: Option<seq<PaperUploadPage.Part>>)
    ensures r.None? <==> |list| == 0
    ensures r.Some? ==> |r.value| == |values| + 1 && r.value[0] == PaperUploadPage.FilePart(list[0])
    ensures r.Some? ==> forall i :: 0 <= i < |values| ==> r.value[i + 1] == PaperUploadPage.FieldPart(values[i].0, values[i].1)
  {
    if |list| == 0 then None
    else Some([PaperUploadPage.FilePart(list[0])] + seq(|values|, i requires 0 <= i < |values| => PaperUploadPage.FieldPart(values[i].0, values[i].1)))
  }

  /** A file exactly at 50 MiB, of the right type and name, passes the paper-upload page and is refused here. */
  lemma LimitDiffersFromPaperUpload(stem: string)
    ensures var f := ClientFile(stem + ".docx", 52428800, DocxMime);
            PaperUploadPage.BeforeUpload([], f).rejection.None? && BeforeUpload([], f).verdict == ListIgnore
  {
    assert stem + ".docx" == stem + "." + "docx";
    ClientAuth.ClientExtensionOfStemAndExt(stem, "docx");
    assert "." + Text.Lower("docx") == ".docx";
    assert ClientAuth.ClientExtension(stem + ".docx") in ClientConstants.AllowedFileTypes;
  }

  /** `n` years counting down from `current`. */
  function Years(current: int, n: nat): (ys: seq<int>)
    ensures |ys| == n
    ensures forall i :: 0 <= i < n ==> ys[i] == current - i
  {
    seq(n, i requires 0 <= i < n => current - i)
  }

  /** The filter offers ten years, the form twenty: both start at the current year, descend strictly, and the filter's are the form's first ten. */
  lemma YearSelectors(current: int)
    ensures Years(current, 10) == Years(current, 20)[..10]
    ensures Years(current, 20)[0] == current && Years(current, 20)[19] == current - 19
    ensures forall i, j :: 0 <= i < j < 20 ==> Years(current, 20)[i] > Years(current, 20)[j]
  {
  }
}
