/**
 * The paper-upload page: the picker's check of a chosen file, the list of
 * at most one file it keeps, and the multipart request the form becomes,
 * sent to the graduation or the course endpoint. The request's outcome
 * is given; the one-second delay before leaving the page is left out.
 */
module PaperUploadPage {
  import opened Common
  import opened Text
  import opened Js
  import opened FileHandler
  import opened ClientConstants
  import opened ClientAuth
  import opened FileUploadWidget

  const GraduationType: string := "graduation"
  const GraduationEndpoint: string := "/papers/graduation"
  const CourseEndpoint: string := "/papers/course"
  const NoFileMessage: string := "请上传论文文件"
  const FallbackFailure: string := "上传失败，请检查网络后重试"
  const SuccessNotice: string := "论文上传成功，正在跳转..."
  const PaperListRoute: string := "/papers/list"

  /** The notice for a file of the wrong type, listing the accepted extensions. */
  const TypeMessage: string := "只支持" + Join(AllowedFileTypes, ", ") + "格式的文件"

  /** Why the picker refused a file. */
  datatype Rejection = WrongType(message: string) | TooLarge

  /** The picker's answer: the new file list, the refusal if any, and whether the upload starts on its own. */
  datatype Picked = Picked(list: seq<ClientFile>, rejection: Option<Rejection>, autoUpload: bool)

  /** `beforeUpload(file)`: the extension is checked first, then the size; an accepted file becomes the whole list. */
  function BeforeUpload(list: seq<ClientFile>, file: ClientFile): (r: Picked)
    ensures !r.autoUpload
    ensures r.rejection.None? <==> ClientExtension(file.name) in AllowedFileTypes && file.size <= ClientMaxUploadSize
    ensures r.rejection.None? ==> r.list == [file]
    ensures r.rejection.Some? ==> r.list == list
    ensures ClientExtension(file.name) !in AllowedFileTypes ==> r.rejection == Some(WrongType(TypeMessage))
  {
    if ClientExtension(file.name) !in AllowedFileTypes then Picked(list, Some(WrongType(TypeMessage)), false)
    else if file.size > ClientMaxUploadSize then Picked(list, Some(TooLarge), false)
    else Picked([file], None, false)
  }

  /** `onRemove`: the list is emptied. */
  function OnRemove(list: seq<ClientFile>): (r: seq<ClientFile>)
    ensures |r| == 0
  {
    []
  }

  /** A part of the multipart body. */
  datatype Part = FilePart(file: ClientFile) | FieldPart(key: string, value: JsVal)

  /** The form values that are truthy, in order, as fields. */
  function TruthyParts(values: seq<(string, JsVal)>): (r: seq<Part>)
    ensures forall p :: p in r <==> exists i :: 0 <= i < |values| && values[i].1.Truthy() && p == FieldPart(values[i].0, values[i].1)
    ensures |r| <= |values|
    decreases |values|
  {
    if |values| == 0 then []
    else
      var rest := TruthyParts(values[1..]);
      assert forall i :: 1 <= i < |values| ==> values[i] == values[1..][i - 1];
      if values[0].1.Truthy() then [FieldPart(values[0].0, values[0].1)] + rest else rest
  }

  /** The request: where it goes and the parts it carries. */
  datatype UploadRequest = UploadRequest(endpoint: string, parts: seq<Part>)

  /** The outcome of the upload call; a failure may carry the error's message. */
  datatype Response = Uploaded | UploadFailed(message: Option<string>)

  /** What pressing submit leads to. */
  datatype Attempt = Attempt(request: Option<UploadRequest>, notice: string, navigateTo: Option<string>, uploading: bool)

  /** `handleSubmit(values)` with the page's current paper type and file list. */
  function Submit(list: seq<ClientFile>, values: seq<(string, JsVal)>, paperType: string, response: Response): (r: Attempt)
    ensures r.request.None? <==> |list| == 0
    ensures |list| == 0 ==> r.notice == NoFileMessage && r.navigateTo.None?
    ensures r.request.Some? ==>
              r.request.value.parts == [FilePart(list[0])] + TruthyParts(values)
              && r.request.value.endpoint == (if paperType == GraduationType then GraduationEndpoint else CourseEndpoint)
    ensures r.navigateTo.Some? <==> |list| > 0 && response.Uploaded?
    ensures r.navigateTo.Some? ==> r.navigateTo.value == PaperListRoute
    ensures |list| > 0 && response.UploadFailed? ==> r.notice == PyOr(response.message, Some(FallbackFailure)).value
    ensures !r.uploading
  {
    if |list| == 0 then Attempt(None, NoFileMessage, None, false)
    else
      var req := UploadRequest(if paperType == GraduationType then GraduationEndpoint else CourseEndpoint,
                               [FilePart(list[0])] + TruthyParts(values));
      match response
      case Uploaded => Attempt(Some(req), SuccessNotice, Some(PaperListRoute), false)
      case UploadFailed(m) => Attempt(Some(req), PyOr(m, Some(FallbackFailure)).value, None, false)
  }

  /**
   * What the page sends: after an accepted pick, the request's file part is
   * that file; a false, zero or empty form value is not sent at all. And the
   * client's size bound is the server's: for an allowed type, a file exactly
   * at the limit passes both, one byte more fails both.
   */
  lemma PageLaws(list: seq<ClientFile>, file: ClientFile, values: seq<(string, JsVal)>,
                 key: string, v: JsVal, paperType: string, response: Response)
    ensures BeforeUpload(list, file).rejection.None? ==>
              Submit(BeforeUpload(list, file).list, values, paperType, response).request.value.parts[0] == FilePart(file)
    ensures |list| > 0 && !v.Truthy() ==>
              FieldPart(key, v) !in Submit(list, [(key, v)], paperType, response).request.value.parts
    ensures ClientExtension(file.name) in AllowedFileTypes ==>
              (BeforeUpload([], file).rejection.None? <==> file.size <= MaxUploadSize)
  {
    AgreesWithServer();
  }

  /** A name `stem.ext` the picker accepts is also accepted by the server's file check. */
  lemma PickerAcceptsOnlyServerAccepted(stem: string, ext: string, size: nat, mime: string)
    requires |stem| > 0 && |ext| > 0
    requires !ContainsChar(stem, '/') && !ContainsChar(ext, '/') && !ContainsChar(ext, '.')
    requires BeforeUpload([], ClientFile(stem + "." + ext, size, mime)).rejection.None?
    ensures ValidateFile(Some(stem + "." + ext)).Ok?
  {
    ClientExtensionOfStemAndExt(stem, ext);
    assert "." + Lower(ext) == ".docx";
    assert Lower("." + ext) == "." + Lower(ext);
    ValidateStemAndExt(stem, ext);
  }
}
