/**
 * Upload validation: the pathlib suffix of a file name, the extension
 * allow-list, the size limit and the shape of generated storage names.
 */
module FileHandler {
  import opened Common
  import opened Text
  import opened PosixPath

  const AllowedExtensions: set<string> := {".docx", ".doc", ".pdf"}

  /** The default of MAX_UPLOAD_SIZE: 50 MiB. */
  const MaxUploadSize: nat := 52428800

  /** pathlib's `suffix` of a name: from the last dot, when that dot is neither the first nor the last character. */
  function Suffix(name: string): (ext: string)
    ensures ext != "" ==> IsSuffix(ext, name) && |ext| >= 2 && ext[0] == '.' && !ContainsChar(ext[1..], '.')
    ensures ext == "" <==> (var i := LastIndexOf(name, '.'); i <= 0 || i == |name| - 1)
  {
    var i := LastIndexOf(name, '.');
    if 0 < i < |name| - 1 then name[i..] else ""
  }

  /** `get_file_extension`: the lower-cased suffix of the last path component. */
  function GetFileExtension(filename: string): string {
    Lower(Suffix(BaseName(filename)))
  }

  /** Joining two slash-free texts with a dot leaves no slash. */
  lemma JoinedNameHasNoSlash(stem: string, ext: string)
    requires !ContainsChar(stem, '/') && !ContainsChar(ext, '/')
    ensures !ContainsChar(stem + "." + ext, '/')
  {
    var name := stem + "." + ext;
    forall i | 0 <= i < |name| ensures name[i] != '/' {
      if i < |stem| { assert name[i] == stem[i]; }
      else if i > |stem| { assert name[i] == ext[i - |stem| - 1]; }
    }
  }

  /** A name `stem.ext` with a non-empty stem and a dot-free extension has extension `.ext`, lower-cased. */
  lemma ExtensionOfStemAndExt(stem: string, ext: string)
    requires |stem| > 0 && |ext| > 0
    requires !ContainsChar(stem, '/') && !ContainsChar(ext, '/') && !ContainsChar(ext, '.')
    ensures GetFileExtension(stem + "." + ext) == Lower("." + ext)
  {
    var name := stem + "." + ext;
    JoinedNameHasNoSlash(stem, ext);
    PartsOfSegment(name);
    assert BaseName(name) == name;
    LastDotOfJoin(stem, ext);
    assert name[|stem|..] == "." + ext;
  }

  /** In `stem.ext` with a dot-free `ext`, the last dot is the joining one. */
  lemma LastDotOfJoin(stem: string, ext: string)
    requires !ContainsChar(ext, '.')
    ensures LastIndexOf(stem + "." + ext, '.') == |stem|
  {
    var name := stem + "." + ext;
    assert name[|stem| + 1..] == ext;
    assert name[|stem|] == '.';
    LastIndexOfAt(name, '.', |stem|);
  }

  /** A name without a dot has no extension, and neither has one whose only dot leads it. */
  lemma NoExtensionCases(name: string)
    requires !ContainsChar(name, '/')
    requires !ContainsChar(name, '.') || (|name| > 0 && name[0] == '.' && !ContainsChar(name[1..], '.'))
    ensures GetFileExtension(name) == ""
  {
    PartsOfSegment(name);
    if !Kept(name) {
      return;
    }
    assert BaseName(name) == name;
    if ContainsChar(name, '.') {
      forall i | 0 < i < |name| ensures name[i] != '.' {
        assert name[i] == name[1..][i - 1];
      }
    }
  }

  /** A trailing `/.` or `/`, or an inner `/./`, leaves the extension as it was. */
  lemma ExtensionIgnoresDotComponents(p: string, q: string)
    ensures GetFileExtension(p + "/.") == GetFileExtension(p)
    ensures GetFileExtension(p + "/") == GetFileExtension(p)
    ensures GetFileExtension(p + "/./" + q) == GetFileExtension(p + "/" + q)
  {
    BaseNameIgnoresDotComponents(p, q);
  }

  /**
   * The refusal lists the allowed extensions joined by ", ", in the set's
   * iteration order, which Python leaves unspecified; one order is fixed here.
   */
  const UnsupportedFormatDetail: string := "不支持的文件格式，仅支持: " + Join([".docx", ".doc", ".pdf"], ", ")

  /** `validate_file`: an empty or missing name is rejected first, then the extension must be allowed. */
  function ValidateFile(filename: Option<string>): (r: Result<()>)
    ensures !PyTruthy(filename) ==> r == Err(BadRequest("文件名不能为空"))
    ensures PyTruthy(filename) ==> (r.Ok? <==> GetFileExtension(filename.value) in AllowedExtensions)
    ensures r.Err? ==> r.error.BadRequest?
  {
    if !PyTruthy(filename) then Err(BadRequest("文件名不能为空"))
    else if GetFileExtension(filename.value) !in AllowedExtensions then
      Err(BadRequest(UnsupportedFormatDetail))
    else Ok(())
  }

  /**
   * For a plain `stem.ext` name the verdict depends only on the lower-cased
   * `.ext`, so `thesis.DOCX` passes exactly as `thesis.docx` does.
   */
  lemma ValidateStemAndExt(stem: string, ext: string)
    requires |stem| > 0 && |ext| > 0
    requires !ContainsChar(stem, '/') && !ContainsChar(ext, '/') && !ContainsChar(ext, '.')
    ensures ValidateFile(Some(stem + "." + ext)).Ok? <==> Lower("." + ext) in AllowedExtensions
  {
    ExtensionOfStemAndExt(stem, ext);
  }

  /** Two non-empty names with the same extension get the same verdict. */
  lemma ValidateByExtension(a: string, b: string)
    requires a != "" && b != "" && GetFileExtension(a) == GetFileExtension(b)
    ensures ValidateFile(Some(a)) == ValidateFile(Some(b))
  {
  }

  /** A non-empty name keeps its verdict when `/.` or `/` is appended, or when an inner `/` becomes `/./`. */
  lemma ValidateIgnoresDotComponents(p: string, q: string)
    requires p != ""
    ensures ValidateFile(Some(p + "/.")) == ValidateFile(Some(p))
    ensures ValidateFile(Some(p + "/")) == ValidateFile(Some(p))
    ensures ValidateFile(Some(p + "/./" + q)) == ValidateFile(Some(p + "/" + q))
  {
    ExtensionIgnoresDotComponents(p, q);
    ValidateByExtension(p + "/.", p);
    ValidateByExtension(p + "/", p);
    ValidateByExtension(p + "/./" + q, p + "/" + q);
  }

  /**
   * So `x.docx/.` is judged by `.docx` exactly as `x.docx` is: pathlib drops
   * the trailing `.` component. `x.docx/./` and `a/./x.docx/.` follow by
   * applying the lemma above once or twice more.
   */
  lemma TrailingDotJudgedByName(stem: string, ext: string)
    requires |stem| > 0 && |ext| > 0
    requires !ContainsChar(stem, '/') && !ContainsChar(ext, '/') && !ContainsChar(ext, '.')
    ensures ValidateFile(Some(stem + "." + ext + "/.")).Ok? <==> Lower("." + ext) in AllowedExtensions
  {
    ValidateStemAndExt(stem, ext);
    ValidateIgnoresDotComponents(stem + "." + ext, "");
  }

  /** `generate_unique_filename`: `timestamp_` + the first 8 hex digits + the original's extension. */
  function GenerateUniqueFilename(original: string, timestamp: string, digest: string): (r: string)
    ensures IsPrefix(timestamp + "_", r)
    ensures IsSuffix(GetFileExtension(original), r)
  {
    var ext := GetFileExtension(original);
    var r := timestamp + "_" + PyPrefix(digest, 8) + ext;
    assert r[|r| - |ext|..] == ext;
    assert r[..|timestamp + "_"|] == timestamp + "_";
    r
  }

  /** A non-empty extension is a dot followed by a lower-case tail free of dots and slashes. */
  lemma ExtensionShape(original: string)
    requires GetFileExtension(original) != ""
    ensures var ext := GetFileExtension(original);
            |ext| >= 2 && ext[0] == '.' && !ContainsChar(ext[1..], '/') && !ContainsChar(ext[1..], '.')
            && Lower(ext) == ext
  {
    SuffixShape(BaseName(original));
  }

  /** The lower-cased suffix of a slash-free name has the shape above. */
  lemma SuffixShape(b: string)
    requires !ContainsChar(b, '/') && Suffix(b) != ""
    ensures var ext := Lower(Suffix(b));
            |ext| >= 2 && ext[0] == '.' && !ContainsChar(ext[1..], '/') && !ContainsChar(ext[1..], '.')
            && Lower(ext) == ext
  {
    var sfx := Suffix(b);
    var ext := Lower(sfx);
    var tail := ext[1..];
    assert !ContainsChar(sfx, '/') by {
      forall i | 0 <= i < |sfx| ensures sfx[i] != '/' {
        assert sfx[i] == b[|b| - |sfx| + i];
      }
    }
    forall i | 0 <= i < |tail| ensures tail[i] != '/' && tail[i] != '.' {
      assert tail[i] == LowerChar(sfx[1..][i]);
    }
    assert Lower(ext) == ext;
  }

  /** The `timestamp_digest` stem of a generated name has neither a dot nor a slash when its parts have none. */
  lemma StampIsPlain(timestamp: string, digest: string)
    requires !ContainsChar(timestamp, '.') && !ContainsChar(timestamp, '/')
    requires !ContainsChar(digest, '.') && !ContainsChar(digest, '/')
    ensures var stem := timestamp + "_" + PyPrefix(digest, 8);
            !ContainsChar(stem, '.') && !ContainsChar(stem, '/')
  {
    var stem := timestamp + "_" + PyPrefix(digest, 8);
    forall i | 0 <= i < |stem| ensures stem[i] != '.' && stem[i] != '/' {
      if i < |timestamp| { assert stem[i] == timestamp[i]; }
      else if i > |timestamp| { assert stem[i] == digest[i - |timestamp| - 1]; }
    }
  }

  /**
   * A generated name keeps the extension of the original, as long as the
   * timestamp and digest carry no dot or slash (true of `%Y%m%d_%H%M%S` and
   * of hex digits).
   */
  lemma GeneratedNameKeepsExtension(original: string, timestamp: string, digest: string)
    requires !ContainsChar(timestamp, '.') && !ContainsChar(timestamp, '/')
    requires !ContainsChar(digest, '.') && !ContainsChar(digest, '/')
    ensures GetFileExtension(GenerateUniqueFilename(original, timestamp, digest)) == GetFileExtension(original)
  {
    var ext := GetFileExtension(original);
    var stem := timestamp + "_" + PyPrefix(digest, 8);
    StampIsPlain(timestamp, digest);
    if ext == "" {
      assert GenerateUniqueFilename(original, timestamp, digest) == stem;
      NoExtensionCases(stem);
    } else {
      ExtensionShape(original);
      var tail := ext[1..];
      assert ext == "." + tail;
      assert GenerateUniqueFilename(original, timestamp, digest) == stem + ext;
      assert stem + ext == stem + "." + tail;
      ExtensionOfStemAndExt(stem, tail);
    }
  }

  /** The message the size check raises, before the outer handler wraps it. */
  const SizeLimitDetail: string := "文件大小超过限制 (50.0MB)"

  /**
   * `save_upload_file` without the disk: validation first, then the size
   * check, whose error the surrounding `except` re-raises as a save failure.
   * The re-raise formats the caught exception with `str`, which for an HTTP
   * exception is "<status>: <detail>", so the status code lands in the message.
   * On success the stored name and the size come back.
   */
  function SaveUploadFile(filename: Option<string>, size: nat, customName: Option<string>,
                          timestamp: string, digest: string): (r: Result<(string, nat)>)
    ensures r.Ok? <==> ValidateFile(filename).Ok? && size <= MaxUploadSize
    ensures ValidateFile(filename).Err? ==> r == Err(ValidateFile(filename).error)
    ensures ValidateFile(filename).Ok? && size > MaxUploadSize ==>
              r == Err(BadRequest("文件保存失败: 400: " + SizeLimitDetail))
    ensures r.Ok? ==> r.value.1 == size
    ensures r.Ok? && !PyTruthy(customName) ==> IsSuffix(GetFileExtension(filename.value), r.value.0)
  {
    var _ :- ValidateFile(filename);
    if size > MaxUploadSize then Err(BadRequest("文件保存失败: 400: " + SizeLimitDetail))
    else
      var name := if PyTruthy(customName) then customName.value
                  else GenerateUniqueFilename(filename.value, timestamp, digest);
      Ok((name, size))
  }

  /** A file of exactly the limit is stored; one byte more is refused. */
  lemma SizeLimitBoundary(filename: string, custom: Option<string>, ts: string, digest: string)
    requires ValidateFile(Some(filename)).Ok?
    ensures SaveUploadFile(Some(filename), MaxUploadSize, custom, ts, digest).Ok?
    ensures SaveUploadFile(Some(filename), MaxUploadSize + 1, custom, ts, digest).Err?
  {
  }
}
