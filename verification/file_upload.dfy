/**
 * The generic file picker: a selection or a drop hands over its first
 * file, which is passed on unless it is larger than the size bound. The
 * alert's wording (a rounded megabyte figure) is left to the browser.
 */
module FileUploadWidget {
  import opened Common

  /** A browser `File`: its name, its size in bytes and its MIME type. */
  datatype ClientFile = ClientFile(name: string, size: nat, mime: string)

  /** `maxSize`'s default: 10 MiB. */
  const DefaultMaxSize: nat := 10 * 1024 * 1024

  /** What the widget does with an event: nothing, an oversize alert, or `onChange(files)`. */
  datatype Reaction = Ignored | SizeAlert | Changed(files: seq<ClientFile>)

  /** The bound in force: the given `maxSize`, else the default. */
  function Bound(maxSize: Option<nat>): nat {
    maxSize.GetOr(DefaultMaxSize)
  }

  /** `handleDrop` / `handleChange` then `handleFiles`: only the first file counts. */
  function HandleFiles(files: seq<ClientFile>, maxSize: Option<nat>): (r: Reaction)
    ensures |files| == 0 <==> r == Ignored
    ensures r == SizeAlert <==> |files| > 0 && files[0].size > Bound(maxSize)
    ensures r.Changed? ==> r.files == [files[0]] && files[0].size <= Bound(maxSize)
  {
    if |files| == 0 then Ignored
    else if files[0].size > Bound(maxSize) then SizeAlert
    else Changed([files[0]])
  }

  /** `handleRemove`: `onChange([])`. */
  function HandleRemove(): (r: Reaction)
    ensures r.Changed? && |r.files| == 0
  {
    Changed([])
  }

  /**
   * The widget's size rule: files after the first never matter; a file exactly
   * at the bound is accepted and one byte more is refused; without a bound
   * given, the bound is 10 MiB.
   */
  lemma WidgetLaws(f: ClientFile, rest: seq<ClientFile>, maxSize: Option<nat>)
    ensures HandleFiles([f] + rest, maxSize) == HandleFiles([f], maxSize)
    ensures f.size == Bound(maxSize) ==> HandleFiles([f], maxSize) == Changed([f])
    ensures f.size == Bound(maxSize) + 1 ==> HandleFiles([f], maxSize) == SizeAlert
    ensures HandleFiles([f], None).Changed? <==> f.size <= 10485760
  {
  }
}
