/**
 * The acceptance rules of web/src/components/FileUpload.tsx: which file, if
 * any, a drop or a picker selection hands to `onFileUpload`.
 */
module FileUpload {
  import opened Wrappers

  /** A browser `File`: its name and its MIME type (`file.type`). */
  datatype File = File(name: string, mimeType: string)

  /** The component's props other than the callback. */
  datatype Props = Props(isProcessing: bool, uploadedFile: Option<File>)

  const PdfType: string := "application/pdf"

  /**
   * `handleDrop`: the files passed to `onFileUpload`, in call order. Only
   * the first dropped file is looked at, and it is passed on when its type is
   * exactly `application/pdf`; the props are not consulted.
   */
  function HandleDrop(props: Props, files: seq<File>): (calls: seq<File>)
    ensures |calls| <= 1
    ensures |calls| == 1 <==> files != [] && files[0].mimeType == PdfType
    ensures |calls| == 1 ==> calls[0] == files[0]
  {
    if |files| > 0 && files[0].mimeType == PdfType then [files[0]] else []
  }

  /**
   * `handleFileSelect`: `e.target.files` may be null. The first selected file
   * is passed on whatever its type.
   */
  function HandleFileSelect(files: Option<seq<File>>): (calls: seq<File>)
    ensures |calls| <= 1
    ensures |calls| == 1 <==> files.Some? && files.value != []
    ensures |calls| == 1 ==> calls[0] == files.value[0]
  {
    if files.Some? && |files.value| > 0 then [files.value[0]] else []
  }

  /** `disabled={isProcessing}` on the file input. */
  predicate PickerDisabled(props: Props) {
    props.isProcessing
  }

  /** A drop is decided by its first file alone: files after it are never examined. */
  lemma DropLooksAtFirstOnly(props: Props, files: seq<File>, others: seq<File>)
    requires files != [] && others != [] && files[0] == others[0]
    ensures HandleDrop(props, files) == HandleDrop(props, others)
  {
  }

  /** A non-PDF first file blocks the drop even when a later file is a PDF. */
  lemma LaterPdfIgnored(props: Props, first: File, rest: seq<File>, k: nat)
    requires first.mimeType != PdfType && k < |rest| && rest[k].mimeType == PdfType
    ensures HandleDrop(props, [first] + rest) == []
  {
  }

  /**
   * While a conversion runs the picker is disabled, but a PDF drop is still
   * handed on: `handleDrop` does not consult `isProcessing`.
   */
  lemma DropIgnoresProcessing(props: Props, files: seq<File>)
    ensures HandleDrop(props, files) == HandleDrop(props.(isProcessing := !props.isProcessing), files)
    ensures PickerDisabled(props) && files != [] && files[0].mimeType == PdfType ==>
      HandleDrop(props, files) == [files[0]]
  {
  }

  /** The picker forwards exactly what a drop would, except that it does not check the type. */
  lemma SelectSkipsTypeCheck(props: Props, files: seq<File>)
    requires files != []
    ensures HandleFileSelect(Some(files)) == [files[0]]
    ensures HandleDrop(props, files) == (if files[0].mimeType == PdfType then HandleFileSelect(Some(files)) else [])
  {
  }
}
