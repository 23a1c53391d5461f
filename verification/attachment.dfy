/**
 * The attachment checks both chat handlers run on the `image` field of a
 * multipart body before anything is uploaded or written
 * (`createChat` and `addMessage` repeat the same four checks).
 */
module Attachment {
  import opened Wrappers

  /** A browser `File`: its name, its size in bytes and its MIME type (`type`). */
  datatype FileInfo = FileInfo(name: string, size: nat, mimeType: string)

  /** What `body["image"]` can hold: nothing, a text field, several files, or one file. */
  datatype FormValue = Missing | Text(value: string) | FileList(files: seq<FileInfo>) | SingleFile(file: FileInfo)

  datatype AttachmentError = MultipleFilesNotAllowed | InvalidFormat | TooLarge | UnsupportedType

  /** 5 MiB. */
  const MAX_IMAGE_BYTES: nat := 5 * 1024 * 1024

  const ALLOWED_IMAGE_TYPES: seq<string> := ["image/jpeg", "image/jpg", "image/png"]

  /** HTTP 400, the status of every rejection. */
  const BAD_REQUEST: int := 400

  /** `!image`: the field is absent or the empty string, so there is no attachment. */
  predicate IsFalsy(v: FormValue) {
    v.Missing? || v == Text("")
  }

  /** The message each rejection carries (the size message names 10MB although the limit is 5 MiB). */
  function ErrorMessage(e: AttachmentError): string {
    match e
    case MultipleFilesNotAllowed => "No file provided or multiple files not allowed"
    case InvalidFormat => "Invalid file format"
    case TooLarge => "File size too large. Maximum allowed size is 10MB"
    case UnsupportedType => "Invalid file type. Only image files are allowed (JPEG, PNG, GIF, WebP, BMP)"
  }

  /**
   * The checks, in source order: an array, then a non-file value, then a
   * size above 5 MiB, then a MIME type outside the allow-list. `Success(None)`
   * means there is no attachment; `Success(Some(f))` is the accepted file.
   */
  function CheckAttachment(v: FormValue): (r: Result<Option<FileInfo>, AttachmentError>)
    ensures r == Success(None) <==> IsFalsy(v)
    ensures (r.Success? && r.value.Some?)
        <==> v.SingleFile? && v.file.size <= MAX_IMAGE_BYTES && v.file.mimeType in ALLOWED_IMAGE_TYPES
    ensures r.Success? && r.value.Some? ==> r.value.value == v.file
    ensures r == Failure(MultipleFilesNotAllowed) <==> v.FileList?
    ensures r == Failure(InvalidFormat) <==> v.Text? && v.value != ""
    ensures r == Failure(TooLarge) <==> v.SingleFile? && v.file.size > MAX_IMAGE_BYTES
    ensures r == Failure(UnsupportedType)
        <==> v.SingleFile? && v.file.size <= MAX_IMAGE_BYTES && v.file.mimeType !in ALLOWED_IMAGE_TYPES
  {
    if IsFalsy(v) then Success(None)
    else
      match v
      case FileList(_) => Failure(MultipleFilesNotAllowed)
      case Text(_) => Failure(InvalidFormat)
      case SingleFile(f) =>
        if f.size > MAX_IMAGE_BYTES then Failure(TooLarge)
        else if f.mimeType !in ALLOWED_IMAGE_TYPES then Failure(UnsupportedType)
        else Success(Some(f))
  }
}
