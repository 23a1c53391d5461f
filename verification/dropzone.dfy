/**
 * The file drop zone: the list of files it holds, the file it passes on,
 * removal by position, the icon it shows, and its default limits. The
 * accept/size checks themselves are done by the drop library, which is not
 * part of this model; the files it accepts arrive as `accepted`.
 */
module Dropzone {
  import opened Wrappers
  import opened Text
  import opened Attachment
  import ChatPage

  /** Default `maxSize`: 5 MiB. */
  const DEFAULT_MAX_SIZE: nat := 5 * 1024 * 1024
  /** Default `multiple`. */
  const DEFAULT_MULTIPLE: bool := false
  /** Default `accept`: the extensions listed for any image type. */
  const DEFAULT_EXTENSIONS: seq<string> := [".jpeg", ".jpg", ".png", ".gif", ".webp"]

  /**
   * A file is within the zone's default size limit exactly when the
   * handlers do not refuse it as too large and the chat page shows no size
   * toast for it.
   */
  lemma DefaultSizeMatchesServer(file: FileInfo)
    ensures file.size <= DEFAULT_MAX_SIZE <==> CheckAttachment(SingleFile(file)) != Failure(TooLarge)
    ensures file.size <= DEFAULT_MAX_SIZE <==> ChatPage.FileRejection(file) != Some(ChatPage.TOO_LARGE_TOAST)
  {
  }

  /**
   * The zone lists GIF and WebP files, but the chat page refuses them with
   * its type toast and the handlers with an unsupported-type error.
   */
  lemma ListedTypesBeyondServer(name: string, size: nat)
    requires size <= DEFAULT_MAX_SIZE
    ensures ".gif" in DEFAULT_EXTENSIONS && ".webp" in DEFAULT_EXTENSIONS
    ensures ChatPage.FileRejection(FileInfo(name, size, "image/gif")) == Some(ChatPage.INVALID_TYPE_TOAST)
    ensures CheckAttachment(SingleFile(FileInfo(name, size, "image/webp"))) == Failure(UnsupportedType)
  {
    assert DEFAULT_EXTENSIONS[3] == ".gif" && DEFAULT_EXTENSIONS[4] == ".webp";
    assert "image/gif" != ALLOWED_IMAGE_TYPES[0] && "image/gif" != ALLOWED_IMAGE_TYPES[2];
    assert "image/gif" != ChatPage.ACCEPTED_TYPES[0] && "image/gif" != ChatPage.ACCEPTED_TYPES[1];
    assert "image/webp" != ALLOWED_IMAGE_TYPES[0] && "image/webp" != ALLOWED_IMAGE_TYPES[2];
  }

  /** What a drop leads to: the files now held and the file passed to `onFileSelect`, if any. */
  datatype Drop = Drop(files: seq<FileInfo>, selected: Option<FileInfo>)

  /**
   * `onDrop`: in multiple mode the accepted files are added after those
   * held, otherwise they replace them; the first accepted file is passed
   * on when there is one and a handler to take it.
   */
  function OnDrop(held: seq<FileInfo>, accepted: seq<FileInfo>, multiple: bool, hasOnFileSelect: bool): (r: Drop)
    ensures r.files == if multiple then held + accepted else accepted
    ensures r.selected.Some? <==> hasOnFileSelect && |accepted| > 0
    ensures r.selected.Some? ==> r.selected.value == accepted[0]
  {
    Drop(if multiple then held + accepted else accepted,
         if hasOnFileSelect && |accepted| > 0 then Some(accepted[0]) else None)
  }

  /**
   * Two drops in multiple mode hold everything dropped, in order; in
   * single mode only the last drop. An empty drop selects nothing, and in
   * single mode it also clears the list.
   */
  lemma DropsAccumulate(held: seq<FileInfo>, first: seq<FileInfo>, second: seq<FileInfo>, hasOnFileSelect: bool)
    ensures OnDrop(OnDrop(held, first, true, hasOnFileSelect).files, second, true, hasOnFileSelect).files
         == held + first + second
    ensures OnDrop(OnDrop(held, first, false, hasOnFileSelect).files, second, false, hasOnFileSelect).files == second
    ensures OnDrop(held, [], false, hasOnFileSelect) == Drop([], None)
  {
  }

  /** `removeFile(index)`: the files at every position but `index`. */
  function RemoveFile(files: seq<FileInfo>, index: int): (r: seq<FileInfo>)
    ensures 0 <= index < |files| ==> r == files[..index] + files[index + 1..]
    ensures !(0 <= index < |files|) ==> r == files
  {
    if |files| == 0 then []
    else
      var rest := RemoveFile(files[1..], index - 1);
      if index == 0 then rest
      else
        assert files == [files[0]] + files[1..];
        [files[0]] + rest
  }

  /** Removing a position shortens the list by one and keeps every file before and after it in order. */
  lemma RemoveFileKeepsOthers(files: seq<FileInfo>, index: int)
    requires 0 <= index < |files|
    ensures |RemoveFile(files, index)| == |files| - 1
    ensures forall i :: 0 <= i < index ==> RemoveFile(files, index)[i] == files[i]
    ensures forall i :: index <= i < |files| - 1 ==> RemoveFile(files, index)[i] == files[i + 1]
  {
  }

  datatype Icon = ImageIcon | FileTextIcon

  /** `getFileIcon`: the image icon exactly for MIME types starting with "image/". */
  function FileIcon(file: FileInfo): (r: Icon)
    ensures r == ImageIcon <==> StartsWith(file.mimeType, "image/")
  {
    if StartsWith(file.mimeType, "image/") then ImageIcon else FileTextIcon
  }

  /** Every type the chat page and the handlers accept gets the image icon. */
  lemma AcceptedTypesShowImageIcon(file: FileInfo)
    requires file.mimeType in ALLOWED_IMAGE_TYPES
    ensures FileIcon(file) == ImageIcon
  {
    assert StartsWith("image/jpeg", "image/") && StartsWith("image/jpg", "image/") && StartsWith("image/png", "image/");
  }
}
