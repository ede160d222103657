/** `hooks/useImageProcessor.ts`: `resizeImage` on the records of a `MediaStore`. The canvas
    resize and the compression are one foreign step whose outcome is a parameter. */
module ImageProcessor {
  import opened Wrappers
  import Progress
  import Toast
  import opened Media
  import opened MediaFiles

  /** The toast `resizeImage` raises. */
  function ResizeNotice(outcome: Option<Blob>): (r: Toast.Notice)
    ensures r.kind == Toast.Success <==> outcome.Some?
    ensures r.kind != Toast.Info
  {
    if outcome.Some? then Toast.Notice("Image resized successfully", Toast.Success)
    else Toast.Notice(ResizeFailedMessage, Toast.Error)
  }

  /** `Math.max(width, height)`, the bound handed to the compressor. */
  function MaxWidthOrHeight(width: int, height: int): (r: int)
    ensures r >= width && r >= height && (r == width || r == height)
  {
    if width >= height then width else height
  }

  /** `resizeImage(index, width, height)`: mark the record as processing, resize and compress
      (`outcome`), then store the image or the failure. An index with no record makes
      reading its `File` throw inside the `try`, so only the failure toast remains.
      `bound` is the `maxWidthOrHeight` the compressor would be given, when it is reached. */
  method ResizeImage(store: MediaStore, index: int, width: int, height: int, outcome: Option<Blob>)
    returns (bound: Option<int>)
    modifies store
    ensures bound == (if 0 <= index < |old(store.files)| then Some(MaxWidthOrHeight(width, height)) else None)
    ensures 0 <= index < |old(store.files)| ==>
      store.files == Progress.UpdateByIndex(old(store.files), index, f => Resized(f, outcome)) &&
      store.notices == old(store.notices) + [ResizeNotice(outcome)]
    ensures !(0 <= index < |old(store.files)|) ==>
      store.files == old(store.files) && store.notices == old(store.notices) + [ResizeNotice(None)]
    ensures store.expandedCard == old(store.expandedCard) && store.activeTab == old(store.activeTab)
    ensures store.revoked == old(store.revoked)
  {
    store.files := Progress.UpdateByIndex(store.files, index, (f: MediaFile) => f.(processing := true));
    if 0 <= index < |store.files| && outcome.Some? {
      bound := Some(MaxWidthOrHeight(width, height));
      store.files := Progress.UpdateByIndex(store.files, index,
        (f: MediaFile) => f.(processedImage := outcome, processing := false));
      store.notices := store.notices + [Toast.Notice("Image resized successfully", Toast.Success)];
    } else {
      bound := if 0 <= index < |store.files| then Some(MaxWidthOrHeight(width, height)) else None;
      store.files := Progress.UpdateByIndex(store.files, index, (f: MediaFile) => Failed(f, ResizeFailedMessage));
      store.notices := store.notices + [Toast.Notice(ResizeFailedMessage, Toast.Error)];
    }
  }

  /** After a resize the record at `index` is no longer processing, and no other record
      changed. */
  lemma ResizeSettles(files: seq<MediaFile>, index: int, outcome: Option<Blob>)
    requires 0 <= index < |files|
    ensures var r := Progress.UpdateByIndex(files, index, f => Resized(f, outcome));
      !r[index].processing && r[index].file == files[index].file &&
      forall i :: 0 <= i < |files| && i != index ==> r[i] == files[i]
  {
    ResizedOutcome(files[index], outcome);
  }
}
