/** `App.tsx`: the monolithic predecessor of the media hooks. It keeps the same records but
    has a fixed 200 MB limit, switches the tab once per processed file, and does not
    validate trim ranges. */
module App {
  import opened Wrappers
  import ParseInt
  import Progress
  import Toast
  import opened Media
  import VideoProcessor

  /** `MAX_VIDEO_SIZE = 200 * 1024 * 1024`. */
  const AppLimit := ParseInt.Int(200)

  /** A video is rejected exactly when it is larger than 209715200 bytes. */
  lemma AppLimitBytes(size: nat)
    ensures TooLarge(size, AppLimit) <==> size > 209715200
  {
  }

  /** The rejection message ends in `Maximum 200MB.`. */
  lemma AppTooLargeMessage(size: nat)
    ensures TooLargeMessage(size, AppLimit) == "Video too large (" + MegabytesText(size) + "MB). Maximum 200MB."
  {
    assert ParseInt.Decimal(200) == "200" by {
      assert ParseInt.Decimal(2) == "2";
      assert ParseInt.Decimal(20) == "20";
    }
  }

  /** An upload that switches the tab: an image, or a video within the limit. */
  predicate Switches(u: Upload) {
    IsImage(u.file) || (IsVideo(u.file) && !TooLarge(u.file.size, AppLimit))
  }

  /** The tab after one upload of `handleFileUpload`. */
  function TabAfter(tab: string, u: Upload): (r: string)
    ensures r == tab || r == "images" || r == "videos"
  {
    if IsImage(u.file) then "images"
    else if IsVideo(u.file) && !TooLarge(u.file.size, AppLimit) then "videos"
    else tab
  }

  function TabAfterAll(tab: string, uploads: seq<Upload>): (r: string)
    ensures r == tab || r == "images" || r == "videos"
    decreases |uploads|
  {
    if uploads == [] then tab else TabAfter(TabAfterAll(tab, uploads[..|uploads| - 1]), uploads[|uploads| - 1])
  }

  lemma TabAfterAllSnoc(tab: string, uploads: seq<Upload>, u: Upload)
    ensures TabAfterAll(tab, uploads + [u]) == TabAfter(TabAfterAll(tab, uploads), u)
  {
    assert (uploads + [u])[..|uploads|] == uploads;
  }

  /** The tab of the last image or accepted video of the batch wins. */
  lemma {:induction false} LastSwitchWins(tab: string, uploads: seq<Upload>, k: int)
    requires 0 <= k < |uploads| && Switches(uploads[k])
    requires forall j :: k < j < |uploads| ==> !Switches(uploads[j])
    ensures TabAfterAll(tab, uploads) == if IsImage(uploads[k].file) then "images" else "videos"
    decreases |uploads|
  {
    var n := |uploads| - 1;
    if k < n {
      assert uploads[..n][k] == uploads[k];
      LastSwitchWins(tab, uploads[..n], k);
    }
  }

  /** The two versions disagree on a batch of an image followed by an accepted video: the
      hook picks the tab once, images first, while this version ends on the last switch. */
  lemma ImageThenVideoDiffers(tab: string, image: Upload, video: Upload)
    requires IsImage(image.file) && IsVideo(video.file) && !TooLarge(video.file.size, AppLimit)
    ensures ChosenTab(tab, [image, video], true) == "images"
    ensures TabAfterAll(tab, [image, video]) == "videos"
  {
    var uploads := [image, video];
    assert IsImage(uploads[0].file);
    ImageIsNotVideo(video.file);
    LastSwitchWins(tab, uploads, 1);
  }

  /** A batch with no image and no accepted video keeps the tab. */
  lemma {:induction false} NoSwitchKeepsTab(tab: string, uploads: seq<Upload>)
    requires forall j :: 0 <= j < |uploads| ==> !Switches(uploads[j])
    ensures TabAfterAll(tab, uploads) == tab
    decreases |uploads|
  {
    if uploads != [] {
      var n := |uploads| - 1;
      assert forall j :: 0 <= j < n ==> uploads[..n][j] == uploads[j];
      NoSwitchKeepsTab(tab, uploads[..n]);
    }
  }

  /** The path `trimVideo` takes: after the engine check there is no range check, and a
      missing record makes the body of the `try` throw. */
  function TrimPathOf(files: seq<MediaFile>, index: int, start: real, end: real, engineLoaded: bool): (r: VideoProcessor.TrimPath)
    ensures !r.RangeRejected?
    ensures r.EngineCalled? <==> engineLoaded && 0 <= index < |files|
  {
    if !engineLoaded then VideoProcessor.EngineMissing
    else if !(0 <= index < |files|) then VideoProcessor.NoRecord
    else VideoProcessor.EngineCalled(RequestFor(start, end))
  }

  /** Any range reaches the engine, including one with a negative length. */
  lemma AnyRangeReachesEngine(files: seq<MediaFile>, index: int, start: real, end: real)
    requires 0 <= index < |files|
    ensures TrimPathOf(files, index, start, end, true) == VideoProcessor.EngineCalled(TrimRequest(start, end - start))
    ensures end < start ==> TrimPathOf(files, index, start, end, true).request.length < 0.0
  {
  }

  function TrimResult(files: seq<MediaFile>, index: int, start: real, end: real, engineLoaded: bool, outcome: Option<Blob>)
    : (r: seq<MediaFile>)
    ensures |r| == |files|
    ensures forall i :: 0 <= i < |files| && i != index ==> r[i] == files[i]
  {
    if !engineLoaded then Progress.UpdateByIndex(files, index, f => Failed(f, EngineMissingMessage))
    else Progress.UpdateByIndex(files, index, f => Trimmed(f, start, end, outcome))
  }

  function TrimNotices(path: VideoProcessor.TrimPath, outcome: Option<Blob>): (r: seq<Toast.Notice>)
    ensures |r| == 1
    ensures r[0].kind == Toast.Success <==> path.EngineCalled? && outcome.Some?
  {
    match path
    case EngineMissing => [Toast.Notice(EngineMissingMessage, Toast.Error)]
    case EngineCalled(_) =>
      if outcome.Some? then [Toast.Notice("Video trimmed successfully", Toast.Success)]
      else [Toast.Notice(TrimFailedMessage, Toast.Error)]
    case _ => [Toast.Notice(TrimFailedMessage, Toast.Error)]
  }

  class AppState {
    var files: seq<MediaFile>
    var activeTab: string
    /** Object URLs handed to `URL.revokeObjectURL`, as in the media-files hook. */
    var revoked: seq<string>
    var notices: seq<Toast.Notice>

    constructor ()
      ensures files == [] && activeTab == "dashboard" && revoked == [] && notices == []
    {
      files := [];
      activeTab := "dashboard";
      revoked := [];
      notices := [];
    }

    /** `handleFileUpload`: for each file, append its initial record, replace it by the
        settled one, and switch to the tab of an image or an accepted video. */
    method HandleFileUpload(uploads: seq<Upload>)
      modifies this
      ensures files == UploadAll(old(files), uploads, AppLimit)
      ensures activeTab == TabAfterAll(old(activeTab), uploads)
      ensures notices == old(notices) + UploadNoticesAll(uploads, AppLimit)
      ensures revoked == old(revoked)
    {
      var i := 0;
      while i < |uploads|
        invariant 0 <= i <= |uploads|
        invariant files == UploadAll(old(files), uploads[..i], AppLimit)
        invariant activeTab == TabAfterAll(old(activeTab), uploads[..i])
        invariant notices == old(notices) + UploadNoticesAll(uploads[..i], AppLimit)
        invariant revoked == old(revoked)
      {
        assert uploads[..i + 1] == uploads[..i] + [uploads[i]];
        UploadAllSnoc(old(files), uploads[..i], uploads[i], AppLimit);
        TabAfterAllSnoc(old(activeTab), uploads[..i], uploads[i]);
        LogAppend(old(notices), UploadNoticesAll(uploads[..i], AppLimit), UploadNotices(uploads[i], AppLimit));
        UploadOne(uploads[i]);
        i := i + 1;
      }
      assert uploads[..|uploads|] == uploads;
    }

    /** The body of the upload loop for one file. */
    method UploadOne(u: Upload)
      modifies this
      ensures files == UploadStep(old(files), u, AppLimit)
      ensures activeTab == TabAfter(old(activeTab), u)
      ensures notices == old(notices) + UploadNotices(u, AppLimit)
      ensures revoked == old(revoked)
    {
      ImageIsNotVideo(u.file);
      AppLimitBytes(u.file.size);
      files := files + [Initial(u.file, u.initialPreview)];
      if IsImage(u.file) {
        var mediaFile := ImageRecord(u.file, u.preview, u.dimensions);
        files := ReplaceFile(files, u.file, mediaFile);
        activeTab := "images";
      } else if IsVideo(u.file) {
        if u.file.size > 200 * 1024 * 1024 {
          var errorFile := TooLargeRecord(u.file, u.preview, AppLimit);
          files := ReplaceFile(files, u.file, errorFile);
          notices := notices + [Toast.Notice("Video file too large", Toast.Error)];
        } else {
          var mediaFile := VideoRecord(u.file, u.preview, u.video);
          files := ReplaceFile(files, u.file, mediaFile);
          activeTab := "videos";
        }
      }
    }

    /** `resizeImage(index, width, height)`, as in the image-processing hook. */
    method ResizeImage(index: int, width: int, height: int, outcome: Option<Blob>)
      modifies this
      ensures 0 <= index < |old(files)| ==>
        files == Progress.UpdateByIndex(old(files), index, f => Resized(f, outcome)) &&
        notices == old(notices) + [if outcome.Some? then Toast.Notice("Image resized successfully", Toast.Success)
                                   else Toast.Notice(ResizeFailedMessage, Toast.Error)]
      ensures !(0 <= index < |old(files)|) ==>
        files == old(files) && notices == old(notices) + [Toast.Notice(ResizeFailedMessage, Toast.Error)]
      ensures activeTab == old(activeTab) && revoked == old(revoked)
    {
      files := Progress.UpdateByIndex(files, index, (f: MediaFile) => f.(processing := true));
      if 0 <= index < |files| && outcome.Some? {
        files := Progress.UpdateByIndex(files, index, (f: MediaFile) => f.(processedImage := outcome, processing := false));
        notices := notices + [Toast.Notice("Image resized successfully", Toast.Success)];
      } else {
        files := Progress.UpdateByIndex(files, index, (f: MediaFile) => Failed(f, ResizeFailedMessage));
        notices := notices + [Toast.Notice(ResizeFailedMessage, Toast.Error)];
      }
    }

    /** `trimVideo(index, start, end)`: the engine check, then straight to the engine. */
    method TrimVideo(index: int, start: real, end: real, engineLoaded: bool, outcome: Option<Blob>)
      returns (request: Option<TrimRequest>)
      modifies this
      ensures var path := TrimPathOf(old(files), index, start, end, engineLoaded);
        request == (if path.EngineCalled? then Some(path.request) else None) &&
        notices == old(notices) + TrimNotices(path, outcome)
      ensures files == TrimResult(old(files), index, start, end, engineLoaded, outcome)
      ensures activeTab == old(activeTab) && revoked == old(revoked)
    {
      request := None;
      if !engineLoaded {
        files := Progress.UpdateByIndex(files, index, (f: MediaFile) => Failed(f, EngineMissingMessage));
        notices := notices + [Toast.Notice(EngineMissingMessage, Toast.Error)];
        return;
      }
      files := Progress.UpdateByIndex(files, index, (f: MediaFile) => f.(processing := true, trim := Some(TrimRange(start, end))));
      if 0 <= index < |files| && outcome.Some? {
        request := Some(TrimRequest(start, end - start));
        var trimmed := outcome.value;
        files := Progress.UpdateByIndex(files, index,
          (f: MediaFile) => f.(processedVideo := Some(trimmed), metadata := f.metadata.(size := trimmed.size), processing := false));
        notices := notices + [Toast.Notice("Video trimmed successfully", Toast.Success)];
      } else {
        if 0 <= index < |files| {
          request := Some(TrimRequest(start, end - start));
        }
        files := Progress.UpdateByIndex(files, index, (f: MediaFile) => Failed(f, TrimFailedMessage));
        notices := notices + [Toast.Notice(TrimFailedMessage, Toast.Error)];
      }
    }

    /** `deleteFile(index)`, as in the media-files hook. */
    method DeleteFile(index: int)
      modifies this
      ensures 0 <= index < |old(files)| ==>
        files == RemoveAt(old(files), index) && revoked == old(revoked) + Released(old(files)[index])
      ensures !(0 <= index < |old(files)|) ==> files == old(files) && revoked == old(revoked)
      ensures activeTab == old(activeTab) && notices == old(notices)
    {
      if 0 <= index < |files| {
        var fileToDelete := files[index];
        revoked := revoked + [fileToDelete.preview];
        if fileToDelete.thumbnail.Some? && fileToDelete.thumbnail.value != [] {
          revoked := revoked + [fileToDelete.thumbnail.value];
        }
        files := RemoveAt(files, index);
      }
    }

    /** `downloadFile(file)`, as in the media-files hook: `url` is the transient object URL
        the saved blob goes through, released right after the save. */
    method DownloadFile(file: MediaFile, url: string) returns (saved: Option<Download>)
      modifies this
      ensures saved == DownloadChoice(file)
      ensures notices == old(notices) + DownloadNotices(file)
      ensures files == old(files) && activeTab == old(activeTab)
      ensures revoked == old(revoked) + (if saved.Some? then [url] else [])
    {
      saved := DownloadChoice(file);
      if saved.Some? {
        revoked := revoked + [url];
        notices := notices + [Toast.Notice("Downloaded " + saved.value.filename, Toast.Success)];
      }
    }

    /** `getFilteredFiles()` for the current tab. */
    function GetFilteredFiles(): (r: seq<MediaFile>)
      reads this
      ensures r == Filtered(files, activeTab)
      ensures |r| <= |files|
    {
      Filtered(files, activeTab)
    }
  }
}
