/** `hooks/useMediaFiles.ts`: the list of local media records, the expanded card, and the
    tab the hook's caller shows. */
module MediaFiles {
  import opened Wrappers
  import ParseInt
  import Progress
  import Toast
  import opened Media

  /** `MAX_VIDEO_SIZE_MB = parseInt(VITE_MAX_VIDEO_SIZE_MB || "200")`, with no radix; the
      environment value is a parameter (`""` when unset). */
  function MaxVideoSizeMb(env: string): ParseInt.Number {
    ParseInt.ParseIntNoRadix(if env == "" then "200" else env)
  }

  /** Without a configured value the limit is 200 MB; a hexadecimal value is read as such,
      so `0x64` is 100 MB. */
  lemma DefaultLimit()
    ensures MaxVideoSizeMb("") == ParseInt.Int(200)
    ensures MaxVideoSizeMb("0x64") == ParseInt.Int(100)
  {
    ParseInt.DecimalValue(200);
    assert ParseInt.Decimal(200) == "200";
    var none := ParseInt.NoSign;
    ParseInt.NoRadixDecimal("", none, "200", "");
    assert "" + none.Text() + "200" + "" == "200";
    ParseInt.HexPrefixDiffers();
  }

  /** `handleToggleExpand(index)`. */
  function Toggled(expanded: Option<int>, index: int): Option<int> {
    if expanded == Some(index) then None else Some(index)
  }

  /** Toggling a card opens it, or closes it when it was the open one. Toggling the same
      card twice restores the state when no card or that card was open, and otherwise
      closes every card. */
  lemma ToggleTwice(expanded: Option<int>, index: int)
    ensures Toggled(Toggled(expanded, index), index) == expanded <==> expanded.None? || expanded == Some(index)
    ensures Toggled(Toggled(expanded, index), index).Some? ==> Toggled(Toggled(expanded, index), index) == Some(index)
    ensures expanded != Some(index) ==> Toggled(Toggled(expanded, index), index).None?
  {
  }

  class MediaStore {
    var files: seq<MediaFile>
    var expandedCard: Option<int>
    /** The caller's active tab, changed through the optional `setActiveTab`. */
    var activeTab: string
    /** Object URLs handed to `URL.revokeObjectURL`, in order: the handles a deleted record
        releases and each download's transient URL. The probes' own `video.src` handles
        are not tracked. */
    var revoked: seq<string>
    /** Calls of `addToast`, in order. */
    var notices: seq<Toast.Notice>
    const maxVideoSizeMb: ParseInt.Number
    const canSwitchTab: bool

    constructor (env: string, activeTab: string, canSwitchTab: bool)
      ensures files == [] && expandedCard.None? && this.activeTab == activeTab
      ensures revoked == [] && notices == []
      ensures maxVideoSizeMb == MaxVideoSizeMb(env) && this.canSwitchTab == canSwitchTab
    {
      files := [];
      expandedCard := None;
      this.activeTab := activeTab;
      revoked := [];
      notices := [];
      maxVideoSizeMb := MaxVideoSizeMb(env);
      this.canSwitchTab := canSwitchTab;
    }

    /** `updateFile(index, updates)`: merge the update into the record at `index` only. */
    method UpdateFile(index: int, updates: MediaPatch)
      modifies this
      ensures files == Progress.UpdateByIndex(old(files), index, f => Apply(f, updates))
      ensures expandedCard == old(expandedCard) && activeTab == old(activeTab)
      ensures revoked == old(revoked) && notices == old(notices)
    {
      files := Progress.UpdateByIndex(files, index, f => Apply(f, updates));
    }

    /** `uploadFiles(uploadedFiles)`: pick the tab, then for each file in turn append its
      initial record and replace it by the settled one. */
    method UploadFiles(uploads: seq<Upload>)
      modifies this
      ensures activeTab == ChosenTab(old(activeTab), uploads, canSwitchTab)
      ensures files == UploadAll(old(files), uploads, maxVideoSizeMb)
      ensures notices == old(notices) + UploadNoticesAll(uploads, maxVideoSizeMb)
      ensures expandedCard == old(expandedCard) && revoked == old(revoked)
    {
      activeTab := ChosenTab(activeTab, uploads, canSwitchTab);
      ghost var tab := activeTab;
      var i := 0;
      while i < |uploads|
        invariant 0 <= i <= |uploads|
        invariant files == UploadAll(old(files), uploads[..i], maxVideoSizeMb)
        invariant notices == old(notices) + UploadNoticesAll(uploads[..i], maxVideoSizeMb)
        invariant activeTab == tab
        invariant expandedCard == old(expandedCard) && revoked == old(revoked)
      {
        assert uploads[..i + 1] == uploads[..i] + [uploads[i]];
        UploadAllSnoc(old(files), uploads[..i], uploads[i], maxVideoSizeMb);
        LogAppend(old(notices), UploadNoticesAll(uploads[..i], maxVideoSizeMb), UploadNotices(uploads[i], maxVideoSizeMb));
        UploadOne(uploads[i]);
        i := i + 1;
      }
      assert uploads[..|uploads|] == uploads;
    }

    /** The body of the upload loop for one file. */
    method UploadOne(u: Upload)
      modifies this
      ensures files == UploadStep(old(files), u, maxVideoSizeMb)
      ensures notices == old(notices) + UploadNotices(u, maxVideoSizeMb)
      ensures activeTab == old(activeTab) && expandedCard == old(expandedCard) && revoked == old(revoked)
    {
      ImageIsNotVideo(u.file);
      files := files + [Initial(u.file, u.initialPreview)];
      if IsImage(u.file) {
        var mediaFile := ImageRecord(u.file, u.preview, u.dimensions);
        files := ReplaceFile(files, u.file, mediaFile);
      } else if IsVideo(u.file) {
        if TooLarge(u.file.size, maxVideoSizeMb) {
          var errorFile := TooLargeRecord(u.file, u.preview, maxVideoSizeMb);
          files := ReplaceFile(files, u.file, errorFile);
          notices := notices + [Toast.Notice("Video file too large", Toast.Error)];
        } else {
          var mediaFile := VideoRecord(u.file, u.preview, u.video);
          files := ReplaceFile(files, u.file, mediaFile);
        }
      }
    }

    /** `deleteFile(index)`: release the record's object URLs and drop it. An index with no
        record throws before anything changes. */
    method DeleteFile(index: int)
      modifies this
      ensures 0 <= index < |old(files)| ==>
        files == RemoveAt(old(files), index) && revoked == old(revoked) + Released(old(files)[index])
      ensures !(0 <= index < |old(files)|) ==> files == old(files) && revoked == old(revoked)
      ensures expandedCard == old(expandedCard) && activeTab == old(activeTab) && notices == old(notices)
    {
      if 0 <= index < |files| {
        var fileToDelete := files[index];
        revoked := revoked + [fileToDelete.preview];
        if fileToDelete.thumbnail.Some? && fileToDelete.thumbnail.value != [] {
          revoked := revoked + [fileToDelete.thumbnail.value];
        }
        files := RemoveAt(files, index);
      }
    }

    /** `downloadFile(file)`: save the processed output, if any, through a transient object
        URL (`url`, the one `URL.createObjectURL` hands out), release that URL, and say so. */
    method DownloadFile(file: MediaFile, url: string) returns (saved: Option<Download>)
      modifies this
      ensures saved == DownloadChoice(file)
      ensures notices == old(notices) + DownloadNotices(file)
      ensures files == old(files) && expandedCard == old(expandedCard) && activeTab == old(activeTab)
      ensures revoked == old(revoked) + (if saved.Some? then [url] else [])
    {
      saved := None;
      if file.processedImage.Some? {
        saved := Some(Download(file.processedImage.value, "processed_" + file.file.name));
      } else if file.processedVideo.Some? {
        saved := Some(Download(file.processedVideo.value, "trimmed_" + file.file.name));
      }
      if saved.Some? {
        revoked := revoked + [url];
        notices := notices + [Toast.Notice("Downloaded " + saved.value.filename, Toast.Success)];
      }
    }

    method HandleToggleExpand(index: int)
      modifies this
      ensures expandedCard == Toggled(old(expandedCard), index)
      ensures files == old(files) && activeTab == old(activeTab) && revoked == old(revoked) && notices == old(notices)
    {
      expandedCard := if expandedCard == Some(index) then None else Some(index);
    }

    /** `getFilteredFiles(activeTab)`. */
    function GetFilteredFiles(tab: string): (r: seq<MediaFile>)
      reads this
      ensures r == Filtered(files, tab)
      ensures |r| <= |files|
    {
      Filtered(files, tab)
    }
  }
}
