/** `hooks/useCloudStorageState.ts`: the state behind the cloud-storage gallery — the
    cached file list, the upload and download progress lists, and the delete dialog. */
module CloudStorageState {
  import opened Wrappers
  import Api
  import Media
  import opened Progress

  /** A stored object as the gallery holds it: the listing's fields plus an optional
      preview URL. */
  datatype CloudFile = CloudFile(key: string, size: int, lastModified: string, etag: string,
                                 previewUrl: Option<string>)

  /** `deleteConfirm`: whether the dialog shows, and for which file. */
  datatype DeleteConfirm = DeleteConfirm(show: bool, file: Option<CloudFile>)

  /** One listed file with the outcome of its preview-URL request (`None` when
      `generateDownloadUrl` threw, or when no request is made). */
  datatype Listed = Listed(file: CloudFile, preview: Option<string>)

  /** How `loadFiles` ended: the cache was fresh, the list was replaced, or the fetch
      failed and its error is re-thrown to the caller. */
  datatype LoadOutcome = Cached | Loaded | Failed(error: string)

  /** `CACHE_TTL`: five minutes in milliseconds. */
  const CacheTtl: int := 300000

  /** `shouldLoadFiles()` at time `now`: a never-loaded list or a falsy timestamp (null or 0)
      always loads; otherwise only a list older than the TTL, strictly, reloads. */
  predicate ShouldLoadFiles(filesLoaded: bool, lastLoaded: Option<int>, now: int) {
    if !filesLoaded then true
    else if lastLoaded.None? || lastLoaded.value == 0 then true
    else now - lastLoaded.value > CacheTtl
  }

  /** A list loaded at a non-zero time `t` stays fresh for exactly five minutes: at
      `t + 300000` it is still fresh, one millisecond later it is stale. */
  lemma FreshForFiveMinutes(t: int, now: int)
    requires t != 0
    ensures ShouldLoadFiles(true, Some(t), now) <==> now > t + 5 * 60 * 1000
    ensures !ShouldLoadFiles(true, Some(t), t + 300000) && ShouldLoadFiles(true, Some(t), t + 300001)
  {
  }

  /** Once stale, a list stays stale as time goes on. */
  lemma StaleStaysStale(filesLoaded: bool, lastLoaded: Option<int>, now: int, later: int)
    requires now <= later && ShouldLoadFiles(filesLoaded, lastLoaded, now)
    ensures ShouldLoadFiles(filesLoaded, lastLoaded, later)
  {
  }

  /** A timestamp of 0 is falsy, so a list loaded at time 0 is reloaded at any time. */
  lemma ZeroTimestampAlwaysLoads(filesLoaded: bool, now: int)
    ensures ShouldLoadFiles(filesLoaded, Some(0), now) && ShouldLoadFiles(filesLoaded, None, now)
  {
  }

  /** The per-file step of the preview pass: a media key whose URL request succeeded gains
      that URL; every other file is kept as listed. */
  function WithPreview(l: Listed): (r: CloudFile)
    ensures r.(previewUrl := l.file.previewUrl) == l.file
    ensures !Api.IsMediaFile(l.file.key) || l.preview.None? ==> r == l.file
    ensures Api.IsMediaFile(l.file.key) && l.preview.Some? ==> r.previewUrl == l.preview
  {
    if Api.IsMediaFile(l.file.key) && l.preview.Some? then l.file.(previewUrl := l.preview) else l.file
  }

  /** The whole preview pass (`Promise.all` over the listing, in order). */
  function WithPreviews(listed: seq<Listed>): (r: seq<CloudFile>)
    ensures |r| == |listed|
    ensures forall i :: 0 <= i < |listed| ==> r[i].key == listed[i].file.key
    ensures forall i :: 0 <= i < |listed| && !Api.IsMediaFile(listed[i].file.key) ==> r[i] == listed[i].file
  {
    seq(|listed|, i requires 0 <= i < |listed| => WithPreview(listed[i]))
  }

  /** The rows `startUpload` creates. */
  function PendingItems<F>(fs: seq<F>): (r: seq<ProgressItem<F>>)
    ensures |r| == |fs|
    ensures forall i :: 0 <= i < |fs| ==> r[i].file == fs[i] && r[i].progress == 0 && r[i].status == Pending
  {
    seq(|fs|, i requires 0 <= i < |fs| => ProgressItem(fs[i], 0, Pending))
  }

  /** The key a download row is matched by. */
  function KeyOf(item: ProgressItem<CloudFile>): string {
    item.file.key
  }

  /** On a single-row download list, an update by the row's own key patches that row. */
  lemma SingleRowMatches(row: ProgressItem<CloudFile>, updates: ProgressPatch<CloudFile>)
    ensures UpdateByKey([row], KeyOf, row.file.key, Patcher(updates)) == [Merge(row, updates)]
  {
    var r := UpdateByKey([row], KeyOf, row.file.key, Patcher(updates));
    assert r[0] == Patcher(updates)(row);
  }

  class CloudStorage {
    var files: seq<CloudFile>
    var loading: bool
    var filesLoaded: bool
    var lastLoaded: Option<int>
    var uploading: bool
    var showUploadModal: bool
    var uploadProgress: seq<ProgressItem<Media.File>>
    var downloading: bool
    var showDownloadModal: bool
    var downloadProgress: seq<ProgressItem<CloudFile>>
    var deleteConfirm: DeleteConfirm

    constructor ()
      ensures files == [] && !loading && !filesLoaded && lastLoaded.None?
      ensures !uploading && !showUploadModal && uploadProgress == []
      ensures !downloading && !showDownloadModal && downloadProgress == []
      ensures deleteConfirm == DeleteConfirm(false, None)
    {
      files := [];
      loading := false;
      filesLoaded := false;
      lastLoaded := None;
      uploading := false;
      showUploadModal := false;
      uploadProgress := [];
      downloading := false;
      showDownloadModal := false;
      downloadProgress := [];
      deleteConfirm := DeleteConfirm(false, None);
    }

    /** The file-list part of the state. */
    ghost function Listing(): (seq<CloudFile>, bool, bool, Option<int>)
      reads this
    {
      (files, loading, filesLoaded, lastLoaded)
    }

    /** The download part of the state. */
    ghost function Downloads(): (bool, bool, seq<ProgressItem<CloudFile>>)
      reads this
    {
      (downloading, showDownloadModal, downloadProgress)
    }

    /** The upload part of the state. */
    ghost function Uploads(): (bool, bool, seq<ProgressItem<Media.File>>)
      reads this
    {
      (uploading, showUploadModal, uploadProgress)
    }

    /** `startUpload(filesToUpload)`: one pending row per file, in order, and the modal open. */
    method StartUpload(filesToUpload: seq<Media.File>)
      modifies this
      ensures uploading && showUploadModal
      ensures uploadProgress == PendingItems(filesToUpload)
      ensures Listing() == old(Listing()) && Downloads() == old(Downloads()) && deleteConfirm == old(deleteConfirm)
    {
      uploading := true;
      uploadProgress := PendingItems(filesToUpload);
      showUploadModal := true;
    }

    /** `updateUploadProgress(index, updates)`. */
    method UpdateUploadProgress(index: int, updates: ProgressPatch<Media.File>)
      modifies this
      ensures uploadProgress == UpdateByIndex(old(uploadProgress), index, Patcher(updates))
      ensures 0 <= index < |old(uploadProgress)| ==>
        uploadProgress == old(uploadProgress)[index := Merge(old(uploadProgress)[index], updates)]
      ensures uploading == old(uploading) && showUploadModal == old(showUploadModal)
      ensures Listing() == old(Listing()) && Downloads() == old(Downloads()) && deleteConfirm == old(deleteConfirm)
    {
      if 0 <= index < |uploadProgress| {
        UpdateByIndexInRange(uploadProgress, index, Patcher(updates));
      }
      uploadProgress := UpdateByIndex(uploadProgress, index, Patcher(updates));
    }

    /** `finishUpload()`: only the busy flag drops; the modal and its rows stay. */
    method FinishUpload()
      modifies this
      ensures !uploading && showUploadModal == old(showUploadModal) && uploadProgress == old(uploadProgress)
      ensures Listing() == old(Listing()) && Downloads() == old(Downloads()) && deleteConfirm == old(deleteConfirm)
    {
      uploading := false;
    }

    /** `startDownload(file)`: the download list becomes the single pending row for `file`. */
    method StartDownload(file: CloudFile)
      modifies this
      ensures downloading && showDownloadModal
      ensures downloadProgress == [ProgressItem(file, 0, Pending)]
      ensures Listing() == old(Listing()) && Uploads() == old(Uploads()) && deleteConfirm == old(deleteConfirm)
    {
      downloading := true;
      downloadProgress := [ProgressItem(file, 0, Pending)];
      showDownloadModal := true;
    }

    /** `updateDownloadProgress(fileKey, updates)`: every row for that key is patched. */
    method UpdateDownloadProgress(fileKey: string, updates: ProgressPatch<CloudFile>)
      modifies this
      ensures downloadProgress == UpdateByKey(old(downloadProgress), KeyOf, fileKey, Patcher(updates))
      ensures |old(downloadProgress)| == 1 && old(downloadProgress)[0].file.key == fileKey ==>
        downloadProgress == [Merge(old(downloadProgress)[0], updates)]
      ensures downloading == old(downloading) && showDownloadModal == old(showDownloadModal)
      ensures Listing() == old(Listing()) && Uploads() == old(Uploads()) && deleteConfirm == old(deleteConfirm)
    {
      if |downloadProgress| == 1 && downloadProgress[0].file.key == fileKey {
        assert downloadProgress == [downloadProgress[0]];
        SingleRowMatches(downloadProgress[0], updates);
      }
      downloadProgress := UpdateByKey(downloadProgress, KeyOf, fileKey, Patcher(updates));
    }

    /** `finishDownload()`. */
    method FinishDownload()
      modifies this
      ensures !downloading && showDownloadModal == old(showDownloadModal) && downloadProgress == old(downloadProgress)
      ensures Listing() == old(Listing()) && Uploads() == old(Uploads()) && deleteConfirm == old(deleteConfirm)
    {
      downloading := false;
    }

    /** `shouldLoadFiles()`, with `Date.now()` as the parameter `now`. */
    predicate ShouldLoad(now: int)
      reads this
    {
      ShouldLoadFiles(filesLoaded, lastLoaded, now)
    }

    /** `loadFiles(forceRefresh)`. The listing (or the fetch error) and each preview
        request's outcome are parameters; `now` is the clock when the call starts and
        `loadedAt` the clock when the list is stored. */
    method LoadFiles(forceRefresh: bool, now: int, fetched: Result<seq<Listed>, string>, loadedAt: int)
      returns (outcome: LoadOutcome)
      modifies this
      ensures outcome.Cached? <==> !forceRefresh && !old(ShouldLoad(now))
      ensures outcome.Cached? ==>
        files == old(files) && loading == old(loading) && filesLoaded == old(filesLoaded) && lastLoaded == old(lastLoaded)
      ensures !outcome.Cached? ==> !loading
      ensures outcome.Loaded? <==> !outcome.Cached? && fetched.Ok?
      ensures outcome.Loaded? ==>
        files == WithPreviews(fetched.value) && filesLoaded && lastLoaded == Some(loadedAt)
      ensures outcome.Failed? ==>
        fetched.Err? && outcome.error == fetched.error
        && files == old(files) && filesLoaded == old(filesLoaded) && lastLoaded == old(lastLoaded)
      ensures Uploads() == old(Uploads()) && Downloads() == old(Downloads()) && deleteConfirm == old(deleteConfirm)
    {
      if !forceRefresh && !ShouldLoad(now) {
        return Cached;
      }
      loading := true;
      match fetched {
        case Ok(listed) =>
          files := WithPreviews(listed);
          filesLoaded := true;
          lastLoaded := Some(loadedAt);
          outcome := Loaded;
        case Err(error) =>
          outcome := Failed(error);
      }
      loading := false;
    }

    /** `refreshFiles()`: a forced load, which never uses the cache. */
    method RefreshFiles(now: int, fetched: Result<seq<Listed>, string>, loadedAt: int)
      returns (outcome: LoadOutcome)
      modifies this
      ensures !outcome.Cached? && !loading
      ensures outcome.Loaded? <==> fetched.Ok?
      ensures outcome.Loaded? ==>
        files == WithPreviews(fetched.value) && filesLoaded && lastLoaded == Some(loadedAt)
      ensures outcome.Failed? ==>
        outcome.error == fetched.error
        && files == old(files) && filesLoaded == old(filesLoaded) && lastLoaded == old(lastLoaded)
      ensures Uploads() == old(Uploads()) && Downloads() == old(Downloads()) && deleteConfirm == old(deleteConfirm)
    {
      outcome := LoadFiles(true, now, fetched, loadedAt);
    }

    /** `setFiles(next)`, as the gallery uses it after a delete. */
    method SetFiles(next: seq<CloudFile>)
      modifies this
      ensures files == next
      ensures loading == old(loading) && filesLoaded == old(filesLoaded) && lastLoaded == old(lastLoaded)
      ensures Uploads() == old(Uploads()) && Downloads() == old(Downloads()) && deleteConfirm == old(deleteConfirm)
    {
      files := next;
    }

    /** `showDeleteConfirm(file)`. */
    method ShowDeleteConfirm(file: CloudFile)
      modifies this
      ensures deleteConfirm.show && deleteConfirm.file == Some(file)
      ensures Listing() == old(Listing()) && Uploads() == old(Uploads()) && Downloads() == old(Downloads())
    {
      deleteConfirm := DeleteConfirm(true, Some(file));
    }

    /** `hideDeleteConfirm()`: the dialog closes and forgets its file. */
    method HideDeleteConfirm()
      modifies this
      ensures !deleteConfirm.show && deleteConfirm.file.None?
      ensures Listing() == old(Listing()) && Uploads() == old(Uploads()) && Downloads() == old(Downloads())
    {
      deleteConfirm := DeleteConfirm(false, None);
    }
  }
}
