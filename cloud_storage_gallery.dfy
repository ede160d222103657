/** `components/CloudStorageGallery.tsx`: the upload batch, the download flow, the delete
    dialog and the load-on-first-activation effect, over the state of
    `useCloudStorageState`. */
module CloudStorageGallery {
  import opened Wrappers
  import Text
  import Api
  import Toast
  import Media
  import opened Progress
  import opened CloudStorageState

  /** What happened to one transfer: the presigned-URL request failed, or the bytes were
      sent, reporting the listed percentages, and then either completed or threw. */
  datatype Transfer = UrlFailed | Sent(reports: seq<int>, ok: bool)

  /** One file of an upload batch with the outcome of its transfer. */
  datatype Attempt = Attempt(file: Media.File, transfer: Transfer)

  /** The tab whose activation loads the list. */
  const CloudTab: string := "cloud-storage"

  /** `key.split('/').pop() || key || fallback`: the last `/`-segment, else the whole key,
      else the fallback. */
  function LastSegmentOr(key: string, fallback: string): (r: string)
    ensures key != [] ==> r != []
    ensures key == [] ==> r == fallback
    ensures '/' !in key ==> r == if key == [] then fallback else key
  {
    var segment := Text.AfterLast(key, '/');
    if segment != [] then segment else if key != [] then key else fallback
  }

  /** The name shown on a file card. */
  function DisplayName(key: string): (r: string)
    ensures r != []
  {
    LastSegmentOr(key, "Unknown File")
  }

  /** The name a download is saved under. */
  function DownloadName(key: string): (r: string)
    ensures r != []
  {
    LastSegmentOr(key, "unknown-file")
  }

  /** A key inside folders is shown and saved under its last segment; a key ending in `/`
      under the whole key; the empty key under the fallbacks. */
  lemma NamesOfKeys(folder: string, name: string)
    requires name != [] && '/' !in name
    ensures DisplayName(folder + "/" + name) == name && DownloadName(folder + "/" + name) == name
    ensures DisplayName(folder + "/") == folder + "/" && DownloadName(folder + "/") == folder + "/"
    ensures DisplayName("") == "Unknown File" && DownloadName("") == "unknown-file"
  {
    Text.AfterLastOfJoin(folder, '/', name);
    Text.AfterLastOfJoin(folder, '/', "");
    assert folder + "/" + "" == folder + "/";
  }

  /** The row a transfer ends in. A completed transfer ends at 100; a failed one ends in
      `error` at the last reported percentage (0 when none was reported). */
  function FinalRow<F>(file: F, t: Transfer): ProgressItem<F> {
    match t
    case UrlFailed => ProgressItem(file, 0, Error)
    case Sent(reports, ok) =>
      if ok then ProgressItem(file, 100, Completed)
      else ProgressItem(file, if reports == [] then 0 else reports[|reports| - 1], Error)
  }

  /** Every transfer ends either completed at 100 or in error, and it is completed exactly
      when the bytes were sent and the transfer did not throw. */
  lemma FinalRowSettled<F>(file: F, t: Transfer)
    ensures FinalRow(file, t).file == file
    ensures FinalRow(file, t).status == Completed || FinalRow(file, t).status == Error
    ensures FinalRow(file, t).status == Completed <==> t.Sent? && t.ok
    ensures FinalRow(file, t).status == Completed ==> FinalRow(file, t).progress == 100
  {
  }

  /** The rows a whole batch ends in, one per attempt, each by its own outcome only. */
  function FinalRows(attempts: seq<Attempt>): (r: seq<ProgressItem<Media.File>>)
    ensures |r| == |attempts|
  {
    seq(|attempts|, i requires 0 <= i < |attempts| => FinalRow(attempts[i].file, attempts[i].transfer))
  }

  /** A failed attempt does not affect any other row of the batch. */
  lemma FailureIsLocal(attempts: seq<Attempt>, i: int, t: Transfer)
    requires 0 <= i < |attempts|
    ensures var changed := attempts[i := Attempt(attempts[i].file, t)];
      forall j :: 0 <= j < |attempts| && j != i ==> FinalRows(changed)[j] == FinalRows(attempts)[j]
  {
  }

  /** The files of a batch. */
  function FilesOf(attempts: seq<Attempt>): (r: seq<Media.File>)
    ensures |r| == |attempts| && forall i :: 0 <= i < |attempts| ==> r[i] == attempts[i].file
  {
    seq(|attempts|, i requires 0 <= i < |attempts| => attempts[i].file)
  }

  /** The toast an upload attempt raises. */
  function UploadNotice(a: Attempt): (r: Toast.Notice)
    ensures r.kind == Toast.Success <==> a.transfer.Sent? && a.transfer.ok
    ensures r.kind != Toast.Info
  {
    if a.transfer.Sent? && a.transfer.ok then Toast.Notice(a.file.name + " uploaded successfully", Toast.Success)
    else Toast.Notice("Failed to upload " + a.file.name, Toast.Error)
  }

  /** The toasts of a batch, one per attempt, in order. */
  function UploadNotices(attempts: seq<Attempt>): (r: seq<Toast.Notice>)
    ensures |r| == |attempts|
  {
    seq(|attempts|, i requires 0 <= i < |attempts| => UploadNotice(attempts[i]))
  }

  /** The toast a download raises. */
  function DownloadNotice(key: string, t: Transfer): (r: Toast.Notice)
    ensures r.kind == Toast.Success <==> t.Sent? && t.ok
    ensures r.kind != Toast.Info
  {
    if t.Sent? && t.ok then Toast.Notice(LastSegmentOr(key, "File") + " downloaded successfully", Toast.Success)
    else Toast.Notice("Failed to download " + LastSegmentOr(key, "file"), Toast.Error)
  }

  /** `prev.filter(f => f.key !== key)`. */
  function WithoutKey(files: seq<CloudFile>, key: string): (r: seq<CloudFile>)
    ensures |r| <= |files|
  {
    if files == [] then []
    else (if files[0].key != key then [files[0]] else []) + WithoutKey(files[1..], key)
  }

  /** Removing a key drops exactly the files with that key. */
  lemma {:induction false} WithoutKeyMembers(files: seq<CloudFile>, key: string, f: CloudFile)
    ensures f in WithoutKey(files, key) <==> f in files && f.key != key
    decreases |files|
  {
    if files != [] {
      WithoutKeyMembers(files[1..], key, f);
      assert files == [files[0]] + files[1..];
    }
  }

  /** Removing a key keeps the order: it distributes over concatenation. */
  lemma {:induction false} WithoutKeyAppend(a: seq<CloudFile>, b: seq<CloudFile>, key: string)
    ensures WithoutKey(a + b, key) == WithoutKey(a, key) + WithoutKey(b, key)
    decreases |a|
  {
    if a == [] {
      assert a + b == b;
    } else {
      var head := if a[0].key != key then [a[0]] else [];
      assert (a + b)[0] == a[0];
      assert (a + b)[1..] == a[1..] + b;
      WithoutKeyAppend(a[1..], b, key);
      assert head + (WithoutKey(a[1..], key) + WithoutKey(b, key))
          == (head + WithoutKey(a[1..], key)) + WithoutKey(b, key);
    }
  }

  /** A list without the key is left as it is. */
  lemma {:induction false} WithoutAbsentKey(files: seq<CloudFile>, key: string)
    requires forall i :: 0 <= i < |files| ==> files[i].key != key
    ensures WithoutKey(files, key) == files
    decreases |files|
  {
    if files != [] {
      WithoutAbsentKey(files[1..], key);
      assert files == [files[0]] + files[1..];
    }
  }

  /** The effect's test: the cloud tab is active and was not the tab last initialised. */
  predicate Activates(initialized: Option<string>, tab: string) {
    tab == CloudTab && initialized != Some(tab)
  }

  /** `initializedRef.current` after the effect runs for `tab`. */
  function AfterActivation(initialized: Option<string>, tab: string): Option<string> {
    if Activates(initialized, tab) then Some(tab) else initialized
  }

  /** How many loads the effect starts over a sequence of active tabs. */
  function LoadCount(initialized: Option<string>, tabs: seq<string>): nat
    decreases |tabs|
  {
    if tabs == [] then 0
    else (if Activates(initialized, tabs[0]) then 1 else 0) + LoadCount(AfterActivation(initialized, tabs[0]), tabs[1..])
  }

  /** Whatever the tabs visited, the list is loaded by the effect at most once: exactly
      once when the cloud tab is ever shown and was not initialised before. */
  lemma {:induction false} LoadsOnce(initialized: Option<string>, tabs: seq<string>)
    ensures LoadCount(initialized, tabs) == if initialized != Some(CloudTab) && CloudTab in tabs then 1 else 0
    decreases |tabs|
  {
    if tabs != [] {
      LoadsOnce(AfterActivation(initialized, tabs[0]), tabs[1..]);
      assert CloudTab in tabs <==> tabs[0] == CloudTab || CloudTab in tabs[1..];
    }
  }

  class Gallery {
    const state: CloudStorage
    /** `initializedRef.current`. */
    var initialized: Option<string>
    /** Calls of `addToast`, in order. */
    var notices: seq<Toast.Notice>

    constructor (state: CloudStorage)
      ensures this.state == state && initialized.None? && notices == []
    {
      this.state := state;
      initialized := None;
      notices := [];
    }

    /** The effect on `activeTab`: a first activation of the cloud tab loads the list
        (through the cache); it returns how that load ended, or `None` when none started. */
    method Activate(tab: string, now: int, fetched: Result<seq<Listed>, string>, loadedAt: int)
      returns (load: Option<LoadOutcome>)
      modifies this, state
      ensures initialized == AfterActivation(old(initialized), tab)
      ensures load.Some? <==> Activates(old(initialized), tab)
      ensures load.None? ==> state.Listing() == old(state.Listing())
      ensures load == Some(Loaded) ==> fetched.Ok? && state.files == WithPreviews(fetched.value)
      ensures state.Uploads() == old(state.Uploads()) && state.Downloads() == old(state.Downloads())
      ensures state.deleteConfirm == old(state.deleteConfirm) && notices == old(notices)
    {
      load := None;
      if tab == CloudTab && initialized != Some(tab) {
        initialized := Some(tab);
        var outcome := state.LoadFiles(false, now, fetched, loadedAt);
        load := Some(outcome);
      }
    }

    /** `uploadFiles(filesToUpload)`: each file in turn, a failure never stopping the rest,
        then a forced refresh; the busy flag drops even when the refresh throws. */
    method UploadFiles(attempts: seq<Attempt>, now: int, fetched: Result<seq<Listed>, string>, loadedAt: int)
      returns (refresh: LoadOutcome)
      modifies this, state
      ensures state.uploadProgress == FinalRows(attempts)
      ensures notices == old(notices) + UploadNotices(attempts)
      ensures !state.uploading && state.showUploadModal && !state.loading
      ensures refresh.Loaded? <==> fetched.Ok?
      ensures refresh.Loaded? ==> state.files == WithPreviews(fetched.value) && state.lastLoaded == Some(loadedAt)
      ensures refresh.Failed? ==> state.files == old(state.files)
      ensures state.Downloads() == old(state.Downloads()) && state.deleteConfirm == old(state.deleteConfirm)
      ensures initialized == old(initialized)
    {
      state.StartUpload(FilesOf(attempts));
      var i := 0;
      while i < |attempts|
        invariant 0 <= i <= |attempts|
        invariant |state.uploadProgress| == |attempts|
        invariant forall j :: 0 <= j < i ==> state.uploadProgress[j] == FinalRow(attempts[j].file, attempts[j].transfer)
        invariant forall j :: i <= j < |attempts| ==> state.uploadProgress[j] == ProgressItem(attempts[j].file, 0, Pending)
        invariant notices == old(notices) + UploadNotices(attempts[..i])
        invariant state.uploading && state.showUploadModal
        invariant state.Listing() == old(state.Listing())
        invariant state.Downloads() == old(state.Downloads()) && state.deleteConfirm == old(state.deleteConfirm)
        invariant initialized == old(initialized)
      {
        assert UploadNotices(attempts[..i + 1]) == UploadNotices(attempts[..i]) + [UploadNotice(attempts[i])];
        UploadOne(i, attempts[i]);
        i := i + 1;
      }
      assert attempts[..|attempts|] == attempts;
      refresh := state.RefreshFiles(now, fetched, loadedAt);
      state.FinishUpload();
    }

    /** The body of the batch loop for the attempt at `i`. */
    method UploadOne(i: int, a: Attempt)
      requires 0 <= i < |state.uploadProgress| && state.uploadProgress[i] == ProgressItem(a.file, 0, Pending)
      modifies this, state
      ensures state.uploadProgress == old(state.uploadProgress)[i := FinalRow(a.file, a.transfer)]
      ensures notices == old(notices) + [UploadNotice(a)]
      ensures state.uploading == old(state.uploading) && state.showUploadModal == old(state.showUploadModal)
      ensures state.Listing() == old(state.Listing())
      ensures state.Downloads() == old(state.Downloads()) && state.deleteConfirm == old(state.deleteConfirm)
      ensures initialized == old(initialized)
    {
      state.UpdateUploadProgress(i, StatusPatch(Uploading));
      if a.transfer.Sent? {
        ReportUpload(i, a.file, a.transfer.reports);
      }
      if a.transfer.Sent? && a.transfer.ok {
        state.UpdateUploadProgress(i, ProgressStatusPatch(100, Completed));
        notices := notices + [Toast.Notice(a.file.name + " uploaded successfully", Toast.Success)];
      } else {
        state.UpdateUploadProgress(i, StatusPatch(Error));
        notices := notices + [Toast.Notice("Failed to upload " + a.file.name, Toast.Error)];
      }
    }

    /** The progress callback of one upload, called once per reported percentage. */
    method ReportUpload(i: int, file: Media.File, reports: seq<int>)
      requires 0 <= i < |state.uploadProgress| && state.uploadProgress[i] == ProgressItem(file, 0, Uploading)
      modifies state
      ensures state.uploadProgress
           == old(state.uploadProgress)[i := ProgressItem(file, if reports == [] then 0 else reports[|reports| - 1], Uploading)]
      ensures state.uploading == old(state.uploading) && state.showUploadModal == old(state.showUploadModal)
      ensures state.Listing() == old(state.Listing())
      ensures state.Downloads() == old(state.Downloads()) && state.deleteConfirm == old(state.deleteConfirm)
    {
      var k := 0;
      while k < |reports|
        invariant 0 <= k <= |reports|
        invariant state.uploadProgress
               == old(state.uploadProgress)[i := ProgressItem(file, if k == 0 then 0 else reports[k - 1], Uploading)]
        invariant state.uploading == old(state.uploading) && state.showUploadModal == old(state.showUploadModal)
        invariant state.Listing() == old(state.Listing())
        invariant state.Downloads() == old(state.Downloads()) && state.deleteConfirm == old(state.deleteConfirm)
      {
        state.UpdateUploadProgress(i, ProgressStatusPatch(reports[k], Uploading));
        k := k + 1;
      }
    }

    /** `handleDownload(file)`: one row for the file, driven to its final status; returns
        the name the bytes are saved under, which happens only when the transfer completed
        (the download link is clicked only on a 2xx response). */
    method HandleDownload(file: CloudFile, t: Transfer) returns (savedAs: Option<string>)
      modifies this, state
      ensures state.downloadProgress == [FinalRow(file, t)]
      ensures !state.downloading && state.showDownloadModal
      ensures savedAs == if t.Sent? && t.ok then Some(DownloadName(file.key)) else None
      ensures notices == old(notices) + [DownloadNotice(file.key, t)]
      ensures state.Listing() == old(state.Listing()) && state.Uploads() == old(state.Uploads())
      ensures state.deleteConfirm == old(state.deleteConfirm) && initialized == old(initialized)
    {
      state.StartDownload(file);
      state.UpdateDownloadProgress(file.key, StatusPatch(Downloading));
      savedAs := None;
      if t.Sent? {
        ReportDownload(file, t.reports);
      }
      if t.Sent? && t.ok {
        savedAs := Some(DownloadName(file.key));
        state.UpdateDownloadProgress(file.key, ProgressStatusPatch(100, Completed));
        notices := notices + [Toast.Notice(LastSegmentOr(file.key, "File") + " downloaded successfully", Toast.Success)];
      } else {
        state.UpdateDownloadProgress(file.key, StatusPatch(Error));
        notices := notices + [Toast.Notice("Failed to download " + LastSegmentOr(file.key, "file"), Toast.Error)];
      }
      state.FinishDownload();
    }

    /** The progress callback of a download, called once per reported percentage. */
    method ReportDownload(file: CloudFile, reports: seq<int>)
      requires state.downloadProgress == [ProgressItem(file, 0, Downloading)]
      modifies state
      ensures state.downloadProgress == [ProgressItem(file, if reports == [] then 0 else reports[|reports| - 1], Downloading)]
      ensures state.downloading == old(state.downloading) && state.showDownloadModal == old(state.showDownloadModal)
      ensures state.Listing() == old(state.Listing()) && state.Uploads() == old(state.Uploads())
      ensures state.deleteConfirm == old(state.deleteConfirm)
    {
      var k := 0;
      while k < |reports|
        invariant 0 <= k <= |reports|
        invariant state.downloadProgress == [ProgressItem(file, if k == 0 then 0 else reports[k - 1], Downloading)]
        invariant state.downloading == old(state.downloading) && state.showDownloadModal == old(state.showDownloadModal)
        invariant state.Listing() == old(state.Listing()) && state.Uploads() == old(state.Uploads())
        invariant state.deleteConfirm == old(state.deleteConfirm)
      {
        state.UpdateDownloadProgress(file.key, ProgressStatusPatch(reports[k], Downloading));
        k := k + 1;
      }
    }

    /** `handleDelete(file)`: open the dialog for `file`. */
    method HandleDelete(file: CloudFile)
      modifies state
      ensures state.deleteConfirm == DeleteConfirm(true, Some(file))
      ensures state.Listing() == old(state.Listing()) && state.Uploads() == old(state.Uploads())
      ensures state.Downloads() == old(state.Downloads())
    {
      state.ShowDeleteConfirm(file);
    }

    /** `confirmDelete()`: with a pending file, ask the backend to delete it (`deleted` is
        whether that request succeeded), drop every file with its key on success, and close
        the dialog either way. Returns the request path, or `None` when nothing was pending. */
    method ConfirmDelete(deleted: bool) returns (request: Option<string>)
      modifies this, state
      ensures old(state.deleteConfirm.file).None? ==>
        request.None? && state.deleteConfirm == old(state.deleteConfirm) && notices == old(notices)
        && state.files == old(state.files)
      ensures old(state.deleteConfirm.file).Some? ==>
        var key := old(state.deleteConfirm.file).value.key;
        request == Some(Api.DeleteFilePath(key))
        && state.deleteConfirm == DeleteConfirm(false, None)
        && state.files == (if deleted then WithoutKey(old(state.files), key) else old(state.files))
        && notices == old(notices) + [if deleted then Toast.Notice(key + " deleted successfully", Toast.Success)
                                      else Toast.Notice("Failed to delete " + key, Toast.Error)]
      ensures state.loading == old(state.loading) && state.filesLoaded == old(state.filesLoaded)
      ensures state.lastLoaded == old(state.lastLoaded)
      ensures state.Uploads() == old(state.Uploads()) && state.Downloads() == old(state.Downloads())
      ensures initialized == old(initialized)
    {
      if state.deleteConfirm.file.None? {
        return None;
      }
      var file := state.deleteConfirm.file.value;
      request := Some(Api.DeleteFilePath(file.key));
      if deleted {
        state.SetFiles(WithoutKey(state.files, file.key));
        notices := notices + [Toast.Notice(file.key + " deleted successfully", Toast.Success)];
      } else {
        notices := notices + [Toast.Notice("Failed to delete " + file.key, Toast.Error)];
      }
      state.HideDeleteConfirm();
    }

    /** The names of the file cards, in list order. */
    function DisplayNames(): (r: seq<string>)
      reads this, state
      ensures |r| == |state.files|
      ensures forall i :: 0 <= i < |state.files| && state.files[i].key != [] ==> r[i] != []
    {
      seq(|state.files|, i requires 0 <= i < |state.files| reads state => DisplayName(state.files[i].key))
    }
  }
}
