/** `hooks/useVideoProcessor.ts`: `trimVideo` on the records of a `MediaStore`. Whether the
    FFmpeg engine is loaded and the outcome of running it are parameters. */
module VideoProcessor {
  import opened Wrappers
  import Progress
  import Toast
  import opened Media
  import opened MediaFiles

  /** What `trimVideo` did with one call. */
  datatype TrimPath = EngineMissing | NoRecord | RangeRejected | EngineCalled(request: TrimRequest)

  /** The path `trimVideo` takes. The engine check comes first; then reading the record's
      metadata throws when there is no record at `index`; then the range is validated. */
  function TrimPathOf(files: seq<MediaFile>, index: int, start: real, end: real, engineLoaded: bool): TrimPath {
    if !engineLoaded then EngineMissing
    else if !(0 <= index < |files|) then NoRecord
    else if TrimRejected(start, end, files[index].metadata) then RangeRejected
    else EngineCalled(RequestFor(start, end))
  }

  /** The engine is called exactly when it is loaded, the record exists and
      `0 <= start < end <= duration`; it is then asked for a positive length that ends
      within the video. */
  lemma EngineCalledIff(files: seq<MediaFile>, index: int, start: real, end: real, engineLoaded: bool)
    ensures TrimPathOf(files, index, start, end, engineLoaded).EngineCalled? <==>
      engineLoaded && 0 <= index < |files| && 0.0 <= start < end <= DurationOrZero(files[index].metadata)
    ensures TrimPathOf(files, index, start, end, engineLoaded).EngineCalled? ==>
      var q := TrimPathOf(files, index, start, end, engineLoaded).request;
      q.seekTo == start && q.length == end - start && q.length > 0.0
  {
    if engineLoaded && 0 <= index < |files| {
      TrimAcceptedIff(start, end, files[index].metadata);
    }
  }

  /** The records after each path. */
  function TrimResult(files: seq<MediaFile>, index: int, start: real, end: real, engineLoaded: bool, outcome: Option<Blob>)
    : (r: seq<MediaFile>)
    ensures |r| == |files|
    ensures forall i :: 0 <= i < |files| && i != index ==> r[i] == files[i]
  {
    match TrimPathOf(files, index, start, end, engineLoaded)
    case EngineMissing => Progress.UpdateByIndex(files, index, f => Failed(f, EngineMissingMessage))
    case NoRecord => files
    case RangeRejected => Progress.UpdateByIndex(files, index, f => Failed(f, InvalidTrimMessage))
    case EngineCalled(_) => Progress.UpdateByIndex(files, index, f => Trimmed(f, start, end, outcome))
  }

  /** The toasts after each path. */
  function TrimNotices(path: TrimPath, outcome: Option<Blob>): (r: seq<Toast.Notice>)
    ensures |r| == if path.NoRecord? then 0 else 1
    ensures forall k :: 0 <= k < |r| ==> (r[k].kind == Toast.Success <==> path.EngineCalled? && outcome.Some?)
  {
    match path
    case EngineMissing => [Toast.Notice(EngineMissingMessage, Toast.Error)]
    case NoRecord => []
    case RangeRejected => [Toast.Notice("Invalid trim parameters", Toast.Error)]
    case EngineCalled(_) =>
      if outcome.Some? then [Toast.Notice("Video trimmed successfully", Toast.Success)]
      else [Toast.Notice(TrimFailedMessage, Toast.Error)]
  }

  /** A rejected range sets the fixed error, stops processing and records no trim. */
  lemma RejectedTrimRecord(files: seq<MediaFile>, index: int, start: real, end: real, outcome: Option<Blob>)
    requires TrimPathOf(files, index, start, end, true) == RangeRejected
    ensures var r := TrimResult(files, index, start, end, true, outcome);
      r[index] == files[index].(processing := false, error := Some(InvalidTrimMessage)) &&
      r[index].trim == files[index].trim &&
      forall i :: 0 <= i < |files| && i != index ==> r[i] == files[i]
  {
  }

  /** `trimVideo(index, start, end)`. `request` holds the `-ss` and `-t` FFmpeg was given,
      when it ran. */
  method TrimVideo(store: MediaStore, index: int, start: real, end: real, engineLoaded: bool, outcome: Option<Blob>)
    returns (request: Option<TrimRequest>)
    modifies store
    ensures var path := TrimPathOf(old(store.files), index, start, end, engineLoaded);
      request == (if path.EngineCalled? then Some(path.request) else None) &&
      store.notices == old(store.notices) + TrimNotices(path, outcome)
    ensures store.files == TrimResult(old(store.files), index, start, end, engineLoaded, outcome)
    ensures store.expandedCard == old(store.expandedCard) && store.activeTab == old(store.activeTab)
    ensures store.revoked == old(store.revoked)
  {
    request := None;
    if !engineLoaded {
      store.files := Progress.UpdateByIndex(store.files, index, (f: MediaFile) => Failed(f, EngineMissingMessage));
      store.notices := store.notices + [Toast.Notice(EngineMissingMessage, Toast.Error)];
      return;
    }
    if !(0 <= index < |store.files|) {
      return;
    }
    var file := store.files[index];
    var duration := DurationOrZero(file.metadata);
    if start < 0.0 || end > duration || end <= start {
      store.files := Progress.UpdateByIndex(store.files, index, (f: MediaFile) => Failed(f, InvalidTrimMessage));
      store.notices := store.notices + [Toast.Notice("Invalid trim parameters", Toast.Error)];
      return;
    }
    store.files := Progress.UpdateByIndex(store.files, index,
      (f: MediaFile) => f.(processing := true, trim := Some(TrimRange(start, end))));
    request := Some(TrimRequest(start, end - start));
    match outcome
    case Some(trimmed) =>
      store.files := Progress.UpdateByIndex(store.files, index,
        (f: MediaFile) => f.(processedVideo := Some(trimmed), metadata := f.metadata.(size := trimmed.size), processing := false));
      store.notices := store.notices + [Toast.Notice("Video trimmed successfully", Toast.Success)];
    case None =>
      store.files := Progress.UpdateByIndex(store.files, index, (f: MediaFile) => Failed(f, TrimFailedMessage));
      store.notices := store.notices + [Toast.Notice(TrimFailedMessage, Toast.Error)];
  }
}
