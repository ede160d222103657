/** The local media record of `types.ts` (`MediaFile`) and the record-level steps shared by
    the hooks (`useMediaFiles`, `useImageProcessor`, `useVideoProcessor`) and by their
    monolithic predecessor `App.tsx`. Foreign work (object URLs, image decoding, video
    probing, canvas resizing, compression, FFmpeg) arrives here as outcome values. */
module Media {
  import opened Wrappers
  import Text
  import Rounding
  import ParseInt
  import Progress
  import Toast

  /** A browser `File`. Two `File` objects are `===` exactly when they are the same upload,
      which `id` stands for. */
  datatype File = File(id: nat, name: string, mimeType: string, size: nat)

  /** A `Blob` made by a foreign library; only its size is observed. */
  datatype Blob = Blob(id: nat, size: nat)

  datatype Dimensions = Dimensions(width: int, height: int)

  datatype Metadata = Metadata(size: int, mimeType: string, duration: Option<real>, dimensions: Option<Dimensions>)

  datatype TrimRange = TrimRange(start: real, end: real)

  datatype ResizeOpts = ResizeOpts(width: int, height: int, maintainRatio: bool)

  datatype MediaFile = MediaFile(
    file: File,
    preview: string,
    thumbnail: Option<string>,
    processedImage: Option<Blob>,
    processedVideo: Option<Blob>,
    metadata: Metadata,
    trim: Option<TrimRange>,
    resizeOpts: Option<ResizeOpts>,
    processing: bool,
    error: Option<string>)

  /** `Partial<MediaFile>`: `None` leaves a field alone; for an optional field `Some(None)`
      is an explicit `undefined`, which the spread does copy. */
  datatype MediaPatch = MediaPatch(
    file: Option<File>,
    preview: Option<string>,
    thumbnail: Option<Option<string>>,
    processedImage: Option<Option<Blob>>,
    processedVideo: Option<Option<Blob>>,
    metadata: Option<Metadata>,
    trim: Option<Option<TrimRange>>,
    resizeOpts: Option<Option<ResizeOpts>>,
    processing: Option<bool>,
    error: Option<Option<string>>)

  /** `{ ...f, ...updates }`. */
  function Apply(f: MediaFile, p: MediaPatch): MediaFile {
    MediaFile(
      p.file.GetOr(f.file), p.preview.GetOr(f.preview), p.thumbnail.GetOr(f.thumbnail),
      p.processedImage.GetOr(f.processedImage), p.processedVideo.GetOr(f.processedVideo),
      p.metadata.GetOr(f.metadata), p.trim.GetOr(f.trim), p.resizeOpts.GetOr(f.resizeOpts),
      p.processing.GetOr(f.processing), p.error.GetOr(f.error))
  }

  /** Merging the same update twice is merging it once. */
  lemma ApplyIdempotent(f: MediaFile, p: MediaPatch)
    ensures Apply(Apply(f, p), p) == Apply(f, p)
  {
  }

  predicate IsImage(file: File) {
    Text.StartsWith(file.mimeType, "image/")
  }

  predicate IsVideo(file: File) {
    Text.StartsWith(file.mimeType, "video/")
  }

  /** An image type and a video type exclude each other. */
  lemma ImageIsNotVideo(file: File)
    ensures !(IsImage(file) && IsVideo(file))
  {
    if IsImage(file) {
      assert file.mimeType[0] == "image/"[0];
    }
  }

  // ---------------------------------------------------------------------------------
  // Upload: the records a file goes through.

  /** What the browser reports about one uploaded file: the object URL made for the first
      record, the one made for the final record, the decoded image size, and the outcome of
      probing it as a video. */
  datatype Upload = Upload(file: File, initialPreview: string, preview: string, dimensions: Dimensions, video: VideoProbe)

  /** `getVideoMetadata` followed by `extractVideoThumbnail`, or the message of the error. */
  datatype VideoProbe =
    | Probed(duration: real, dimensions: Dimensions, thumbnail: Option<string>)
    | ProbeFailed(message: string)

  /** The record appended as soon as an upload starts. */
  function Initial(file: File, preview: string): (r: MediaFile)
    ensures r.file == file && r.processing && r.error.None?
  {
    MediaFile(file, preview, None, None, None, Metadata(file.size, file.mimeType, None, None), None, None, true, None)
  }

  /** `processImage`. */
  function ImageRecord(file: File, preview: string, dimensions: Dimensions): (r: MediaFile)
    ensures r.file == file && r.preview == preview && !r.processing && r.error.None?
    ensures r.metadata.size == file.size && r.metadata.dimensions == Some(dimensions) && r.metadata.duration.None?
  {
    MediaFile(file, preview, None, None, None, Metadata(file.size, file.mimeType, None, Some(dimensions)), None, None, false, None)
  }

  /** `processVideo`: the probed metadata and thumbnail, or the probe's error message. */
  function VideoRecord(file: File, preview: string, probe: VideoProbe): (r: MediaFile)
    ensures r.file == file && r.preview == preview && !r.processing && r.metadata.size == file.size
    ensures r.error.None? <==> probe.Probed?
    ensures probe.Probed? ==> r.metadata.duration == Some(probe.duration) && r.thumbnail == probe.thumbnail
    ensures probe.ProbeFailed? ==> r.error == Some(probe.message) && r.metadata.duration.None?
  {
    match probe
    case Probed(duration, dimensions, thumbnail) =>
      MediaFile(file, preview, thumbnail, None, None, Metadata(file.size, file.mimeType, Some(duration), Some(dimensions)), None, None, false, None)
    case ProbeFailed(message) =>
      MediaFile(file, preview, None, None, None, Metadata(file.size, file.mimeType, None, None), None, None, false, Some(message))
  }

  const Megabyte: nat := 1048576

  /** `file.size > MAX_VIDEO_SIZE` with `MAX_VIDEO_SIZE = maxMb * 1024 * 1024`; a limit that
      did not parse is `NaN`, and no comparison with `NaN` holds. */
  predicate TooLarge(size: nat, maxMb: ParseInt.Number) {
    maxMb.Int? && size > maxMb.value * Megabyte
  }

  /** The limit is strict: a video of exactly the limit is accepted. */
  lemma TooLargeIsStrict(maxMb: int)
    requires maxMb >= 0
    ensures !TooLarge(maxMb * Megabyte, ParseInt.Int(maxMb))
    ensures TooLarge(maxMb * Megabyte + 1, ParseInt.Int(maxMb))
  {
  }

  /** `(size / 1024 / 1024).toFixed(1)`: the multiple of 0.1 nearest to the size in
      megabytes (the larger on a tie), in decimal with one fractional digit. */
  function MegabytesText(size: nat): string {
    var tenths := Rounding.Round(size * 10, Megabyte);
    assert tenths >= 0 by { Rounding.RoundBetween(size * 10, Megabyte, 0, size * 10); }
    ParseInt.Decimal(tenths / 10) + "." + ParseInt.Decimal(tenths % 10)
  }

  /** The text is the nearest tenth of a megabyte, the larger one on a tie, written as the
      whole megabytes, a dot and one digit: `toFixed(1)` of the exact quotient. */
  lemma MegabytesTextNearest(size: nat, whole: nat, tenth: nat)
    requires tenth < 10
    requires 2 * (10 * whole + tenth) * Megabyte <= 2 * (size * 10) + Megabyte < 2 * (10 * whole + tenth + 1) * Megabyte
    ensures MegabytesText(size) == ParseInt.Decimal(whole) + "." + ParseInt.Decimal(tenth)
    ensures |ParseInt.Decimal(tenth)| == 1
  {
    Rounding.RoundUnique(size * 10, Megabyte, 10 * whole + tenth);
    assert (10 * whole + tenth) / 10 == whole;
    assert (10 * whole + tenth) % 10 == tenth;
  }

  /** 1.25 MB is a tie between 1.2 and 1.3, and prints as 1.3. */
  lemma MegabytesTextTie()
    ensures MegabytesText(1310720) == "1.3"
  {
    MegabytesTextNearest(1310720, 1, 3);
    assert ParseInt.Decimal(1) == "1" && ParseInt.Decimal(3) == "3";
  }

  /** A whole number of megabytes prints with a zero tenth. */
  lemma MegabytesTextWhole(mb: nat)
    ensures MegabytesText(mb * Megabyte) == ParseInt.Decimal(mb) + ".0"
  {
    var tenths := mb * 10;
    var size := mb * Megabyte;
    assert size * 10 == tenths * Megabyte;
    Rounding.RoundBetween(tenths * Megabyte, Megabyte, tenths, tenths);
    assert Rounding.Round(size * 10, Megabyte) == tenths;
    assert tenths / 10 == mb;
    assert tenths % 10 == 0;
    assert ParseInt.Decimal(0) == "0";
  }

  function TooLargeMessage(size: nat, maxMb: ParseInt.Number): string {
    "Video too large (" + MegabytesText(size) + "MB). Maximum " + ParseInt.NumberText(maxMb) + "MB."
  }

  /** The record an oversize video is given instead of being probed. */
  function TooLargeRecord(file: File, preview: string, maxMb: ParseInt.Number): (r: MediaFile)
    ensures r.file == file && !r.processing && r.error == Some(TooLargeMessage(file.size, maxMb))
  {
    MediaFile(file, preview, None, None, None, Metadata(file.size, file.mimeType, None, None), None, None, false,
      Some(TooLargeMessage(file.size, maxMb)))
  }

  /** The record an upload settles on. A file that is neither an image nor a video keeps
      its initial record, still marked as processing. */
  function Settled(u: Upload, maxMb: ParseInt.Number): MediaFile {
    if IsImage(u.file) then ImageRecord(u.file, u.preview, u.dimensions)
    else if IsVideo(u.file) then
      if TooLarge(u.file.size, maxMb) then TooLargeRecord(u.file, u.preview, maxMb)
      else VideoRecord(u.file, u.preview, u.video)
    else Initial(u.file, u.initialPreview)
  }

  /** The settled record belongs to the uploaded file, and what it says about processing
      and errors depends on the file's kind and size. */
  lemma SettledShape(u: Upload, maxMb: ParseInt.Number)
    ensures Settled(u, maxMb).file == u.file
    ensures IsImage(u.file) ==> !Settled(u, maxMb).processing && Settled(u, maxMb).error.None?
    ensures IsVideo(u.file) && TooLarge(u.file.size, maxMb) ==>
      !Settled(u, maxMb).processing && Settled(u, maxMb).error == Some(TooLargeMessage(u.file.size, maxMb))
    ensures IsVideo(u.file) && !TooLarge(u.file.size, maxMb) ==>
      !Settled(u, maxMb).processing && (Settled(u, maxMb).error.Some? <==> u.video.ProbeFailed?)
    ensures !IsImage(u.file) && !IsVideo(u.file) ==> Settled(u, maxMb) == Initial(u.file, u.initialPreview)
  {
    ImageIsNotVideo(u.file);
  }

  /** An oversize video is never probed: the outcome of probing does not matter. */
  lemma RejectedVideoIgnoresProbe(u: Upload, probe: VideoProbe, maxMb: ParseInt.Number)
    requires IsVideo(u.file) && TooLarge(u.file.size, maxMb)
    ensures Settled(u.(video := probe), maxMb) == Settled(u, maxMb)
  {
    ImageIsNotVideo(u.file);
  }

  /** `files.map(f => f.file === file ? record : f)`. */
  function ReplaceFile(files: seq<MediaFile>, file: File, record: MediaFile): (r: seq<MediaFile>)
    ensures |r| == |files|
  {
    Progress.UpdateWhere(files, (f: MediaFile) => f.file == file, _ => record)
  }

  /** One iteration of the upload loop: append the initial record, then replace every
      record of that same `File` by the settled one. */
  function UploadStep(files: seq<MediaFile>, u: Upload, maxMb: ParseInt.Number): (r: seq<MediaFile>)
    ensures |r| == |files| + 1
  {
    var appended := files + [Initial(u.file, u.initialPreview)];
    if IsImage(u.file) || IsVideo(u.file) then ReplaceFile(appended, u.file, Settled(u, maxMb))
    else appended
  }

  /** The upload loop over a batch, as a fold from the front. */
  function UploadAll(files: seq<MediaFile>, uploads: seq<Upload>, maxMb: ParseInt.Number): (r: seq<MediaFile>)
    ensures |r| == |files| + |uploads|
    decreases |uploads|
  {
    if uploads == [] then files
    else UploadStep(UploadAll(files, uploads[..|uploads| - 1], maxMb), uploads[|uploads| - 1], maxMb)
  }

  /** The toast an upload raises. */
  function UploadNotices(u: Upload, maxMb: ParseInt.Number): (r: seq<Toast.Notice>)
    ensures |r| <= 1
    ensures r != [] <==> IsVideo(u.file) && TooLarge(u.file.size, maxMb)
    ensures forall k :: 0 <= k < |r| ==> r[k] == Toast.Notice("Video file too large", Toast.Error)
  {
    ImageIsNotVideo(u.file);
    if !IsImage(u.file) && IsVideo(u.file) && TooLarge(u.file.size, maxMb) then [Toast.Notice("Video file too large", Toast.Error)]
    else []
  }

  function UploadNoticesAll(uploads: seq<Upload>, maxMb: ParseInt.Number): (r: seq<Toast.Notice>)
    ensures |r| <= |uploads|
    ensures forall k :: 0 <= k < |r| ==> r[k] == Toast.Notice("Video file too large", Toast.Error)
    decreases |uploads|
  {
    if uploads == [] then []
    else UploadNoticesAll(uploads[..|uploads| - 1], maxMb) + UploadNotices(uploads[|uploads| - 1], maxMb)
  }

  /** Appending the toasts of a batch to a log one upload at a time. */
  lemma LogAppend(log: seq<Toast.Notice>, done: seq<Toast.Notice>, next: seq<Toast.Notice>)
    ensures log + (done + next) == (log + done) + next
  {
  }

  /** The settled records of a batch, in upload order. */
  function SettledAll(uploads: seq<Upload>, maxMb: ParseInt.Number): (r: seq<MediaFile>)
    ensures |r| == |uploads|
    ensures forall i :: 0 <= i < |uploads| ==> r[i] == Settled(uploads[i], maxMb)
  {
    seq(|uploads|, i requires 0 <= i < |uploads| => Settled(uploads[i], maxMb))
  }

  /** No record of `files` and no other upload of the batch is the same `File` as `file`. */
  predicate FreshFile(file: File, files: seq<MediaFile>) {
    forall i :: 0 <= i < |files| ==> files[i].file != file
  }

  predicate FreshBatch(files: seq<MediaFile>, uploads: seq<Upload>) {
    forall i :: 0 <= i < |uploads| ==>
      FreshFile(uploads[i].file, files) && forall j :: 0 <= j < i ==> uploads[j].file != uploads[i].file
  }

  /** The fold takes one more upload by one more step. */
  lemma UploadAllSnoc(files: seq<MediaFile>, uploads: seq<Upload>, u: Upload, maxMb: ParseInt.Number)
    ensures UploadAll(files, uploads + [u], maxMb) == UploadStep(UploadAll(files, uploads, maxMb), u, maxMb)
    ensures UploadNoticesAll(uploads + [u], maxMb) == UploadNoticesAll(uploads, maxMb) + UploadNotices(u, maxMb)
  {
    assert (uploads + [u])[..|uploads|] == uploads;
  }

  /** The upload of a file that has no record yet appends exactly its settled record. */
  lemma StepFresh(before: seq<MediaFile>, u: Upload, maxMb: ParseInt.Number)
    requires FreshFile(u.file, before)
    ensures UploadStep(before, u, maxMb) == before + [Settled(u, maxMb)]
  {
    SettledShape(u, maxMb);
    var appended := before + [Initial(u.file, u.initialPreview)];
    if IsImage(u.file) || IsVideo(u.file) {
      var r := ReplaceFile(appended, u.file, Settled(u, maxMb));
      forall i | 0 <= i < |r|
        ensures r[i] == (before + [Settled(u, maxMb)])[i]
      {
        if i < |before| {
          assert appended[i] == before[i];
        }
      }
    }
  }

  /** The settled records of a batch belong to its files. */
  lemma SettledFiles(files: seq<MediaFile>, uploads: seq<Upload>, file: File, maxMb: ParseInt.Number)
    requires FreshFile(file, files)
    requires forall j :: 0 <= j < |uploads| ==> uploads[j].file != file
    ensures FreshFile(file, files + SettledAll(uploads, maxMb))
  {
    var all := files + SettledAll(uploads, maxMb);
    forall i | 0 <= i < |all|
      ensures all[i].file != file
    {
      if i >= |files| {
        SettledShape(uploads[i - |files|], maxMb);
      }
    }
  }

  /** Freshness of a batch splits into that of its front and that of its last file. */
  lemma FreshBatchSplit(files: seq<MediaFile>, uploads: seq<Upload>)
    requires FreshBatch(files, uploads) && uploads != []
    ensures uploads == uploads[..|uploads| - 1] + [uploads[|uploads| - 1]]
    ensures FreshBatch(files, uploads[..|uploads| - 1])
    ensures FreshFile(uploads[|uploads| - 1].file, files)
    ensures forall j :: 0 <= j < |uploads| - 1 ==> uploads[j].file != uploads[|uploads| - 1].file
  {
  }

  lemma SettledAllSnoc(uploads: seq<Upload>, u: Upload, maxMb: ParseInt.Number)
    ensures SettledAll(uploads + [u], maxMb) == SettledAll(uploads, maxMb) + [Settled(u, maxMb)]
  {
  }

  /** A batch of new files leaves the old records as they were and adds one settled record
      per file, in upload order. */
  lemma {:induction false} UploadAllFresh(files: seq<MediaFile>, uploads: seq<Upload>, maxMb: ParseInt.Number)
    requires FreshBatch(files, uploads)
    ensures UploadAll(files, uploads, maxMb) == files + SettledAll(uploads, maxMb)
    decreases |uploads|
  {
    if uploads != [] {
      var n := |uploads| - 1;
      var front, u := uploads[..n], uploads[n];
      var prev := files + SettledAll(front, maxMb);
      FreshBatchSplit(files, uploads);
      calc {
        UploadAll(files, uploads, maxMb);
      == { UploadAllSnoc(files, front, u, maxMb); }
        UploadStep(UploadAll(files, front, maxMb), u, maxMb);
      == { UploadAllFresh(files, front, maxMb); }
        UploadStep(prev, u, maxMb);
      == { SettledFiles(files, front, u.file, maxMb); StepFresh(prev, u, maxMb); }
        prev + [Settled(u, maxMb)];
      == { SettledAllSnoc(front, u, maxMb); }
        files + SettledAll(uploads, maxMb);
      }
    }
  }

  /** The tab `uploadFiles` switches to before its loop: images win over videos, and
      nothing changes when there is no tab setter or neither kind was uploaded. */
  function ChosenTab(current: string, uploads: seq<Upload>, canSwitch: bool): (r: string)
    ensures !canSwitch || uploads == [] ==> r == current
    ensures r == current || r == "images" || r == "videos"
  {
    var hasImages := exists i :: 0 <= i < |uploads| && IsImage(uploads[i].file);
    var hasVideos := exists i :: 0 <= i < |uploads| && IsVideo(uploads[i].file);
    if hasImages && canSwitch then "images"
    else if hasVideos && canSwitch then "videos"
    else current
  }

  // ---------------------------------------------------------------------------------
  // Resize and trim: the per-record steps of `resizeImage` and `trimVideo`.

  const EngineMissingMessage := "FFmpeg not loaded"
  const InvalidTrimMessage := "Invalid trim parameters. End must be greater than start and within video duration."
  const TrimFailedMessage := "Failed to trim video"
  const ResizeFailedMessage := "Failed to resize image"

  /** `{ ...f, processing: false, error: message }`. */
  function Failed(f: MediaFile, message: string): MediaFile {
    f.(processing := false, error := Some(message))
  }

  /** `resizeImage` on one record: mark it as processing, then store the compressed image
      (`Some`) or the failure. */
  function Resized(f: MediaFile, outcome: Option<Blob>): MediaFile {
    var started := f.(processing := true);
    match outcome
    case Some(image) => started.(processedImage := Some(image), processing := false)
    case None => Failed(started, ResizeFailedMessage)
  }

  /** After a resize the record is no longer processing; success sets the image and keeps
      any earlier error; failure sets the fixed error and keeps any earlier image. */
  lemma ResizedOutcome(f: MediaFile, outcome: Option<Blob>)
    ensures !Resized(f, outcome).processing
    ensures Resized(f, outcome).file == f.file && Resized(f, outcome).metadata == f.metadata
    ensures outcome.Some? ==> Resized(f, outcome).processedImage == outcome && Resized(f, outcome).error == f.error
    ensures outcome.None? ==>
      Resized(f, outcome).processedImage == f.processedImage && Resized(f, outcome).error == Some(ResizeFailedMessage)
  {
  }

  /** `metadata.duration || 0`. */
  function DurationOrZero(m: Metadata): (r: real)
    ensures m.duration.None? ==> r == 0.0
    ensures m.duration.Some? ==> r == m.duration.value
  {
    m.duration.GetOr(0.0)
  }

  /** The guard of `trimVideo` in `useVideoProcessor`, as written. */
  predicate TrimRejected(start: real, end: real, m: Metadata) {
    start < 0.0 || end > DurationOrZero(m) || end <= start
  }

  /** A trim is accepted exactly when `0 <= start < end <= duration`. */
  lemma TrimAcceptedIff(start: real, end: real, m: Metadata)
    ensures !TrimRejected(start, end, m) <==> 0.0 <= start < end <= DurationOrZero(m)
  {
  }

  /** Without a known duration every trim is rejected. */
  lemma NoDurationRejectsAll(start: real, end: real, m: Metadata)
    requires m.duration.None?
    ensures TrimRejected(start, end, m)
  {
  }

  /** The arguments `-ss` and `-t` handed to FFmpeg. */
  datatype TrimRequest = TrimRequest(seekTo: real, length: real)

  /** `-ss start -t (end - start)`: the segment starts at `start` and ends at `end`. */
  function RequestFor(start: real, end: real): (r: TrimRequest)
    ensures r.seekTo == start && r.seekTo + r.length == end
  {
    TrimRequest(start, end - start)
  }

  /** An accepted range asks for a segment of positive length inside the video. */
  lemma AcceptedRequest(start: real, end: real, m: Metadata)
    requires !TrimRejected(start, end, m)
    ensures RequestFor(start, end).seekTo >= 0.0 && RequestFor(start, end).length > 0.0
    ensures RequestFor(start, end).seekTo + RequestFor(start, end).length <= DurationOrZero(m)
  {
  }

  /** `trimVideo` on one record once the engine is called: record the range and mark it as
      processing, then store the trimmed video and its size (`Some`) or the failure. */
  function Trimmed(f: MediaFile, start: real, end: real, outcome: Option<Blob>): MediaFile {
    var started := f.(processing := true, trim := Some(TrimRange(start, end)));
    match outcome
    case Some(video) =>
      started.(processedVideo := Some(video), metadata := started.metadata.(size := video.size), processing := false)
    case None => Failed(started, TrimFailedMessage)
  }

  /** After a trim the record keeps the range and is no longer processing; success sets the
      video and its size and keeps the rest of the metadata; failure sets the fixed error
      and keeps any earlier video. */
  lemma TrimmedOutcome(f: MediaFile, start: real, end: real, outcome: Option<Blob>)
    ensures !Trimmed(f, start, end, outcome).processing
    ensures Trimmed(f, start, end, outcome).trim == Some(TrimRange(start, end))
    ensures outcome.Some? ==>
      Trimmed(f, start, end, outcome).processedVideo == outcome &&
      Trimmed(f, start, end, outcome).metadata == f.metadata.(size := outcome.value.size) &&
      Trimmed(f, start, end, outcome).error == f.error
    ensures outcome.None? ==>
      Trimmed(f, start, end, outcome).processedVideo == f.processedVideo &&
      Trimmed(f, start, end, outcome).metadata == f.metadata &&
      Trimmed(f, start, end, outcome).error == Some(TrimFailedMessage)
  {
  }

  // ---------------------------------------------------------------------------------
  // Deleting, downloading and filtering.

  /** `files.filter((_, i) => i !== index)`. */
  function RemoveAt<T>(s: seq<T>, index: int): (r: seq<T>)
    ensures 0 <= index < |s| ==> |r| == |s| - 1
    ensures 0 <= index < |s| ==> forall i :: 0 <= i < index ==> r[i] == s[i]
    ensures 0 <= index < |s| ==> forall i :: index <= i < |r| ==> r[i] == s[i + 1]
    ensures !(0 <= index < |s|) ==> r == s
  {
    if 0 <= index < |s| then s[..index] + s[index + 1..] else s
  }

  /** The object URLs released when a record is deleted: its preview, and its thumbnail
      when it has a non-empty one. */
  function Released(f: MediaFile): (r: seq<string>)
    ensures 1 <= |r| <= 2 && r[0] == f.preview
    ensures |r| == 2 <==> f.thumbnail.Some? && f.thumbnail.value != []
  {
    [f.preview] + if f.thumbnail.Some? && f.thumbnail.value != [] then [f.thumbnail.value] else []
  }

  datatype Download = Download(blob: Blob, filename: string)

  /** The blob and file name `downloadFile` saves: the resized image first, then the
      trimmed video, and nothing when neither exists. */
  function DownloadChoice(f: MediaFile): (r: Option<Download>)
    ensures r.None? <==> f.processedImage.None? && f.processedVideo.None?
    ensures f.processedImage.Some? ==> r == Some(Download(f.processedImage.value, "processed_" + f.file.name))
    ensures f.processedImage.None? && f.processedVideo.Some? ==>
      r == Some(Download(f.processedVideo.value, "trimmed_" + f.file.name))
  {
    if f.processedImage.Some? then Some(Download(f.processedImage.value, "processed_" + f.file.name))
    else if f.processedVideo.Some? then Some(Download(f.processedVideo.value, "trimmed_" + f.file.name))
    else None
  }

  /** `Downloaded <name>` after a download, nothing otherwise. */
  function DownloadNotices(f: MediaFile): (r: seq<Toast.Notice>)
    ensures |r| <= 1
    ensures r != [] <==> f.processedImage.Some? || f.processedVideo.Some?
    ensures forall k :: 0 <= k < |r| ==> r[k].kind == Toast.Success
  {
    match DownloadChoice(f)
    case Some(d) => [Toast.Notice("Downloaded " + d.filename, Toast.Success)]
    case None => []
  }

  /** `files.filter(keep)`. */
  function Filter(files: seq<MediaFile>, keep: File -> bool): (r: seq<MediaFile>)
    ensures |r| <= |files|
    decreases |files|
  {
    if files == [] then []
    else (if keep(files[0].file) then [files[0]] else []) + Filter(files[1..], keep)
  }

  /** Filtering keeps the order: it distributes over concatenation. */
  lemma {:induction false} FilterAppend(a: seq<MediaFile>, b: seq<MediaFile>, keep: File -> bool)
    ensures Filter(a + b, keep) == Filter(a, keep) + Filter(b, keep)
    decreases |a|
  {
    if a == [] {
      assert a + b == b;
    } else {
      var head := if keep(a[0].file) then [a[0]] else [];
      assert (a + b)[0] == a[0];
      assert (a + b)[1..] == a[1..] + b;
      assert Filter(a + b, keep) == head + Filter(a[1..] + b, keep);
      FilterAppend(a[1..], b, keep);
      assert Filter(a, keep) == head + Filter(a[1..], keep);
      assert head + (Filter(a[1..], keep) + Filter(b, keep)) == (head + Filter(a[1..], keep)) + Filter(b, keep);
    }
  }

  /** A record is in the filtered list exactly when it is in the list and is kept. */
  lemma {:induction false} FilterMembers(files: seq<MediaFile>, keep: File -> bool, f: MediaFile)
    ensures f in Filter(files, keep) <==> f in files && keep(f.file)
    decreases |files|
  {
    if files != [] {
      FilterMembers(files[1..], keep, f);
      assert f in files <==> f == files[0] || f in files[1..];
    }
  }

  /** `getFilteredFiles(activeTab)`. */
  function Filtered(files: seq<MediaFile>, tab: string): (r: seq<MediaFile>)
    ensures |r| <= |files|
    ensures tab != "images" && tab != "videos" ==> r == files
  {
    if tab == "images" then Filter(files, IsImage)
    else if tab == "videos" then Filter(files, IsVideo)
    else files
  }

  /** The images tab lists exactly the image records, the videos tab exactly the video
      records, and any other tab lists everything. */
  lemma FilteredMembers(files: seq<MediaFile>, tab: string, f: MediaFile)
    ensures tab == "images" ==> (f in Filtered(files, tab) <==> f in files && IsImage(f.file))
    ensures tab == "videos" ==> (f in Filtered(files, tab) <==> f in files && IsVideo(f.file))
    ensures tab != "images" && tab != "videos" ==> Filtered(files, tab) == files
  {
    FilterMembers(files, IsImage, f);
    FilterMembers(files, IsVideo, f);
  }
}
