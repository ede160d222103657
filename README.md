# Media utility: bookkeeping model

The application is a browser media tool with a small backend.
- In the browser, images and videos are added to a working list. Each item is resized or trimmed in place, then downloaded or deleted. Short-lived notifications ("toasts") report every outcome.
- A cloud-storage tab lists the objects of an S3 bucket, with a five-minute cache. Files are uploaded to the bucket and downloaded from it through presigned URLs, with a progress row per transfer, and objects are deleted after a confirmation dialog.
- The backend (FastAPI with boto3) issues the presigned URLs. It also lists and deletes objects and reports the bucket's region. It maps service failures to HTTP status codes.

This project models that bookkeeping in Dafny.
- Pure helpers become functions with lemmas:
  - the progress-list updaters
  - URL building with `encodeURIComponent`
  - media-type detection
  - `parseInt` with fallback
  - upload percentages
  - the router's status mapping
- React hooks and components that update state become classes. Each state variable is a field, and each callback is a method whose `ensures` gives the whole new state as a function of the old one.
- The foreign work stays outside the model: canvas, image compression, FFmpeg, axios/XHR, S3 and the clock. Its outcome arrives as a parameter. Examples:
  - `Option<Blob>` for a processing result
  - `Transfer` for an upload or download
  - `Result<seq<Listed>, string>` for a listing
  - a `Presigner` function for boto3's URL signer
  - `now`/`loadedAt` for `Date.now()`

Modules, one per source file, plus shared helpers:

| module | source |
|---|---|
| `Wrappers`, `Text`, `Rounding` | Option/Result; string prefixes, `split(sep).pop()`, ASCII `toLowerCase`; `Math.round` on exact ratios |
| `Progress` | `frontend/src/utils/progress.ts` |
| `Toast` | `frontend/src/hooks/useToast.ts` (and App.tsx's copy of `addToast`) |
| `ParseInt` | `Number.parseInt(s, 10)` and `parseIntWithFallback` in `frontend/src/utils/index.ts`, and `parseInt(s)` without a radix as used for the video size limit |
| `UriComponent` | `encodeURIComponent` and its inverse `decodeURIComponent` (UTF-8, percent escapes) |
| `Api` | `frontend/src/services/api.ts` |
| `Media` | `frontend/src/types.ts` records and the per-record transitions shared by the hooks and `App.tsx` |
| `MediaFiles`, `ImageProcessor`, `VideoProcessor`, `Resize` | `useMediaFiles`, `useImageProcessor`, `useVideoProcessor`, `useResize`/`useTrim` |
| `App` | `frontend/src/App.tsx`, the older single-component version of the same flows |
| `CloudStorageState`, `CloudStorageGallery` | `useCloudStorageState` and the `CloudStorageGallery` component |
| `S3Service`, `MediaRouter` | `backend/services/s3_service.py` and `backend/routers/media.py` |

Points where the code decides differently from what its comments suggest:
- App.tsx and `useMediaFiles` pick the tab after an upload differently. App.tsx switches on every image and on every accepted video, so the last one wins. `useMediaFiles` looks at the whole batch and prefers images. `App.ImageThenVideoDiffers` shows an input where the two disagree.
- `delete_object` and `generate_download_url` re-raise a boto3 `ClientError` as a plain `Exception`. The router's 404 branch for `NoSuchKey` is therefore never reached through the service: any ClientError, NoSuchKey included, answers 500. This is `MediaRouter.DeleteFailureIs500` and `MediaRouter.DownloadFailureIs500`.
- `get_bucket_location` returns `None` when S3 reports `LocationConstraint: None`, which is what S3 reports for `us-east-1`. The `us-east-1` default applies only when the field is absent.
- `loadFiles` re-throws a failed listing after clearing `loading`. The model returns the error as `Failed(error)`. The gallery's upload loop still ends with `finishUpload`.
- The app's own trim (App.tsx) does not validate the range. `useVideoProcessor` rejects anything outside `0 <= start < end <= duration`.

## Model

| member | source | states |
|---|---|---|
| Progress.UpdateByIndex | frontend/src/utils/progress.ts:10-18 | same length; only the row at `index` is patched; an out-of-range index changes nothing |
| Progress.UpdateWhere | frontend/src/utils/progress.ts:46-54 | same length; selected rows are patched, the others are kept; no match means no change |
| Progress.UpdateByKey | frontend/src/utils/progress.ts:28-37 | patches exactly the rows whose key equals the given key, as the predicate version with key equality |
| Progress.UpdateByIndexInRange | frontend/src/utils/progress.ts:15-17 | for an index in range, the result is the list with that one element replaced by its patched value |
| Progress.UpdateByIndexIdempotent | frontend/src/utils/progress.ts:10-18 | applying the same update twice equals applying it once, when the patch is idempotent |
| Progress.UpdateWhereIdempotent | frontend/src/utils/progress.ts:46-54 | the same for predicate updates with an idempotent patch |
| Progress.UpdateByIndexCompose | frontend/src/utils/progress.ts:10-18 | two updates at one index equal one update with the composed patch |
| Progress.Merge | frontend/src/utils/progress.ts:15-17 | `{ ...item, ...updates }`: each field comes from the patch when present, else from the item |
| Progress.MergeIdempotent | frontend/src/utils/progress.ts:15-17 | merging the same partial update twice equals merging it once |
| Progress.MergeTwice | frontend/src/utils/progress.ts:15-17 | two merges in sequence: the later patch wins field by field |
| Toast.Without | frontend/src/hooks/useToast.ts:15-17 | the kept toasts are exactly those with a different id; never longer |
| Toast.WithoutAppend | frontend/src/hooks/useToast.ts:15-17 | filtering distributes over concatenation, so order is kept |
| Toast.WithoutAbsent | frontend/src/hooks/useToast.ts:15-17 | removing an id that is not present changes nothing |
| Toast.WithoutIdempotent | frontend/src/hooks/useToast.ts:15-17 | removing an id twice equals removing it once |
| Toast.Toasts.constructor | frontend/src/hooks/useToast.ts:5 | the list starts empty |
| Toast.Toasts.AddToast | frontend/src/hooks/useToast.ts:7-9 | the new toast is appended at the end |
| Toast.Toasts.RemoveToast | frontend/src/hooks/useToast.ts:15-17 | the list becomes the list without that id |
| Toast.Toasts.Expire | frontend/src/hooks/useToast.ts:10-12 | the timer removes the toast by id |
| Toast.ExpireUndoesAdd | frontend/src/hooks/useToast.ts:7-12 | with a fresh id, expiry returns the list to what it was before the add |
| ParseInt.TrimStartSpec | frontend/src/utils/index.ts:8 | `parseInt` skips exactly the leading white space |
| ParseInt.LeadingDigitsSpec | frontend/src/utils/index.ts:8 | the digits read are the longest decimal prefix |
| ParseInt.ParseIntNaN | frontend/src/utils/index.ts:8 | NaN exactly when no digit follows the white space and the optional sign |
| ParseInt.ParseIntWithFallback | frontend/src/utils/index.ts:7-9 | NaN and 0 give the fallback, any other value is returned; 0 comes back only if the fallback is 0 |
| ParseInt.TrimStartSkips | frontend/src/utils/index.ts:8 | leading white space before a non-space character is removed completely |
| ParseInt.LeadingDigitsOf | frontend/src/utils/index.ts:8 | digits followed by a non-digit are read in full and no further |
| ParseInt.UnsignedOf | frontend/src/utils/index.ts:8 | the body after white space and sign is what is read |
| ParseInt.IsNegativeOf | frontend/src/utils/index.ts:8 | the result is negative exactly for a `-` sign |
| ParseInt.ParseIntOf | frontend/src/utils/index.ts:8 | white space, a sign, digits and trailing text parse to the signed value of the digits |
| ParseInt.ZerosValue | frontend/src/utils/index.ts:8 | a string of zeros has value 0 |
| ParseInt.ZeroFallsBack | frontend/src/utils/index.ts:8 | "0", "-0", "  000px" all give the fallback, because `||` treats 0 as missing |
| ParseInt.TrailingTextIgnored | frontend/src/utils/index.ts:8 | "12px" gives 12 |
| ParseInt.DecimalValue | frontend/src/utils/index.ts:8 | the decimal text of n is nonempty digits whose value is n |
| ParseInt.NaNTextIsNaN | frontend/src/utils/index.ts:8 | the text "NaN" parses to NaN |
| ParseInt.SignedDigitsParse | frontend/src/utils/index.ts:8 | a sign followed by digits parses to their signed value |
| ParseInt.ParseIntOfText | frontend/src/utils/index.ts:8 | parsing the decimal text of any integer, or "NaN", gives it back |
| ParseInt.ParseInt | frontend/src/utils/index.ts:8 | `Number.parseInt(s, 10)`: NaN, or the signed value of the longest decimal prefix after white space and sign; stated by `ParseIntNaN`, `ParseIntOf` and `ParseIntOfText` |
| ParseInt.ParseIntNoRadix | frontend/src/hooks/useMediaFiles.ts:5 | `parseInt(s)` without a radix: without a `0x`/`0X` prefix it agrees with radix 10; with one, the value is negative only for a `-` sign |
| ParseInt.LeadingHexDigitsOf | frontend/src/hooks/useMediaFiles.ts:5 | hexadecimal digits followed by anything else are read in full and no further |
| ParseInt.HexParseOf | frontend/src/hooks/useMediaFiles.ts:5 | white space, a sign, `0x` or `0X`, hex digits and trailing text parse to the signed hexadecimal value |
| ParseInt.NoRadixDecimal | frontend/src/hooks/useMediaFiles.ts:5 | decimal digits without the prefix read the same with or without radix 10 |
| ParseInt.HexPrefixDiffers | frontend/src/hooks/useMediaFiles.ts:5 | `0x64` is 100 without a radix and 0 with radix 10 |
| Rounding.Round | frontend/src/services/api.ts:98 | `Math.round(num/den)`: the nearest integer, halves rounded up |
| Rounding.RoundMonotone | frontend/src/services/api.ts:98 | rounding keeps order |
| Rounding.RoundBetween | frontend/src/services/api.ts:98 | a ratio between two integers rounds to a value between them |
| Rounding.RoundUnique | frontend/src/services/api.ts:98 | any integer within half of the ratio, the upper one on a tie, is the rounded value |
| Text.AfterLast | frontend/src/components/CloudStorageGallery.tsx:210 | `split(sep).pop()`: the longest suffix without the separator, preceded by it unless it is the whole string |
| Text.AfterLastOfJoin | frontend/src/components/CloudStorageGallery.tsx:210 | `prefix + sep + last` splits back to `last` |
| Text.Lower | frontend/src/services/api.ts:166 | same length, each character lowered |
| Text.LowerIdempotent | frontend/src/services/api.ts:166 | lowering twice equals lowering once |
| Text.LowerConcat | frontend/src/services/api.ts:166 | lowering distributes over concatenation |
| UriComponent.HexDigit | frontend/src/services/api.ts:24-25 | a digit below 16 becomes an upper-case hex character |
| UriComponent.Escape | frontend/src/services/api.ts:24-25 | a byte becomes `%` and two hex digits |
| UriComponent.Utf8 | frontend/src/services/api.ts:24-25 | a character becomes one to four bytes |
| UriComponent.EscapeAll | frontend/src/services/api.ts:24-25 | three characters per byte |
| UriComponent.EncodeChar | frontend/src/services/api.ts:24-25 | one character becomes one to twelve characters: itself, or three per UTF-8 byte |
| UriComponent.Encode | frontend/src/services/api.ts:24-25 | `encodeURIComponent`: never shorter than the text and at most twelve times longer; its inverse is `DecodeEncode` |
| UriComponent.EncodeAlphabet | frontend/src/services/api.ts:24-25 | the encoding uses only unreserved characters, `%` and hex digits |
| UriComponent.EscapeAllAlphabet | frontend/src/services/api.ts:24-25 | escaped bytes use only `%` and hex digits |
| UriComponent.EncodeHasNoSlash | frontend/src/services/api.ts:24-25 | an encoded key has no `/`, so it stays one path segment |
| UriComponent.EncodeUnreserved | frontend/src/services/api.ts:24-25 | text made of unreserved characters is left as is |
| UriComponent.Utf8All | frontend/src/services/api.ts:24-25 | every encoded value is a byte |
| UriComponent.Utf8Shape | frontend/src/services/api.ts:24-25 | the lead byte announces the length, the rest are continuation bytes, and they decode to the code point |
| UriComponent.Utf8DecodeChar | frontend/src/services/api.ts:24-25 | decoding reads one encoded character and goes on with the rest |
| UriComponent.Utf8RoundTrip | frontend/src/services/api.ts:24-25 | UTF-8 decoding inverts UTF-8 encoding |
| UriComponent.HexRoundTrip | frontend/src/services/api.ts:24-25 | reading the two hex digits of a byte gives its two halves |
| UriComponent.PercentDecodeEscapes | frontend/src/services/api.ts:24-25 | escaped bytes decode back to the bytes, then decoding continues |
| UriComponent.PercentDecodeEncode | frontend/src/services/api.ts:24-25 | percent decoding of an encoding gives the UTF-8 bytes of the text |
| UriComponent.DecodeEncode | frontend/src/services/api.ts:24-25 | `decodeURIComponent(encodeURIComponent(s)) == s` for every text |
| UriComponent.EncodeInjective | frontend/src/services/api.ts:24-25 | different keys give different URL segments |
| Api.LowerKeepsDots | frontend/src/services/api.ts:166 | lowering neither adds nor removes dots |
| Api.IsMediaFile | frontend/src/services/api.ts:165-168 | the lowered text after the last dot is nonempty and one of the media extensions; stated by `IsMediaFileByExtension` and the examples below |
| Api.IsMediaFileByExtension | frontend/src/services/api.ts:165-168 | a key is media exactly when its last extension, lowered, is in the list |
| Api.IsMediaFileIgnoresCase | frontend/src/services/api.ts:165-168 | the test ignores case |
| Api.IsMediaFileWithoutDot | frontend/src/services/api.ts:165-168 | a key without a dot is tested as a whole, as `split('.').pop()` returns it |
| Api.IsMediaFileTrailingDot | frontend/src/services/api.ts:165-168 | a key ending in a dot is not media |
| Api.UpperCaseJpgIsMedia | frontend/src/services/api.ts:165-168 | "A.JPG" is media |
| Api.DoubleExtensionIsNotMedia | frontend/src/services/api.ts:165-168 | "a.mp4.txt" is not media; only the last extension counts |
| Api.BareExtensionIsMedia | frontend/src/services/api.ts:165-168 | the bare key "mp4" counts as media |
| Api.DownloadUrlPath | frontend/src/services/api.ts:24 | the path is the prefix and one segment without `/` that decodes to the key |
| Api.DeleteFilePath | frontend/src/services/api.ts:25 | the same for the delete path |
| Api.ContentTypeOrDefault | frontend/src/services/api.ts:48 | an empty content type becomes `application/octet-stream`, any other is kept |
| Api.UploadPercent | frontend/src/services/api.ts:97-99 | no report without a total; otherwise the rounded percentage, within 0..100 while loaded <= total |
| Api.UploadPercentMonotone | frontend/src/services/api.ts:97-99 | more bytes never report less, and the full total reports 100 |
| Media.ApplyIdempotent | frontend/src/hooks/useMediaFiles.ts:12-14 | applying the same partial update twice equals applying it once |
| Media.Apply | frontend/src/hooks/useMediaFiles.ts:12-14 | `{ ...f, ...updates }`: each field from the update when present, else from the record; stated by `ApplyIdempotent` |
| Media.ImageIsNotVideo | frontend/src/hooks/useMediaFiles.ts:142-145 | no file is both an image and a video |
| Media.IsImage | frontend/src/hooks/useMediaFiles.ts:142 | `type.startsWith("image/")`; never also a video, by `ImageIsNotVideo` |
| Media.IsVideo | frontend/src/hooks/useMediaFiles.ts:145 | `type.startsWith("video/")`; never also an image, by `ImageIsNotVideo` |
| Media.ImageRecord | frontend/src/hooks/useMediaFiles.ts:79-93 | the record `processImage` returns: the file and preview, its size and dimensions, not processing, no error |
| Media.VideoRecord | frontend/src/hooks/useMediaFiles.ts:95-118 | the record `processVideo` returns: not processing; without an error exactly when the probe succeeded, then with its duration and thumbnail, else with the probe's message |
| Media.Initial | frontend/src/hooks/useMediaFiles.ts:131-140 | a new record holds its file, is processing and has no error |
| Media.TooLargeIsStrict | frontend/src/hooks/useMediaFiles.ts:146 | exactly the limit in bytes is accepted, one byte more is rejected |
| Media.TooLarge | frontend/src/hooks/useMediaFiles.ts:146 | more bytes than the limit in megabytes; a NaN limit rejects nothing; stated by `TooLargeIsStrict` |
| Media.MegabytesTextWhole | frontend/src/hooks/useMediaFiles.ts:152 | a whole number of megabytes prints with `.0` |
| Media.MegabytesText | frontend/src/hooks/useMediaFiles.ts:152 | `toFixed(1)` of the size in megabytes; stated by `MegabytesTextNearest` |
| Media.MegabytesTextNearest | frontend/src/hooks/useMediaFiles.ts:152 | the text is the nearest tenth of a megabyte, the larger on a tie, as whole megabytes, a dot and one digit |
| Media.MegabytesTextTie | frontend/src/hooks/useMediaFiles.ts:152 | 1.25 MB prints as 1.3 |
| Media.TooLargeMessage | frontend/src/hooks/useMediaFiles.ts:152 | the size text of `MegabytesText` and the limit's number text in the fixed sentence; `TooLargeRecord` carries it |
| Media.TooLargeRecord | frontend/src/hooks/useMediaFiles.ts:147-154 | a rejected video stops processing and carries the size message |
| Media.SettledShape | frontend/src/hooks/useMediaFiles.ts:142-159 | images and accepted videos end without an error; rejected videos end with the message; other files stay as first added |
| Media.Settled | frontend/src/hooks/useMediaFiles.ts:142-159 | the record a file settles to: processed image, rejected or processed video, or the initial record; stated by `SettledShape` |
| Media.ReplaceFile | frontend/src/hooks/useMediaFiles.ts:144 | replacing the records of one `File` keeps the list length |
| Media.UploadStep | frontend/src/hooks/useMediaFiles.ts:132-160 | one iteration adds exactly one record |
| Media.UploadAll | frontend/src/hooks/useMediaFiles.ts:131-161 | a batch adds exactly one record per file, even for a repeated `File` |
| Media.ChosenTab | frontend/src/hooks/useMediaFiles.ts:122-129 | the tab is kept without a setter or without uploads, and otherwise is the old tab, `images` or `videos` |
| Media.RejectedVideoIgnoresProbe | frontend/src/hooks/useMediaFiles.ts:145-156 | a rejected video's record does not depend on its probe |
| Media.SettledAll | frontend/src/hooks/useMediaFiles.ts:131-159 | one settled record per upload, in order |
| Media.UploadAllSnoc | frontend/src/hooks/useMediaFiles.ts:141-160 | the batch processes one file after another: records and toasts |
| Media.StepFresh | frontend/src/hooks/useMediaFiles.ts:142-159 | a new file's record is appended after the existing ones |
| Media.UploadAllFresh | frontend/src/hooks/useMediaFiles.ts:131-160 | for a batch of new files, the list becomes the old list followed by one settled record per file, in order |
| Media.UploadNotices | frontend/src/hooks/useMediaFiles.ts:146-155 | at most one toast, "Video file too large", exactly for a video over the limit |
| Media.UploadNoticesAll | frontend/src/hooks/useMediaFiles.ts:131-161 | never more toasts than files, each one "Video file too large" |
| Media.ResizedOutcome | frontend/src/hooks/useImageProcessor.ts:54-63 | resizing stops processing and keeps the file; success stores the image, failure stores the error message |
| Media.Resized | frontend/src/hooks/useImageProcessor.ts:54-63 | the record after a resize; stated by `ResizedOutcome` |
| Media.TrimAcceptedIff | frontend/src/hooks/useVideoProcessor.ts:19-20 | a range is accepted exactly when `0 <= start < end <= duration` |
| Media.TrimRejected | frontend/src/hooks/useVideoProcessor.ts:19-20 | the validation guard; stated by `TrimAcceptedIff` |
| Media.NoDurationRejectsAll | frontend/src/hooks/useVideoProcessor.ts:19-20 | without a duration every range is rejected |
| Media.DurationOrZero | frontend/src/hooks/useVideoProcessor.ts:19 | the duration when known, otherwise 0 |
| Media.RequestFor | frontend/src/hooks/useVideoProcessor.ts:37-49 | `-ss start -t (end - start)`: the segment starts at `start` and ends at `end` |
| Media.AcceptedRequest | frontend/src/hooks/useVideoProcessor.ts:37-49 | an accepted range gives a nonnegative seek and a positive length inside the video |
| Media.TrimmedOutcome | frontend/src/hooks/useVideoProcessor.ts:55-77 | trimming stops processing and records the range; success stores the video, failure the error |
| Media.Trimmed | frontend/src/hooks/useVideoProcessor.ts:55-77 | the record after a trim; stated by `TrimmedOutcome` |
| Media.RemoveAt | frontend/src/hooks/useMediaFiles.ts:168 | the element at the index is removed and the rest keep their order; an out-of-range index changes nothing |
| Media.Released | frontend/src/hooks/useMediaFiles.ts:166-167 | the preview is released first, then the thumbnail exactly when there is a non-empty one |
| Media.DownloadChoice | frontend/src/hooks/useMediaFiles.ts:171-194 | the processed image wins over the processed video; nothing to download without either |
| Media.DownloadNotices | frontend/src/hooks/useMediaFiles.ts:192 | one success toast exactly when there is something to save, none otherwise |
| Media.Filter | frontend/src/hooks/useMediaFiles.ts:200-204 | never longer than the input |
| Media.FilterAppend | frontend/src/hooks/useMediaFiles.ts:200-204 | filtering distributes over concatenation |
| Media.FilterMembers | frontend/src/hooks/useMediaFiles.ts:200-204 | a record is kept exactly when it is in the list and passes the test |
| Media.FilteredMembers | frontend/src/hooks/useMediaFiles.ts:200-204 | the images tab shows exactly the images, the videos tab exactly the videos, any other tab everything |
| Media.Filtered | frontend/src/hooks/useMediaFiles.ts:200-204 | never longer than the list; any tab other than images and videos shows the whole list |
| MediaFiles.DefaultLimit | frontend/src/hooks/useMediaFiles.ts:5 | without the variable, the limit is 200 MB; the value `0x64` is read as hexadecimal, 100 MB |
| MediaFiles.ToggleTwice | frontend/src/hooks/useMediaFiles.ts:196-198 | toggling the same card twice restores the state when no card or that card was open; otherwise no card is open |
| MediaFiles.MaxVideoSizeMb | frontend/src/hooks/useMediaFiles.ts:5 | `parseInt` without a radix of the variable, or of `200` when it is unset; stated by `DefaultLimit` |
| MediaFiles.Toggled | frontend/src/hooks/useMediaFiles.ts:196-198 | the open card after a toggle; stated by `ToggleTwice` |
| MediaFiles.MediaStore.constructor | frontend/src/hooks/useMediaFiles.ts:5-10 | empty list, no expanded card, the limit read from the environment |
| MediaFiles.MediaStore.UpdateFile | frontend/src/hooks/useMediaFiles.ts:12-14 | the record at the index is patched by the update; nothing else changes |
| MediaFiles.MediaStore.UploadFiles | frontend/src/hooks/useMediaFiles.ts:120-162 | the tab is chosen from the batch; every file is settled in order; one toast per rejected video |
| MediaFiles.MediaStore.UploadOne | frontend/src/hooks/useMediaFiles.ts:131-159 | one file is added and settled |
| MediaFiles.MediaStore.DeleteFile | frontend/src/hooks/useMediaFiles.ts:164-169 | the record is removed and its preview and thumbnail are released; an out-of-range index changes nothing |
| MediaFiles.MediaStore.DownloadFile | frontend/src/hooks/useMediaFiles.ts:171-194 | saves the chosen output, releases its transient object URL and reports it; nothing happens without an output |
| MediaFiles.MediaStore.HandleToggleExpand | frontend/src/hooks/useMediaFiles.ts:196-198 | the card is opened, or closed if it was open |
| MediaFiles.MediaStore.GetFilteredFiles | frontend/src/hooks/useMediaFiles.ts:200-204 | `Filtered(files, tab)`, so its members are those of `FilteredMembers`; never more records than the list |
| ImageProcessor.MaxWidthOrHeight | frontend/src/hooks/useImageProcessor.ts:51 | the larger of the two sides |
| ImageProcessor.ResizeNotice | frontend/src/hooks/useImageProcessor.ts:57-62 | a success toast exactly when the resize produced an image, otherwise an error toast |
| ImageProcessor.ResizeImage | frontend/src/hooks/useImageProcessor.ts:39-64 | asks the compressor for the larger side, then settles the record with the outcome and a toast |
| ImageProcessor.ResizeSettles | frontend/src/hooks/useImageProcessor.ts:54-63 | after a resize, only that record changes and it is no longer processing |
| VideoProcessor.EngineCalledIff | frontend/src/hooks/useVideoProcessor.ts:10-28 | FFmpeg runs exactly when it is loaded, the index is valid and the range is accepted, with seek `start` and length `end - start` |
| VideoProcessor.RejectedTrimRecord | frontend/src/hooks/useVideoProcessor.ts:19-26 | a rejected range leaves the record not processing, with the validation message |
| VideoProcessor.TrimPathOf | frontend/src/hooks/useVideoProcessor.ts:10-28 | the path `trimVideo` takes; stated by `EngineCalledIff` |
| VideoProcessor.TrimResult | frontend/src/hooks/useVideoProcessor.ts:10-77 | same number of records, and only the record at the index can change |
| VideoProcessor.TrimNotices | frontend/src/hooks/useVideoProcessor.ts:10-77 | one toast on every path but the missing record, a success exactly when the engine ran and produced a video |
| VideoProcessor.TrimVideo | frontend/src/hooks/useVideoProcessor.ts:6-78 | the path taken and the new list are those of the specification functions |
| Resize.NextState | frontend/src/hooks/useResize.ts:30-45 | with the ratio locked, a new width sets the height to the width times the original ratio, rounded, and the reverse; otherwise a plain merge |
| Resize.Merged | frontend/src/hooks/useResize.ts:32 | `{ ...prev, ...updates }`; the unlocked case of `NextState` |
| Resize.Presets | frontend/src/hooks/useResize.ts:14-18 | three presets with distinct captions, each a landscape size with positive sides |
| Resize.LockedHeightIsNearest | frontend/src/hooks/useResize.ts:37 | the computed height is the nearest integer to the exact proportional height |
| Resize.ResizeHook.constructor | frontend/src/hooks/useResize.ts:21-25 | starts at the image's size with the ratio unlocked |
| Resize.ResizeHook.UpdateState | frontend/src/hooks/useResize.ts:30-45 | the new state is `NextState` of the old |
| Resize.ResizeHook.SetDimensions | frontend/src/hooks/useResize.ts:47-49 | sets both sides and keeps the lock |
| Resize.TrimHook.constructor | frontend/src/hooks/useResize.ts:54-58 | starts at the given range |
| Resize.TrimHook.UpdateState | frontend/src/hooks/useResize.ts:60-62 | merges the given ends |
| Resize.TrimHook.SetTrimRange | frontend/src/hooks/useResize.ts:64-66 | sets both ends |
| App.AppLimitBytes | frontend/src/App.tsx:74 | a video is too large exactly above 209715200 bytes |
| App.AppTooLargeMessage | frontend/src/App.tsx:104 | the message names the size with one decimal and the fixed 200MB |
| App.Switches | frontend/src/App.tsx:90-111 | an image or a video within the limit switches the tab; stated by `LastSwitchWins` and `NoSwitchKeepsTab` |
| App.TabAfter | frontend/src/App.tsx:90-112 | after one file the tab is the old one, `images` or `videos` |
| App.TabAfterAll | frontend/src/App.tsx:76-113 | after a batch the tab is still the old one, `images` or `videos` |
| App.TabAfterAllSnoc | frontend/src/App.tsx:76-113 | the tab after a batch is the tab after its files one by one |
| App.LastSwitchWins | frontend/src/App.tsx:90-112 | the last image or accepted video decides the tab |
| App.ImageThenVideoDiffers | frontend/src/App.tsx:90-112 | an image then a video: App.tsx shows videos, `useMediaFiles` shows images |
| App.NoSwitchKeepsTab | frontend/src/App.tsx:76-113 | a batch without images or accepted videos keeps the tab |
| App.AnyRangeReachesEngine | frontend/src/App.tsx:307-344 | App.tsx sends any range to FFmpeg, even a negative length |
| App.TrimPathOf | frontend/src/App.tsx:307-344 | App.tsx never rejects a range; the engine runs exactly when it is loaded and the record exists |
| App.TrimResult | frontend/src/App.tsx:307-383 | same number of records, and only the record at the index can change |
| App.TrimNotices | frontend/src/App.tsx:307-383 | exactly one toast, a success exactly when the engine ran and produced a video |
| App.AppState.constructor | frontend/src/App.tsx:40-43 | empty list on the dashboard tab |
| App.AppState.HandleFileUpload | frontend/src/App.tsx:72-118 | every file is settled in order with the 200 MB limit; the tab follows the last switch |
| App.AppState.UploadOne | frontend/src/App.tsx:76-113 | one file is added and settled, and the tab is updated |
| App.AppState.ResizeImage | frontend/src/App.tsx:235-277 | the record at the index is settled by the resize outcome |
| App.AppState.TrimVideo | frontend/src/App.tsx:307-383 | the path taken and the new list are those of the specification functions |
| App.AppState.DeleteFile | frontend/src/App.tsx:385-390 | the record is removed and its previews released |
| App.AppState.DownloadFile | frontend/src/App.tsx:392-415 | saves the chosen output, releases its transient object URL and reports it; nothing happens without an output |
| App.AppState.GetFilteredFiles | frontend/src/App.tsx:417-421 | `Filtered(files, activeTab)`, so its members are those of `FilteredMembers`; never more records than the list |
| CloudStorageState.FreshForFiveMinutes | frontend/src/hooks/useCloudStorageState.ts:132-139 | a loaded listing is reused for exactly 300000 ms after its timestamp |
| CloudStorageState.StaleStaysStale | frontend/src/hooks/useCloudStorageState.ts:132-139 | once a reload is due, it stays due |
| CloudStorageState.ZeroTimestampAlwaysLoads | frontend/src/hooks/useCloudStorageState.ts:134 | a missing or zero timestamp always reloads |
| CloudStorageState.ShouldLoadFiles | frontend/src/hooks/useCloudStorageState.ts:132-139 | the cache test; stated by `FreshForFiveMinutes`, `StaleStaysStale` and `ZeroTimestampAlwaysLoads` |
| CloudStorageState.WithPreview | frontend/src/hooks/useCloudStorageState.ts:153-169 | only the preview URL changes, and only for media files that got one |
| CloudStorageState.WithPreviews | frontend/src/hooks/useCloudStorageState.ts:153-169 | one file per listed object, same keys and order; non-media files are kept as listed |
| CloudStorageState.PendingItems | frontend/src/hooks/useCloudStorageState.ts:94-98 | one pending row at 0% per file, in order |
| CloudStorageState.SingleRowMatches | frontend/src/hooks/useCloudStorageState.ts:123-125 | a key update on the download row merges it |
| CloudStorageState.CloudStorage.constructor | frontend/src/hooks/useCloudStorageState.ts:68-89 | empty listing, nothing loaded, no transfers, dialog hidden |
| CloudStorageState.CloudStorage.StartUpload | frontend/src/hooks/useCloudStorageState.ts:92-101 | uploading, modal shown, one pending row per file |
| CloudStorageState.CloudStorage.UpdateUploadProgress | frontend/src/hooks/useCloudStorageState.ts:103-105 | the row at the index is merged with the update |
| CloudStorageState.CloudStorage.FinishUpload | frontend/src/hooks/useCloudStorageState.ts:107-109 | only the uploading flag is cleared |
| CloudStorageState.CloudStorage.StartDownload | frontend/src/hooks/useCloudStorageState.ts:112-121 | downloading, modal shown, a single pending row |
| CloudStorageState.CloudStorage.UpdateDownloadProgress | frontend/src/hooks/useCloudStorageState.ts:123-125 | rows with that key are merged with the update |
| CloudStorageState.CloudStorage.FinishDownload | frontend/src/hooks/useCloudStorageState.ts:127-129 | only the downloading flag is cleared |
| CloudStorageState.CloudStorage.LoadFiles | frontend/src/hooks/useCloudStorageState.ts:141-180 | cached exactly when not forced and the cache is fresh, then nothing changes; otherwise loading ends cleared, success stores the files with previews and the timestamp, failure keeps the old listing |
| CloudStorageState.CloudStorage.RefreshFiles | frontend/src/hooks/useCloudStorageState.ts:182-184 | always reloads, ignoring the cache |
| CloudStorageState.CloudStorage.SetFiles | frontend/src/hooks/useCloudStorageState.ts:70 | replaces the listing only |
| CloudStorageState.CloudStorage.ShowDeleteConfirm | frontend/src/hooks/useCloudStorageState.ts:187-189 | the dialog is shown for that file |
| CloudStorageState.CloudStorage.HideDeleteConfirm | frontend/src/hooks/useCloudStorageState.ts:191-193 | the dialog is hidden and forgets the file |
| CloudStorageState.CloudStorage.ShouldLoad | frontend/src/hooks/useCloudStorageState.ts:132-139 | the cache test on the hook's own fields; `LoadFiles` states its use |
| CloudStorageGallery.LastSegmentOr | frontend/src/components/CloudStorageGallery.tsx:210 | the last path segment, else the whole key, else the fallback; nonempty for a nonempty key |
| CloudStorageGallery.NamesOfKeys | frontend/src/components/CloudStorageGallery.tsx:128 | `folder/name` shows and saves as `name`; `folder/` as itself; an empty key as the fallbacks |
| CloudStorageGallery.DisplayName | frontend/src/components/CloudStorageGallery.tsx:210 | a file's label is never empty |
| CloudStorageGallery.DownloadName | frontend/src/components/CloudStorageGallery.tsx:128 | the saved file name is never empty |
| CloudStorageGallery.FinalRow | frontend/src/components/CloudStorageGallery.tsx:99-105 | the row a transfer ends in; stated by `FinalRowSettled` |
| CloudStorageGallery.DownloadNotice | frontend/src/components/CloudStorageGallery.tsx:136-141 | a success toast exactly when the download was sent and did not fail, otherwise an error toast |
| CloudStorageGallery.FinalRowSettled | frontend/src/components/CloudStorageGallery.tsx:99-105 | a transfer row ends completed at 100% exactly on success, otherwise in error |
| CloudStorageGallery.FinalRows | frontend/src/components/CloudStorageGallery.tsx:76-106 | one final row per file |
| CloudStorageGallery.FailureIsLocal | frontend/src/components/CloudStorageGallery.tsx:76-106 | a different outcome for one file changes only that file's row |
| CloudStorageGallery.FilesOf | frontend/src/components/CloudStorageGallery.tsx:72-73 | the files of the attempts, in order |
| CloudStorageGallery.UploadNotices | frontend/src/components/CloudStorageGallery.tsx:100-105 | one toast per file |
| CloudStorageGallery.UploadNotice | frontend/src/components/CloudStorageGallery.tsx:100-105 | a success toast exactly when the bytes were sent and the upload did not fail, otherwise an error toast |
| CloudStorageGallery.WithoutKey | frontend/src/components/CloudStorageGallery.tsx:157 | never longer than the listing |
| CloudStorageGallery.WithoutKeyMembers | frontend/src/components/CloudStorageGallery.tsx:157 | a file is kept exactly when its key differs |
| CloudStorageGallery.WithoutKeyAppend | frontend/src/components/CloudStorageGallery.tsx:157 | the order of the kept files is preserved |
| CloudStorageGallery.WithoutAbsentKey | frontend/src/components/CloudStorageGallery.tsx:157 | deleting a key that is not listed changes nothing |
| CloudStorageGallery.LoadsOnce | frontend/src/components/CloudStorageGallery.tsx:51-56 | across any sequence of tab changes the listing is requested at most once, and exactly once if the cloud tab is ever shown |
| CloudStorageGallery.Gallery.constructor | frontend/src/components/CloudStorageGallery.tsx:47-48 | no tab initialised, no toasts |
| CloudStorageGallery.Gallery.Activate | frontend/src/components/CloudStorageGallery.tsx:51-56 | loads exactly on the first activation of the cloud tab |
| CloudStorageGallery.Gallery.UploadFiles | frontend/src/components/CloudStorageGallery.tsx:72-115 | every file's row ends final; one toast each; then a forced reload; uploading cleared |
| CloudStorageGallery.Gallery.UploadOne | frontend/src/components/CloudStorageGallery.tsx:76-106 | only that file's row becomes final, with its toast |
| CloudStorageGallery.Gallery.ReportUpload | frontend/src/components/CloudStorageGallery.tsx:92-94 | the row shows the last reported percentage |
| CloudStorageGallery.Gallery.HandleDownload | frontend/src/components/CloudStorageGallery.tsx:117-145 | the single row ends final; saved under the last segment of the key exactly when the transfer completed (a 2xx response, api.ts saving only then); one toast |
| CloudStorageGallery.Gallery.ReportDownload | frontend/src/components/CloudStorageGallery.tsx:130-132 | the row shows the last reported percentage |
| CloudStorageGallery.Gallery.HandleDelete | frontend/src/components/CloudStorageGallery.tsx:147-149 | asks for confirmation for that file |
| CloudStorageGallery.Gallery.ConfirmDelete | frontend/src/components/CloudStorageGallery.tsx:151-165 | without a pending file nothing happens; otherwise the delete path is requested, on success the key leaves the listing, a toast reports it, the dialog closes |
| CloudStorageGallery.Gallery.DisplayNames | frontend/src/components/CloudStorageGallery.tsx:209-210 | one label per file, nonempty for a nonempty key |
| S3Service.UploadKey | backend/services/s3_service.py:36 | the key is `uploads/` followed by the file name unchanged |
| S3Service.GenerateUploadUrl | backend/services/s3_service.py:24-52 | asks for a PUT with the content type, valid 3600 s; returns URL, key and lifetime, or the prefixed error |
| S3Service.GenerateDownloadUrl | backend/services/s3_service.py:54-79 | asks for a GET for the key, valid 3600 s; echoes the key, or the prefixed error |
| S3Service.UploadKeysDistinct | backend/services/s3_service.py:36 | different names get different keys |
| S3Service.UploadThenDownloadSameKey | backend/services/s3_service.py:24-79 | the key an upload was granted is the key a download echoes |
| S3Service.InfosOf | backend/services/s3_service.py:97-104 | one entry per object |
| S3Service.InfoOf | backend/services/s3_service.py:99-104 | one object's key, size, timestamp and ETag; `InfosOf` and `ListedKeys` state the listing |
| S3Service.ListObjects | backend/services/s3_service.py:81-111 | an empty bucket lists nothing with count 0; otherwise one entry per object in order, counted; a failure gives the prefixed error |
| S3Service.ListedKeys | backend/services/s3_service.py:97-104 | a key is listed exactly when it is the key of an object |
| S3Service.DeleteObject | backend/services/s3_service.py:113-130 | success message with the key, or the prefixed error |
| S3Service.GetBucketLocation | backend/services/s3_service.py:132-143 | the constraint if present (possibly None), `us-east-1` if absent, `unknown` on failure |
| S3Service.DefaultRegionOnlyWhenAbsent | backend/services/s3_service.py:132-143 | `us-east-1` is reported only when the field is absent or says so |
| MediaRouter.ContentTypeOf | backend/routers/media.py:34 | a missing content type becomes `application/octet-stream` |
| MediaRouter.Unkeyed | backend/routers/media.py:116-149 | the upload-URL and listing handlers: success passes through; a ClientError is 500 with the endpoint's prefix and the error text; any other exception 500 "Unexpected error" |
| MediaRouter.Keyed | backend/routers/media.py:152-185 | the download-URL and delete handlers: an empty key is 400 before the service runs; success passes through; a ClientError naming NoSuchKey is 404, any other failure 500, each with its detail |
| MediaRouter.KeyedClientStatus | backend/routers/media.py:176-180 | a ClientError answers 404 exactly when its text names NoSuchKey, otherwise 500 |
| MediaRouter.UploadUrlEndpoint | backend/routers/media.py:116-149 | succeeds exactly when the service does; any failure is 500; a ClientError's detail has the upload-URL prefix |
| MediaRouter.DownloadUrlEndpoint | backend/routers/media.py:152-185 | an empty key is 400; otherwise succeeds exactly when the service does; a ClientError's detail has the download-URL prefix |
| MediaRouter.ListFilesEndpoint | backend/routers/media.py:188-217 | succeeds exactly when the service does; any failure is 500; a ClientError's detail has the listing prefix |
| MediaRouter.DeleteFileEndpoint | backend/routers/media.py:220-253 | an empty key is 400; otherwise succeeds exactly when the service does; a ClientError's detail has the delete prefix |
| MediaRouter.StatusCodes | backend/routers/media.py:116-253 | the keyed endpoints answer only 400, 404 or 500; the others never 400 or 404 |
| MediaRouter.EmptyKeyIgnoresService | backend/routers/media.py:170-171 | an empty key never reaches the service |
| MediaRouter.Raising | backend/services/s3_service.py:51-52 | the service's failures reach the router as plain exceptions |
| MediaRouter.DeleteFailureIs500 | backend/routers/media.py:244-253 | a failed S3 delete, NoSuchKey included, answers 500 with the wrapped message |
| MediaRouter.DownloadFailureIs500 | backend/routers/media.py:176-185 | a failed download-URL request answers 500 with the wrapped message |
| MediaRouter.DeleteSucceeds | backend/routers/media.py:241-243 | a successful delete returns the message and the key |

## Left out

- I/O and foreign calls: canvas, `browser-image-compression`, FFmpeg, axios/XHR, boto3 and `Date.now()`. Their outcomes are parameters, and the model does not say how they are produced.
- Timers and random ids: the toast's `setTimeout` is the separate `Expire` call, and ids are parameters.
- Concurrency: React batching, stale closures and interleaved async handlers are not modelled. Every handler runs to completion in one step. `Promise.all` over the previews is an in-order map.
- Rendering components such as `Sidebar`, `CardPreview` and the dialogs, apart from the gallery's label computation.
- `parseFloatWithFallback` is not used by the modelled flows.
- Floating point: sizes are exact, and `toFixed(1)` is modelled only for the size in megabytes. Trim times are exact reals; NaN durations are not modelled.
- `Text.Lower`: ASCII-only lowering, because the media extensions are ASCII.
- `ParseInt.ParseInt`: exact integers, without the loss of precision above 2^53. The same holds for `ParseInt.ParseIntNoRadix`.
- `UriComponent.Encode`: a Dafny `char` is never a lone surrogate, so the `URIError` that `encodeURIComponent` throws for one is not modelled.
- `Resize.NextState`: requires positive initial sizes, because the hook divides by them. A zero-sized image (division giving Infinity or NaN) is not modelled.
- `CloudStorageGallery.Gallery.UploadOne`: the transient `uploading` status set before each transfer is not stated, only the final row.
- `CloudStorageGallery.Gallery.UploadFiles` and `Activate`: the re-thrown listing error is an outcome value, not an unhandled rejection.
- Console logging.
- `MediaFiles.MediaStore.DeleteFile` and `App.AppState.DeleteFile`: for an index with no record the source throws an uncaught TypeError at `fileToDelete.preview` before any change. The model states only that nothing changes. The cards never pass such an index.
- Object-URL leaks and image-load hangs: preview handles are tracked only through the `revoked` log.
- The probes' `URL.revokeObjectURL(video.src)` calls (useMediaFiles.ts:36 and 68, App.tsx:140 and 172) are not in the `revoked` log. The log holds what `deleteFile` releases and each download's transient URL.
- The `CloudFile` type is imported from `types.ts` but not defined there. It is modelled from the listing's fields plus an optional preview URL.
- `LastModified.isoformat()` is taken as given text.
- `useDragAndDrop`, `useFFmpeg` and `main.py` configuration are not part of this model.
