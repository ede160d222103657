/** The non-network parts of `services/api.ts`: the media-key test used to decide which
    cloud files get a preview URL, the endpoint paths, the content-type default and the
    upload-progress percentage. */
module Api {
  import opened Wrappers
  import Text
  import Rounding
  import UriComponent

  /** The extensions `isMediaFile` accepts (also `constants/media.ts`). */
  const MediaExtensions: set<string> := {"jpg", "jpeg", "png", "gif", "webp", "mp4", "mov", "avi", "webm"}

  /** `isMediaFile`: the lower-cased text after the last `.` is a known extension. */
  predicate IsMediaFile(key: string) {
    var ext := Text.AfterLast(Text.Lower(key), '.');
    ext != [] && ext in MediaExtensions
  }

  lemma LowerKeepsDots(s: string)
    ensures ('.' in Text.Lower(s)) <==> ('.' in s)
  {
    if '.' in s {
      var i :| 0 <= i < |s| && s[i] == '.';
      assert Text.Lower(s)[i] == '.';
    }
  }

  /** Only the last extension counts, whatever its case. */
  lemma IsMediaFileByExtension(stem: string, ext: string)
    requires '.' !in ext
    ensures IsMediaFile(stem + "." + ext) <==> Text.Lower(ext) in MediaExtensions
  {
    Text.LowerConcat(stem + ".", ext);
    Text.LowerConcat(stem, ".");
    LowerKeepsDots(ext);
    Text.AfterLastOfJoin(Text.Lower(stem), '.', Text.Lower(ext));
    assert Text.Lower(".") == ".";
    assert Text.Lower(stem + "." + ext) == Text.Lower(stem) + ['.'] + Text.Lower(ext);
  }

  /** The test does not depend on case: `A.JPG` is a media key like `a.jpg`. */
  lemma IsMediaFileIgnoresCase(key: string)
    ensures IsMediaFile(Text.Lower(key)) == IsMediaFile(key)
  {
    Text.LowerIdempotent(key);
  }

  /** A key without a `.` is its own extension. */
  lemma IsMediaFileWithoutDot(key: string)
    requires '.' !in key
    ensures IsMediaFile(key) <==> Text.Lower(key) in MediaExtensions
  {
    LowerKeepsDots(key);
  }

  /** A key ending in `.` has an empty extension and is never a media key. */
  lemma IsMediaFileTrailingDot(key: string)
    requires |key| > 0 && key[|key| - 1] == '.'
    ensures !IsMediaFile(key)
  {
    assert Text.Lower(key)[|key| - 1] == '.';
  }

  /** `A.JPG` is a media key. */
  lemma UpperCaseJpgIsMedia()
    ensures IsMediaFile("A.JPG")
  {
    IsMediaFileByExtension("A", "JPG");
    assert "A" + "." + "JPG" == "A.JPG";
    ExampleExtensions();
  }

  /** `a.mp4.txt` is not: only its last extension counts. */
  lemma DoubleExtensionIsNotMedia()
    ensures !IsMediaFile("a.mp4.txt")
  {
    IsMediaFileByExtension("a.mp4", "txt");
    assert "a.mp4" + "." + "txt" == "a.mp4.txt";
    ExampleExtensions();
  }

  /** The bare key `mp4` counts as a media key. */
  lemma BareExtensionIsMedia()
    ensures IsMediaFile("mp4")
  {
    IsMediaFileWithoutDot("mp4");
    ExampleExtensions();
  }

  /** The extensions used in the examples above, lower-cased and looked up. */
  lemma ExampleExtensions()
    ensures Text.Lower("JPG") == "jpg" && "jpg" in MediaExtensions
    ensures Text.Lower("txt") == "txt" && "txt" !in MediaExtensions
    ensures Text.Lower("mp4") == "mp4" && "mp4" in MediaExtensions
  {
    LowerExamples();
  }

  lemma LowerExamples()
    ensures Text.Lower("JPG") == "jpg" && Text.Lower("txt") == "txt" && Text.Lower("mp4") == "mp4"
  {
    var l := Text.Lower("JPG");
    assert l[0] == Text.LowerChar('J') == 'j';
    assert l[1] == Text.LowerChar('P') == 'p';
    assert l[2] == Text.LowerChar('G') == 'g';
  }

  const ListFilesPath: string := "/media/files"
  const UploadUrlPath: string := "/media/upload-url"
  const DownloadUrlPrefix: string := "/media/download-url/"
  const DeleteFilePrefix: string := "/media/files/"

  /** `apiEndpoints.downloadUrl(key)`. */
  function DownloadUrlPath(key: string): (r: string)
    ensures Text.StartsWith(r, DownloadUrlPrefix)
    ensures UriComponent.Decode(r[|DownloadUrlPrefix|..]) == Some(key)
    ensures '/' !in r[|DownloadUrlPrefix|..]
  {
    var enc := UriComponent.Encode(key);
    UriComponent.DecodeEncode(key);
    UriComponent.EncodeHasNoSlash(key);
    assert (DownloadUrlPrefix + enc)[|DownloadUrlPrefix|..] == enc;
    DownloadUrlPrefix + enc
  }

  /** `apiEndpoints.deleteFile(key)`. */
  function DeleteFilePath(key: string): (r: string)
    ensures Text.StartsWith(r, DeleteFilePrefix)
    ensures UriComponent.Decode(r[|DeleteFilePrefix|..]) == Some(key)
    ensures '/' !in r[|DeleteFilePrefix|..]
  {
    var enc := UriComponent.Encode(key);
    UriComponent.DecodeEncode(key);
    UriComponent.EncodeHasNoSlash(key);
    assert (DeleteFilePrefix + enc)[|DeleteFilePrefix|..] == enc;
    DeleteFilePrefix + enc
  }

  const OctetStream: string := "application/octet-stream"

  /** `request.contentType || 'application/octet-stream'`. */
  function ContentTypeOrDefault(contentType: string): (r: string)
    ensures r != []
    ensures contentType != [] ==> r == contentType
    ensures contentType == [] ==> r == OctetStream
  {
    if contentType == [] then OctetStream else contentType
  }

  /** The percentage `onUploadProgress` reports: `Math.round(loaded / total * 100)`,
      and nothing at all while `total` is unknown or zero. */
  function UploadPercent(loaded: nat, total: nat): (r: Option<int>)
    ensures r.Some? <==> total != 0
    ensures r.Some? ==> 2 * r.value * total <= 200 * loaded + total < 2 * (r.value + 1) * total
    ensures r.Some? && loaded <= total ==> 0 <= r.value <= 100
  {
    if total == 0 then None
    else if loaded <= total then
      Rounding.MulMonotone(loaded, total, 100);
      Rounding.RoundBetween(100 * loaded, total, 0, 100);
      Some(Rounding.Round(100 * loaded, total))
    else Some(Rounding.Round(100 * loaded, total))
  }

  /** More bytes sent never lowers the reported percentage, and a finished transfer reports 100. */
  lemma UploadPercentMonotone(a: nat, b: nat, total: nat)
    requires total != 0 && a <= b
    ensures UploadPercent(a, total).value <= UploadPercent(b, total).value
    ensures UploadPercent(total, total) == Some(100)
  {
    Rounding.RoundMonotone(100 * a, 100 * b, total);
    Rounding.RoundBetween(100 * total, total, 100, 100);
  }
}
