/** `backend/services/s3_service.py`: presigned URLs, listing, deletion and the bucket
    location, with the boto3 client as a parameter. A client failure (`ClientError`) is
    re-raised as a plain `Exception` whose message is the returned `Err`. */
module S3Service {
  import opened Wrappers
  import Text

  /** A `botocore` `ClientError`, by its text `str(e)`. */
  datatype ClientError = ClientError(text: string)

  /** The operations the presigner is asked to sign. */
  datatype Operation = PutObject | GetObject

  /** The arguments of `generate_presigned_url`. */
  datatype PresignRequest = PresignRequest(operation: Operation, bucket: string, key: string,
                                           contentType: Option<string>, expiresIn: int)

  /** The boto3 presigner: what it answers to each request. */
  type Presigner = PresignRequest -> Result<string, ClientError>

  /** The dictionary returned for a presigned URL. */
  datatype PresignedUrl = PresignedUrl(url: string, key: string, expiresIn: int)

  /** Every presigned URL lives one hour. */
  const UrlLifetime: int := 3600

  /** The key an upload is stored under: the name as given, below `uploads/`. */
  function UploadKey(filename: string): (r: string)
    ensures Text.StartsWith(r, "uploads/") && r[8..] == filename
  {
    "uploads/" + filename
  }

  /** `generate_upload_url(filename, content_type)`. */
  function GenerateUploadUrl(presign: Presigner, bucket: string, filename: string, contentType: string)
    : (r: Result<PresignedUrl, string>)
    ensures var request := PresignRequest(PutObject, bucket, UploadKey(filename), Some(contentType), UrlLifetime);
      match presign(request)
      case Ok(url) => r == Ok(PresignedUrl(url, "uploads/" + filename, 3600))
      case Err(e) => r == Err("S3 upload URL generation failed: " + e.text)
  {
    var key := UploadKey(filename);
    match presign(PresignRequest(PutObject, bucket, key, Some(contentType), UrlLifetime))
    case Ok(url) => Ok(PresignedUrl(url, key, UrlLifetime))
    case Err(e) => Err("S3 upload URL generation failed: " + e.text)
  }

  /** `generate_download_url(key)`: the key is echoed back unchanged. */
  function GenerateDownloadUrl(presign: Presigner, bucket: string, key: string): (r: Result<PresignedUrl, string>)
    ensures var request := PresignRequest(GetObject, bucket, key, None, UrlLifetime);
      match presign(request)
      case Ok(url) => r == Ok(PresignedUrl(url, key, 3600))
      case Err(e) => r == Err("S3 download URL generation failed: " + e.text)
  {
    match presign(PresignRequest(GetObject, bucket, key, None, UrlLifetime))
    case Ok(url) => Ok(PresignedUrl(url, key, UrlLifetime))
    case Err(e) => Err("S3 download URL generation failed: " + e.text)
  }

  /** Two different file names are stored under two different keys, and never outside
      `uploads/`; the name itself is not sanitised, so `../x` yields `uploads/../x`. */
  lemma UploadKeysDistinct(a: string, b: string)
    requires a != b
    ensures UploadKey(a) != UploadKey(b)
  {
    assert UploadKey(a)[8..] == a && UploadKey(b)[8..] == b;
  }

  /** An upload URL, once granted, is for the key a download of the same file asks for. */
  lemma UploadThenDownloadSameKey(presign: Presigner, bucket: string, filename: string, contentType: string)
    requires GenerateUploadUrl(presign, bucket, filename, contentType).Ok?
    ensures var key := GenerateUploadUrl(presign, bucket, filename, contentType).value.key;
      key == UploadKey(filename)
      && (GenerateDownloadUrl(presign, bucket, key).Ok? ==> GenerateDownloadUrl(presign, bucket, key).value.key == key)
  {
  }

  /** One entry of `list_objects_v2`'s `Contents`; `LastModified.isoformat()` is taken as
      given text. */
  datatype S3Object = S3Object(key: string, size: int, lastModified: string, etag: string)

  /** The `list_objects_v2` response: `Contents` is absent when the bucket is empty. */
  datatype ListResponse = ListResponse(contents: Option<seq<S3Object>>)

  /** One entry of the returned `objects`. */
  datatype ObjectInfo = ObjectInfo(key: string, size: int, lastModified: string, etag: string)

  /** The returned listing. */
  datatype Listing = Listing(objects: seq<ObjectInfo>, count: int)

  /** The field-by-field mapping of one entry. */
  function InfoOf(o: S3Object): ObjectInfo {
    ObjectInfo(o.key, o.size, o.lastModified, o.etag)
  }

  /** The objects of a listing, one per entry, in order. */
  function InfosOf(contents: seq<S3Object>): (r: seq<ObjectInfo>)
    ensures |r| == |contents|
  {
    seq(|contents|, i requires 0 <= i < |contents| => InfoOf(contents[i]))
  }

  /** `list_objects()`: with `Contents`, build the objects one by one and count them. */
  method ListObjects(response: Result<ListResponse, ClientError>) returns (r: Result<Listing, string>)
    ensures response.Err? ==> r == Err("S3 list objects failed: " + response.error.text)
    ensures response.Ok? ==> r.Ok? && r.value.count == |r.value.objects|
    ensures response.Ok? && response.value.contents.None? ==> r == Ok(Listing([], 0))
    ensures response.Ok? && response.value.contents.Some? ==> r.value.objects == InfosOf(response.value.contents.value)
  {
    if response.Err? {
      return Err("S3 list objects failed: " + response.error.text);
    }
    if response.value.contents.None? {
      return Ok(Listing([], 0));
    }
    var contents := response.value.contents.value;
    var objects: seq<ObjectInfo> := [];
    var i := 0;
    while i < |contents|
      invariant 0 <= i <= |contents|
      invariant objects == InfosOf(contents[..i])
    {
      assert InfosOf(contents[..i + 1]) == InfosOf(contents[..i]) + [InfoOf(contents[i])];
      objects := objects + [ObjectInfo(contents[i].key, contents[i].size, contents[i].lastModified, contents[i].etag)];
      i := i + 1;
    }
    assert contents[..|contents|] == contents;
    return Ok(Listing(objects, |objects|));
  }

  /** Every listed key is the key of an entry, and every entry's key is listed. */
  lemma ListedKeys(contents: seq<S3Object>, key: string)
    ensures (exists i :: 0 <= i < |contents| && InfosOf(contents)[i].key == key)
        <==> (exists i :: 0 <= i < |contents| && contents[i].key == key)
  {
    if exists i :: 0 <= i < |contents| && contents[i].key == key {
      var i :| 0 <= i < |contents| && contents[i].key == key;
      assert InfosOf(contents)[i].key == key;
    }
  }

  /** The dictionary returned by a deletion. */
  datatype DeleteReply = DeleteReply(message: string, key: string)

  /** `delete_object(key)`: `failure` is the client's error, if it raised one. */
  function DeleteObject(key: string, failure: Option<ClientError>): (r: Result<DeleteReply, string>)
    ensures failure.None? ==> r == Ok(DeleteReply("Object deleted successfully", key))
    ensures failure.Some? ==> r == Err("S3 delete object failed: " + failure.value.text)
  {
    match failure
    case None => Ok(DeleteReply("Object deleted successfully", key))
    case Some(e) => Err("S3 delete object failed: " + e.text)
  }

  /** The `get_bucket_location` response: `LocationConstraint` absent, or present with a
      value that may be `None`. */
  datatype LocationResponse = Absent | Present(constraint: Option<string>)

  /** `get_bucket_location()`: the constraint when present (possibly `None`), `us-east-1`
      when absent, and `unknown` when the client fails. It never raises. */
  function GetBucketLocation(response: Result<LocationResponse, ClientError>): (r: Option<string>)
    ensures response.Err? ==> r == Some("unknown")
    ensures response == Ok(Absent) ==> r == Some("us-east-1")
    ensures response.Ok? && response.value.Present? ==> r == response.value.constraint
  {
    match response
    case Err(_) => Some("unknown")
    case Ok(Absent) => Some("us-east-1")
    case Ok(Present(constraint)) => constraint
  }

  /** The default region is reported only when the key is absent: a present `None` stays
      `None`, and a client failure is `unknown`, never a region guess. */
  lemma DefaultRegionOnlyWhenAbsent(response: Result<LocationResponse, ClientError>)
    requires GetBucketLocation(response) == Some("us-east-1")
    ensures response == Ok(Absent) || response == Ok(Present(Some("us-east-1")))
  {
  }
}
