/** `backend/routers/media.py`: each endpoint's decision between the service's result and
    an HTTP error, by key emptiness and by the kind of exception raised. */
module MediaRouter {
  import opened Wrappers
  import Text
  import S3Service

  /** What a service call can raise into an endpoint: a `ClientError` (by its text) or any
      other `Exception` (by its message). */
  datatype Raised = RaisedClientError(text: string) | RaisedException(message: string)

  /** An endpoint's answer: the response model, or an `HTTPException`. */
  datatype Response<T> = Success(body: T) | HttpError(status: int, detail: string)

  /** `UploadURLRequest`: `content_type` defaults to binary. */
  datatype UploadUrlRequest = UploadUrlRequest(filename: string, contentType: Option<string>)

  const DefaultContentType: string := "application/octet-stream"

  /** The content type the endpoint passes on: the given one, or the default when the
      field is missing. */
  function ContentTypeOf(request: UploadUrlRequest): (r: string)
    ensures request.contentType.None? ==> r == "application/octet-stream"
    ensures request.contentType.Some? ==> r == request.contentType.value
  {
    request.contentType.GetOr(DefaultContentType)
  }

  /** The 404-or-500 choice for a `ClientError` on a keyed endpoint. */
  function KeyedClientStatus(text: string): (r: int)
    ensures r == 404 <==> Text.Contains(text, "NoSuchKey")
    ensures r == 404 || r == 500
  {
    if Text.Contains(text, "NoSuchKey") then 404 else 500
  }

  /** The handler shape of the endpoints without a key (`generate_upload_url`,
      `list_files`): no 400 and no 404; a `ClientError` is a 500 whose detail is the
      endpoint's own prefix and the error text, any other exception a 500 "Unexpected error". */
  function Unkeyed<T>(call: Result<T, Raised>, clientPrefix: string): (r: Response<T>)
    ensures call.Ok? ==> r == Success(call.value)
    ensures call.Err? ==> r.HttpError? && r.status == 500
    ensures call.Err? && call.error.RaisedClientError? ==> r.detail == clientPrefix + call.error.text
    ensures call.Err? && call.error.RaisedException? ==> r.detail == "Unexpected error: " + call.error.message
  {
    match call
    case Ok(result) => Success(result)
    case Err(RaisedClientError(text)) => HttpError(500, clientPrefix + text)
    case Err(RaisedException(message)) => HttpError(500, "Unexpected error: " + message)
  }

  /** The handler shape of the endpoints with a key (`generate_download_url`,
      `delete_file`): an empty key is refused with 400 before the service is consulted; a
      `ClientError` naming `NoSuchKey` is a 404, any other failure a 500. */
  function Keyed<T>(key: string, service: string -> Result<T, Raised>, clientPrefix: string): (r: Response<T>)
    ensures key == [] ==> r == HttpError(400, "Key is required")
    ensures key != [] && service(key).Ok? ==> r == Success(service(key).value)
    ensures key != [] && service(key).Err? ==> r.HttpError? && (r.status == 404 <==>
      service(key).error.RaisedClientError? && Text.Contains(service(key).error.text, "NoSuchKey"))
    ensures key != [] && service(key).Err? ==> r.HttpError? && r.status in {404, 500}
    ensures key != [] && service(key).Err? && service(key).error.RaisedClientError? ==>
      r.HttpError? && r.detail == clientPrefix + service(key).error.text
    ensures key != [] && service(key).Err? && service(key).error.RaisedException? ==>
      r == HttpError(500, "Unexpected error: " + service(key).error.message)
  {
    if key == [] then HttpError(400, "Key is required")
    else match service(key)
      case Ok(result) => Success(result)
      case Err(RaisedClientError(text)) => HttpError(KeyedClientStatus(text), clientPrefix + text)
      case Err(RaisedException(message)) => HttpError(500, "Unexpected error: " + message)
  }

  /** `generate_upload_url`. */
  function UploadUrlEndpoint<T>(call: Result<T, Raised>): (r: Response<T>)
    ensures r.Success? <==> call.Ok?
    ensures r.HttpError? ==> r.status == 500
    ensures call.Err? && call.error.RaisedClientError? ==> r.detail == "Failed to generate upload URL: " + call.error.text
  {
    Unkeyed(call, "Failed to generate upload URL: ")
  }

  /** `generate_download_url`. */
  function DownloadUrlEndpoint<T>(key: string, service: string -> Result<T, Raised>): (r: Response<T>)
    ensures key == [] ==> r == HttpError(400, "Key is required")
    ensures key != [] ==> (r.Success? <==> service(key).Ok?)
    ensures key != [] && service(key).Err? && service(key).error.RaisedClientError? ==>
      r.detail == "Failed to generate download URL: " + service(key).error.text
  {
    Keyed(key, service, "Failed to generate download URL: ")
  }

  /** `list_files`. */
  function ListFilesEndpoint<T>(call: Result<T, Raised>): (r: Response<T>)
    ensures r.Success? <==> call.Ok?
    ensures r.HttpError? ==> r.status == 500
    ensures call.Err? && call.error.RaisedClientError? ==> r.detail == "Failed to list objects: " + call.error.text
  {
    Unkeyed(call, "Failed to list objects: ")
  }

  /** `delete_file`. */
  function DeleteFileEndpoint<T>(key: string, service: string -> Result<T, Raised>): (r: Response<T>)
    ensures key == [] ==> r == HttpError(400, "Key is required")
    ensures key != [] ==> (r.Success? <==> service(key).Ok?)
    ensures key != [] && service(key).Err? && service(key).error.RaisedClientError? ==>
      r.detail == "Failed to delete object: " + service(key).error.text
  {
    Keyed(key, service, "Failed to delete object: ")
  }

  /** Every endpoint answers 200, 400, 404 or 500; only keyed endpoints answer 400 or 404. */
  lemma StatusCodes<T>(key: string, service: string -> Result<T, Raised>, call: Result<T, Raised>)
    ensures var r := DownloadUrlEndpoint(key, service); r.HttpError? ==> r.status in {400, 404, 500}
    ensures var r := DeleteFileEndpoint(key, service); r.HttpError? ==> r.status in {400, 404, 500}
    ensures UploadUrlEndpoint(call).HttpError? ==> UploadUrlEndpoint(call).status !in {400, 404}
    ensures ListFilesEndpoint(call).HttpError? ==> ListFilesEndpoint(call).status !in {400, 404}
  {
  }

  /** An empty key never reaches the service: any two services give the same answer. */
  lemma EmptyKeyIgnoresService<T>(s1: string -> Result<T, Raised>, s2: string -> Result<T, Raised>)
    ensures DownloadUrlEndpoint("", s1) == DownloadUrlEndpoint("", s2)
    ensures DeleteFileEndpoint("", s1) == DeleteFileEndpoint("", s2)
  {
  }

  /** The service as the endpoints see it: its `Err` is a plain `Exception`. */
  function Raising<T>(r: Result<T, string>): (s: Result<T, Raised>)
    ensures r.Ok? ==> s == Ok(r.value)
    ensures r.Err? ==> s == Err(RaisedException(r.error))
  {
    match r
    case Ok(v) => Ok(v)
    case Err(message) => Err(RaisedException(message))
  }

  /** The delete endpoint over the S3 service. */
  function DeleteThroughService(key: string, failure: Option<S3Service.ClientError>): Response<S3Service.DeleteReply> {
    DeleteFileEndpoint(key, k => Raising(S3Service.DeleteObject(k, failure)))
  }

  /** The download endpoint over the S3 service. */
  function DownloadThroughService(presign: S3Service.Presigner, bucket: string, key: string): Response<S3Service.PresignedUrl> {
    DownloadUrlEndpoint(key, k => Raising(S3Service.GenerateDownloadUrl(presign, bucket, k)))
  }

  /** Because the service re-raises every `ClientError` as a plain `Exception`, a
      failed deletion — `NoSuchKey` included — reaches the endpoint as a 500, never as
      the 404 the endpoint is written to give it. */
  lemma DeleteFailureIs500(key: string, e: S3Service.ClientError)
    requires key != []
    ensures DeleteThroughService(key, Some(e)).HttpError?
    ensures DeleteThroughService(key, Some(e)).status == 500
    ensures DeleteThroughService(key, Some(e)).detail == "Unexpected error: " + "S3 delete object failed: " + e.text
  {
    var message := "S3 delete object failed: " + e.text;
    assert S3Service.DeleteObject(key, Some(e)) == Err(message);
    assert "Unexpected error: " + message == "Unexpected error: " + "S3 delete object failed: " + e.text;
  }

  /** The same for a failed download-URL request. */
  lemma DownloadFailureIs500(key: string, e: S3Service.ClientError, presign: S3Service.Presigner, bucket: string)
    requires key != []
    requires presign(S3Service.PresignRequest(S3Service.GetObject, bucket, key, None, 3600)) == Err(e)
    ensures DownloadThroughService(presign, bucket, key).HttpError?
    ensures DownloadThroughService(presign, bucket, key).status == 500
    ensures DownloadThroughService(presign, bucket, key).detail
         == "Unexpected error: " + "S3 download URL generation failed: " + e.text
  {
    var message := "S3 download URL generation failed: " + e.text;
    assert S3Service.GenerateDownloadUrl(presign, bucket, key) == Err(message);
    assert "Unexpected error: " + message == "Unexpected error: " + "S3 download URL generation failed: " + e.text;
  }

  /** A successful deletion through the service answers with the fixed message and the key. */
  lemma DeleteSucceeds(key: string)
    requires key != []
    ensures DeleteThroughService(key, None) == Success(S3Service.DeleteReply("Object deleted successfully", key))
  {
  }
}
