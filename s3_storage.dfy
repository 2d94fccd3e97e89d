/** S3CloudStorage: the request dispatch around the provider client. The S3
    service the client talks to is a map from (bucket, key) to stored objects;
    a provider failure is an oracle argument `fault` to each call (the
    AmazonClientException the client raises, or None when it answers), and the
    clock is an argument `now` in epoch milliseconds. A ghost log records every
    request the two clients are sent, so that "no client call happened" can be
    stated. */
module S3Storage {
  import opened CloudTypes
  import opened JavaStrings
  import opened FileUri

  /** The name() of a Regions constant: a Java identifier, so a non-empty string
      without '/'. */
  type RegionName = s: string | IsSegment(s) witness "US_EAST_1"

  /** BasicAWSCredentials; only which value a client was given matters. */
  datatype Credentials = Credentials(accessKey: string, secretKey: string)

  /** What a provider client was built with: credentials and the region it is
      pinned to by setRegion. */
  datatype ClientConfig = ClientConfig(credentials: Credentials, region: RegionName)

  datatype ObjectKey = ObjectKey(bucket: string, filename: string)

  /** ObjectMetadata; a field is None until its setter is called. */
  datatype ObjectMetadata = ObjectMetadata(
    contentType: Option<string>,
    contentLength: Option<Long>,
    userMetadata: map<string, string>)
  {
    /** getContentLength(): 0 while the length was never set. */
    function ContentLength(): Long {
      if contentLength.Some? then contentLength.value else 0
    }
  }

  /** A freshly constructed ObjectMetadata. */
  const EmptyMetadata: ObjectMetadata := ObjectMetadata(None, None, map[])

  /** An object held by the service: its bytes and the metadata it was put with. */
  datatype S3Object = S3Object(content: Bytes, metadata: ObjectMetadata)

  /** A pre-signed GET URL, represented by what it grants: the client that
      signed it, the object and the expiry instant in epoch milliseconds. */
  datatype PresignedUrl = PresignedUrl(signer: ClientConfig, key: ObjectKey, expiryMillis: int)

  /** A request sent to a provider client. */
  datatype Request =
    | PutObject(key: ObjectKey, content: Bytes, metadata: ObjectMetadata)
    | GetObject(key: ObjectKey)
    | DeleteObject(key: ObjectKey)
    | GeneratePresignedUrl(signer: ClientConfig, key: ObjectKey, expiryMillis: int)

  /** The provider client's answer to one request: a value, or a raised
      AmazonClientException. */
  datatype Reply<+T> = Returned(value: T) | Raised(error: ClientError)

  /** What one storage call does: its result, the service's objects afterwards
      and the requests it sent, in order. */
  datatype Effect<+T> = Effect(result: Result<T>, objects: map<ObjectKey, S3Object>, sent: seq<Request>)

  // ---------------------------------------------------------------------------
  // Specification of each operation, as a function of the state and arguments.

  /** The checkArgument guards of storeFile, in their order. */
  predicate StoreFileArgsOk(bucket: Option<string>, stream: Option<Bytes>, filename: Option<string>) {
    !IsNullOrEmpty(bucket) && stream.Some? && !IsNullOrEmpty(filename)
  }

  /** The guards of getFile and deleteFile by bucket and filename. */
  predicate ObjectArgsOk(bucket: Option<string>, filename: Option<string>) {
    !IsNullOrEmpty(bucket) && !IsNullOrEmpty(filename)
  }

  /** The guards of getExpiringUrl by bucket and filename. */
  predicate ExpiringUrlArgsOk(bucket: Option<string>, filename: Option<string>, expirySeconds: Long) {
    ObjectArgsOk(bucket, filename) && expirySeconds > 0
  }

  /** The metadata storeFile puts with the object: content type when non-null,
      content length when positive, user metadata when non-null. */
  function PutMetadata(contentType: Option<string>, contentLength: Long, metaData: Option<map<string, string>>): (m: ObjectMetadata)
    ensures m.contentType == contentType
    ensures m.contentLength.Some? <==> contentLength > 0
    ensures m.ContentLength() == (if contentLength > 0 then contentLength else 0)
    ensures metaData.Some? ==> m.userMetadata == metaData.value
    ensures metaData.None? ==> m.userMetadata == map[]
  {
    ObjectMetadata(
      contentType,
      if contentLength > 0 then Some(contentLength) else None,
      if metaData.Some? then metaData.value else map[])
  }

  /** The expiry instant of a pre-signed URL: the current instant plus the
      given number of seconds, in milliseconds. */
  function ExpiryMillis(now: Long, expirySeconds: Long): (r: int)
    ensures r - now == expirySeconds * 1000
    ensures expirySeconds > 0 ==> r > now
  {
    now + expirySeconds * 1000
  }

  /** The CloudFile getFile builds from a fetched object: its content, and the
      content type, content length and user metadata of its metadata. */
  function ToCloudFile(obj: S3Object): (f: CloudFile)
    ensures f.content == obj.content && f.contentType == obj.metadata.contentType
    ensures f.metaData == obj.metadata.userMetadata
    ensures obj.metadata.contentLength.Some? ==> f.contentLength == obj.metadata.contentLength.value
    ensures obj.metadata.contentLength.None? ==> f.contentLength == 0
  {
    CloudFile(obj.content, obj.metadata.ContentLength(), obj.metadata.contentType, obj.metadata.userMetadata)
  }

  function StoreFileEffect(
    region: RegionName, objects: map<ObjectKey, S3Object>,
    bucket: Option<string>, stream: Option<Bytes>, filename: Option<string>,
    contentType: Option<string>, contentLength: Long, metaData: Option<map<string, string>>,
    fault: Option<ClientError>): (e: Effect<string>)
    ensures e.result.InvalidArgument? <==> !StoreFileArgsOk(bucket, stream, filename)
    ensures e.sent == [] <==> !StoreFileArgsOk(bucket, stream, filename)
    ensures |e.sent| <= 1
    ensures e.result.StorageError? <==> StoreFileArgsOk(bucket, stream, filename) && fault.Some?
    ensures !e.result.Ok? ==> e.objects == objects
    ensures e.result.Ok? ==> e.objects.Keys == objects.Keys + {ObjectKey(bucket.value, filename.value)}
  {
    if !StoreFileArgsOk(bucket, stream, filename) then Effect(InvalidArgument, objects, [])
    else
      var key := ObjectKey(bucket.value, filename.value);
      var obj := S3Object(stream.value, PutMetadata(contentType, contentLength, metaData));
      var sent := [PutObject(key, obj.content, obj.metadata)];
      if fault.Some? then Effect(StorageError(fault), objects, sent)
      else Effect(Ok(FormatFileUri(region, key.bucket, key.filename)), objects[key := obj], sent)
  }

  function GetFileEffect(
    objects: map<ObjectKey, S3Object>, bucket: Option<string>, filename: Option<string>,
    fault: Option<ClientError>): (e: Effect<CloudFile>)
    ensures e.result.InvalidArgument? <==> !ObjectArgsOk(bucket, filename)
    ensures e.sent == [] <==> !ObjectArgsOk(bucket, filename)
    ensures |e.sent| <= 1
    ensures e.objects == objects
    ensures e.result.Ok? <==> ObjectArgsOk(bucket, filename) && fault.None? && ObjectKey(bucket.value, filename.value) in objects
  {
    if !ObjectArgsOk(bucket, filename) then Effect(InvalidArgument, objects, [])
    else
      var key := ObjectKey(bucket.value, filename.value);
      var sent := [GetObject(key)];
      if fault.Some? then Effect(StorageError(fault), objects, sent)
      else if key !in objects then Effect(StorageError(None), objects, sent)
      else Effect(Ok(ToCloudFile(objects[key])), objects, sent)
  }

  function DeleteFileEffect(
    objects: map<ObjectKey, S3Object>, bucket: Option<string>, filename: Option<string>,
    fault: Option<ClientError>): (e: Effect<()>)
    ensures e.result.InvalidArgument? <==> !ObjectArgsOk(bucket, filename)
    ensures e.sent == [] <==> !ObjectArgsOk(bucket, filename)
    ensures |e.sent| <= 1
    ensures e.result.Ok? <==> ObjectArgsOk(bucket, filename) && fault.None?
    ensures !e.result.Ok? ==> e.objects == objects
    ensures e.result.Ok? ==> ObjectKey(bucket.value, filename.value) !in e.objects && e.objects.Keys <= objects.Keys
  {
    if !ObjectArgsOk(bucket, filename) then Effect(InvalidArgument, objects, [])
    else
      var key := ObjectKey(bucket.value, filename.value);
      var sent := [DeleteObject(key)];
      if fault.Some? then Effect(StorageError(fault), objects, sent)
      else Effect(Ok(()), objects - {key}, sent)
  }

  function ExpiringUrlEffect(
    signer: ClientConfig, objects: map<ObjectKey, S3Object>,
    bucket: Option<string>, filename: Option<string>, expirySeconds: Long, now: Long,
    fault: Option<ClientError>): (e: Effect<PresignedUrl>)
    ensures e.result.InvalidArgument? <==> !ExpiringUrlArgsOk(bucket, filename, expirySeconds)
    ensures e.sent == [] <==> !ExpiringUrlArgsOk(bucket, filename, expirySeconds)
    ensures |e.sent| <= 1
    ensures e.objects == objects
    ensures e.result.Ok? ==> e.result.value.signer == signer && e.result.value.expiryMillis > now
  {
    if !ExpiringUrlArgsOk(bucket, filename, expirySeconds) then Effect(InvalidArgument, objects, [])
    else
      var key := ObjectKey(bucket.value, filename.value);
      var expiry := ExpiryMillis(now, expirySeconds);
      var sent := [GeneratePresignedUrl(signer, key, expiry)];
      if fault.Some? then Effect(StorageError(fault), objects, sent)
      else Effect(Ok(PresignedUrl(signer, key, expiry)), objects, sent)
  }

  /** The common prefix of the URI overloads: parse the URI, then require its
      region to equal the configured region's name ignoring case. */
  function ResolveFileUri(region: RegionName, fileUri: Option<string>): (r: Result<FileLocation>)
    ensures r.Ok? || r == InvalidArgument
    ensures r.Ok? <==> ParseFileUri(fileUri).Ok? && EqualsIgnoreCase(region, ParseFileUri(fileUri).value.region)
    ensures r.Ok? ==> r == ParseFileUri(fileUri)
  {
    match ParseFileUri(fileUri)
    case Ok(loc) => if EqualsIgnoreCase(region, loc.region) then Ok(loc) else InvalidArgument
    case _ => InvalidArgument
  }

  // ---------------------------------------------------------------------------
  // The storage object.

  class S3CloudStorage {
    /** The client for put, get and delete. */
    const s3: ClientConfig
    /** The client for URL signing. */
    const urlGenS3: ClientConfig
    const region: RegionName
    /** The service state the clients reach. */
    var objects: map<ObjectKey, S3Object>
    /** Every request sent to either client, oldest first. */
    ghost var requests: seq<Request>

    /** What the constructor establishes: both clients pinned to the region, the
        signing client built with the same credentials as the other one. */
    ghost predicate Valid() {
      s3.region == region && urlGenS3 == s3
    }

    /** Builds both clients from `credentials`; the defaulting of
        `urlGenCredentials` to `credentials` is computed but its value unused. */
    constructor (credentials: Credentials, urlGenCredentials: Option<Credentials>, region: RegionName,
                 service: map<ObjectKey, S3Object>)
      ensures Valid()
      ensures s3 == ClientConfig(credentials, region)
      ensures urlGenS3 == ClientConfig(credentials, region)
      ensures this.region == region && objects == service && requests == []
    {
      s3 := ClientConfig(credentials, region);
      var signingCredentials := if urlGenCredentials.None? then credentials else urlGenCredentials.value;
      urlGenS3 := ClientConfig(credentials, region);
      this.region := region;
      objects := service;
      requests := [];
    }

    // The provider client's four capabilities, on the modelled service.

    method ClientPutObject(key: ObjectKey, content: Bytes, metadata: ObjectMetadata, fault: Option<ClientError>)
      returns (reply: Reply<()>)
      modifies this
      ensures requests == old(requests) + [PutObject(key, content, metadata)]
      ensures fault.Some? ==> reply == Raised(fault.value) && objects == old(objects)
      ensures fault.None? ==> reply == Returned(()) && objects == old(objects)[key := S3Object(content, metadata)]
    {
      requests := requests + [PutObject(key, content, metadata)];
      if fault.Some? {
        return Raised(fault.value);
      }
      objects := objects[key := S3Object(content, metadata)];
      return Returned(());
    }

    /** Answers null for a key the service does not hold. */
    method ClientGetObject(key: ObjectKey, fault: Option<ClientError>) returns (reply: Reply<Option<S3Object>>)
      modifies this`requests
      ensures requests == old(requests) + [GetObject(key)]
      ensures fault.Some? ==> reply == Raised(fault.value)
      ensures fault.None? ==> reply == Returned(if key in objects then Some(objects[key]) else None)
    {
      requests := requests + [GetObject(key)];
      if fault.Some? {
        return Raised(fault.value);
      }
      return Returned(if key in objects then Some(objects[key]) else None);
    }

    method ClientDeleteObject(key: ObjectKey, fault: Option<ClientError>) returns (reply: Reply<()>)
      modifies this
      ensures requests == old(requests) + [DeleteObject(key)]
      ensures fault.Some? ==> reply == Raised(fault.value) && objects == old(objects)
      ensures fault.None? ==> reply == Returned(()) && objects == old(objects) - {key}
    {
      requests := requests + [DeleteObject(key)];
      if fault.Some? {
        return Raised(fault.value);
      }
      objects := objects - {key};
      return Returned(());
    }

    method ClientGeneratePresignedUrl(signer: ClientConfig, key: ObjectKey, expiryMillis: int, fault: Option<ClientError>)
      returns (reply: Reply<PresignedUrl>)
      modifies this`requests
      ensures requests == old(requests) + [GeneratePresignedUrl(signer, key, expiryMillis)]
      ensures fault.Some? ==> reply == Raised(fault.value)
      ensures fault.None? ==> reply == Returned(PresignedUrl(signer, key, expiryMillis))
    {
      requests := requests + [GeneratePresignedUrl(signer, key, expiryMillis)];
      if fault.Some? {
        return Raised(fault.value);
      }
      return Returned(PresignedUrl(signer, key, expiryMillis));
    }

    // The storage operations.

    method StoreFile(bucket: Option<string>, stream: Option<Bytes>, filename: Option<string>,
                     contentType: Option<string>, contentLength: Long, metaData: Option<map<string, string>>,
                     fault: Option<ClientError>) returns (r: Result<string>)
      modifies this
      ensures var e := StoreFileEffect(region, old(objects), bucket, stream, filename, contentType, contentLength, metaData, fault);
              r == e.result && objects == e.objects && requests == old(requests) + e.sent
    {
      if IsNullOrEmpty(bucket) || stream.None? || IsNullOrEmpty(filename) {
        return InvalidArgument;
      }
      var objMeta := EmptyMetadata;
      if contentType.Some? {
        objMeta := objMeta.(contentType := contentType);
      }
      if contentLength > 0 {
        objMeta := objMeta.(contentLength := Some(contentLength));
      }
      if metaData.Some? {
        objMeta := objMeta.(userMetadata := metaData.value);
      }
      var reply := ClientPutObject(ObjectKey(bucket.value, filename.value), stream.value, objMeta, fault);
      match reply
      case Raised(ex) =>
        r := StorageError(Some(ex));
      case Returned(_) =>
        r := Ok(FormatFileUri(region, bucket.value, filename.value));
    }

    method GetFile(bucket: Option<string>, filename: Option<string>, fault: Option<ClientError>)
      returns (r: Result<CloudFile>)
      modifies this`requests
      ensures var e := GetFileEffect(objects, bucket, filename, fault);
              r == e.result && requests == old(requests) + e.sent
    {
      if IsNullOrEmpty(bucket) || IsNullOrEmpty(filename) {
        return InvalidArgument;
      }
      var reply := ClientGetObject(ObjectKey(bucket.value, filename.value), fault);
      match reply
      case Raised(ex) =>
        r := StorageError(Some(ex));
      case Returned(None) =>
        r := StorageError(None);
      case Returned(Some(obj)) =>
        r := Ok(ToCloudFile(obj));
    }

    method GetFileByUri(fileUri: Option<string>, fault: Option<ClientError>) returns (r: Result<CloudFile>)
      modifies this`requests
      ensures var loc := ResolveFileUri(region, fileUri);
              if loc.Ok? then
                var e := GetFileEffect(objects, Some(loc.value.bucket), Some(loc.value.filename), fault);
                r == e.result && requests == old(requests) + e.sent
              else
                r == InvalidArgument && requests == old(requests)
    {
      var fileInfo := ParseFileUri(fileUri);
      if fileInfo.InvalidArgument? {
        return InvalidArgument;
      }
      var fileregion := fileInfo.value.region;
      if !EqualsIgnoreCase(region, fileregion) {
        return InvalidArgument;
      }
      r := GetFile(Some(fileInfo.value.bucket), Some(fileInfo.value.filename), fault);
    }

    method DeleteFile(bucket: Option<string>, filename: Option<string>, fault: Option<ClientError>)
      returns (r: Result<()>)
      modifies this
      ensures var e := DeleteFileEffect(old(objects), bucket, filename, fault);
              r == e.result && objects == e.objects && requests == old(requests) + e.sent
    {
      if IsNullOrEmpty(bucket) || IsNullOrEmpty(filename) {
        return InvalidArgument;
      }
      var reply := ClientDeleteObject(ObjectKey(bucket.value, filename.value), fault);
      match reply
      case Raised(ex) =>
        r := StorageError(Some(ex));
      case Returned(_) =>
        r := Ok(());
    }

    method DeleteFileByUri(fileUri: Option<string>, fault: Option<ClientError>) returns (r: Result<()>)
      modifies this
      ensures var loc := ResolveFileUri(region, fileUri);
              if loc.Ok? then
                var e := DeleteFileEffect(old(objects), Some(loc.value.bucket), Some(loc.value.filename), fault);
                r == e.result && objects == e.objects && requests == old(requests) + e.sent
              else
                r == InvalidArgument && objects == old(objects) && requests == old(requests)
    {
      var fileInfo := ParseFileUri(fileUri);
      if fileInfo.InvalidArgument? {
        return InvalidArgument;
      }
      var fileregion := fileInfo.value.region;
      if !EqualsIgnoreCase(region, fileregion) {
        return InvalidArgument;
      }
      r := DeleteFile(Some(fileInfo.value.bucket), Some(fileInfo.value.filename), fault);
    }

    method GetExpiringUrl(bucket: Option<string>, filename: Option<string>, expirySeconds: Long,
                          now: Long, fault: Option<ClientError>) returns (r: Result<PresignedUrl>)
      modifies this`requests
      ensures var e := ExpiringUrlEffect(urlGenS3, objects, bucket, filename, expirySeconds, now, fault);
              r == e.result && requests == old(requests) + e.sent
    {
      if IsNullOrEmpty(bucket) || IsNullOrEmpty(filename) || expirySeconds <= 0 {
        return InvalidArgument;
      }
      var expiry := ExpiryMillis(now, expirySeconds);
      var reply := ClientGeneratePresignedUrl(urlGenS3, ObjectKey(bucket.value, filename.value), expiry, fault);
      match reply
      case Raised(ex) =>
        r := StorageError(Some(ex));
      case Returned(url) =>
        r := Ok(url);
    }

    method GetExpiringUrlByUri(fileUri: Option<string>, expirySeconds: Long, now: Long, fault: Option<ClientError>)
      returns (r: Result<PresignedUrl>)
      modifies this`requests
      ensures var loc := ResolveFileUri(region, fileUri);
              if loc.Ok? then
                var e := ExpiringUrlEffect(urlGenS3, objects, Some(loc.value.bucket), Some(loc.value.filename),
                                           expirySeconds, now, fault);
                r == e.result && requests == old(requests) + e.sent
              else
                r == InvalidArgument && requests == old(requests)
    {
      var fileInfo := ParseFileUri(fileUri);
      if fileInfo.InvalidArgument? {
        return InvalidArgument;
      }
      var fileregion := fileInfo.value.region;
      if !EqualsIgnoreCase(region, fileregion) {
        return InvalidArgument;
      }
      r := GetExpiringUrl(Some(fileInfo.value.bucket), Some(fileInfo.value.filename), expirySeconds, now, fault);
    }
  }

  /** The constructor's checkArgument guards: null credentials or a null region
      is an IllegalArgumentException and no client is built. */
  method Create(credentials: Option<Credentials>, urlGenCredentials: Option<Credentials>,
                region: Option<RegionName>, service: map<ObjectKey, S3Object>)
    returns (r: Result<S3CloudStorage>)
    ensures r.Ok? || r == InvalidArgument
    ensures r.Ok? <==> credentials.Some? && region.Some?
    ensures r.Ok? ==> fresh(r.value) && r.value.Valid()
                      && r.value.s3 == ClientConfig(credentials.value, region.value)
                      && r.value.urlGenS3 == ClientConfig(credentials.value, region.value)
                      && r.value.region == region.value
                      && r.value.objects == service && r.value.requests == []
  {
    if credentials.None? || region.None? {
      return InvalidArgument;
    }
    var storage := new S3CloudStorage(credentials.value, urlGenCredentials, region.value, service);
    return Ok(storage);
  }
}
