/** What the storage operations promise, stated over their specification
    functions: guard failures never reach a client, provider failures surface
    as a CloudException with the provider's exception as cause, a stored file
    is found again under the URI storeFile returns, and a URI whose region is
    not the configured one is refused. */
module S3Properties {
  import opened CloudTypes
  import opened JavaStrings
  import opened FileUri
  import opened S3Storage

  /** storeFile: the guards come first, send nothing and raise an
      IllegalArgumentException; past them exactly one putObject is sent, whose
      failure is a CloudException caused by it and leaves the service as it was;
      success returns the formatted URI and stores the object under its key. */
  lemma StoreFileOutcomes(
    region: RegionName, objects: map<ObjectKey, S3Object>,
    bucket: Option<string>, stream: Option<Bytes>, filename: Option<string>,
    contentType: Option<string>, contentLength: Long, metaData: Option<map<string, string>>,
    fault: Option<ClientError>)
    ensures var e := StoreFileEffect(region, objects, bucket, stream, filename, contentType, contentLength, metaData, fault);
            && (e.result == InvalidArgument <==> !StoreFileArgsOk(bucket, stream, filename))
            && (e.sent == [] <==> !StoreFileArgsOk(bucket, stream, filename))
            && (e.result.InvalidArgument? ==> e.objects == objects)
            && (e.result.StorageError? <==> StoreFileArgsOk(bucket, stream, filename) && fault.Some?)
            && (e.result.StorageError? ==> e.result.cause == fault && e.objects == objects)
            && (e.result.Ok? ==>
                  var key := ObjectKey(bucket.value, filename.value);
                  && e.result.value == FormatFileUri(region, bucket.value, filename.value)
                  && e.sent == [PutObject(key, stream.value, PutMetadata(contentType, contentLength, metaData))]
                  && e.objects.Keys == objects.Keys + {key}
                  && e.objects[key] == S3Object(stream.value, PutMetadata(contentType, contentLength, metaData))
                  && (forall k :: k in objects && k != key ==> e.objects[k] == objects[k]))
  {
  }

  /** Round trip, with its caveat: the URI returned by a successful storeFile
      parses back to (region, bucket, filename) when neither name contains '/',
      and is rejected by parseFileUri when either does. */
  lemma StoredUriParsesBack(
    region: RegionName, objects: map<ObjectKey, S3Object>,
    bucket: Option<string>, stream: Option<Bytes>, filename: Option<string>,
    contentType: Option<string>, contentLength: Long, metaData: Option<map<string, string>>)
    requires StoreFileEffect(region, objects, bucket, stream, filename, contentType, contentLength, metaData, None).result.Ok?
    ensures var u := StoreFileEffect(region, objects, bucket, stream, filename, contentType, contentLength, metaData, None).result.value;
            && ('/' !in bucket.value && '/' !in filename.value ==>
                  ParseFileUri(Some(u)) == Ok(FileLocation(region, bucket.value, filename.value)))
            && ('/' in bucket.value || '/' in filename.value ==> ParseFileUri(Some(u)) == InvalidArgument)
  {
    if '/' in bucket.value || '/' in filename.value {
      FormattedWithSlashRejected(region, bucket.value, filename.value);
    } else {
      ParseFormatted(region, bucket.value, filename.value);
    }
  }

  /** The region check of the URI overloads is a comparison of upper-cased
      names: a parsed URI passes exactly when its region is the configured
      region's name up to case. */
  lemma RegionCheckIgnoresCase(region: RegionName, fileUri: Option<string>)
    requires ParseFileUri(fileUri).Ok?
    ensures ResolveFileUri(region, fileUri).Ok?
            <==> UpperCase(region) == UpperCase(ParseFileUri(fileUri).value.region)
  {
    EqualsIgnoreCaseIsUpperCaseEquality(region, ParseFileUri(fileUri).value.region);
  }

  /** A well-formed URI whose region is another spelling of the configured one
      resolves, keeping the URI's own spelling; the bucket and filename are
      the ones the URI names. */
  lemma CaseVariantRegionResolves(region: RegionName, uriRegion: string, bucket: string, filename: string)
    requires EqualsIgnoreCase(region, uriRegion)
    requires IsSegment(uriRegion) && IsSegment(bucket) && IsSegment(filename)
    ensures ResolveFileUri(region, Some(FormatFileUri(uriRegion, bucket, filename)))
            == Ok(FileLocation(uriRegion, bucket, filename))
  {
    ParseFormatted(uriRegion, bucket, filename);
  }

  /** A well-formed URI naming a region that differs from the configured one
      beyond case is refused before anything else. */
  lemma ForeignRegionRejected(region: RegionName, uriRegion: string, bucket: string, filename: string)
    requires IsSegment(uriRegion) && IsSegment(bucket) && IsSegment(filename)
    requires UpperCase(region) != UpperCase(uriRegion)
    ensures ResolveFileUri(region, Some(FormatFileUri(uriRegion, bucket, filename))) == InvalidArgument
  {
    ParseFormatted(uriRegion, bucket, filename);
    EqualsIgnoreCaseIsUpperCaseEquality(region, uriRegion);
  }

  /** The configured region is compared by its enum constant name, not by its
      region id: a client configured for US_EAST_1 refuses the URI that names
      the same region by its id us-east-1, because '_' and '-' differ. */
  lemma RegionIdUriRefused()
    ensures ResolveFileUri("US_EAST_1", Some("s3://us-east-1/my-bucket/my-file.txt")) == InvalidArgument
  {
    ParseExampleAccepted();
    EqualsIgnoreCaseExample();
  }

  /** getFile by bucket and filename: guards first and nothing sent when they
      fail; otherwise one getObject, whose exception is the cause of the
      CloudException; a null object is a CloudException without a cause; an
      object found is returned with its bytes and the content type, content
      length and user metadata of its metadata. */
  lemma GetFileOutcomes(objects: map<ObjectKey, S3Object>, bucket: Option<string>, filename: Option<string>,
                        fault: Option<ClientError>)
    ensures var e := GetFileEffect(objects, bucket, filename, fault);
            && e.objects == objects
            && (e.result == InvalidArgument <==> !ObjectArgsOk(bucket, filename))
            && (e.sent == [] <==> !ObjectArgsOk(bucket, filename))
            && (ObjectArgsOk(bucket, filename) ==>
                  var key := ObjectKey(bucket.value, filename.value);
                  && e.sent == [GetObject(key)]
                  && (fault.Some? ==> e.result == StorageError(fault))
                  && (fault.None? && key !in objects ==> e.result == StorageError(None))
                  && (e.result.Ok? <==> fault.None? && key in objects)
                  && (e.result.Ok? ==>
                        && e.result.value.content == objects[key].content
                        && e.result.value.contentType == objects[key].metadata.contentType
                        && e.result.value.contentLength == objects[key].metadata.ContentLength()
                        && e.result.value.metaData == objects[key].metadata.userMetadata))
  {
  }

  /** Store then fetch, in general: with no provider failure, the URI storeFile
      returns resolves to the bucket and filename stored, and fetching them
      gives back the stored bytes with the content type, the content length
      when one was given, and the user metadata. */
  lemma StoreThenFetch(
    region: RegionName, objects: map<ObjectKey, S3Object>, bucket: string, data: Bytes, filename: string,
    contentType: Option<string>, contentLength: Long, metaData: Option<map<string, string>>)
    requires IsSegment(bucket) && IsSegment(filename)
    ensures var st := StoreFileEffect(region, objects, Some(bucket), Some(data), Some(filename),
                                      contentType, contentLength, metaData, None);
            && st.result.Ok?
            && ResolveFileUri(region, Some(st.result.value)) == Ok(FileLocation(region, bucket, filename))
            && GetFileEffect(st.objects, Some(bucket), Some(filename), None).result
               == Ok(CloudFile(data, if contentLength > 0 then contentLength else 0, contentType,
                               if metaData.Some? then metaData.value else map[]))
  {
    ParseFormatted(region, bucket, filename);
    EqualsIgnoreCaseReflexive(region);
  }

  /** Store then fetch as the integration test does it: text/plain content of a
      given positive length and no user metadata. */
  lemma StoreThenFetchPlainText(region: RegionName, objects: map<ObjectKey, S3Object>,
                                bucket: string, data: Bytes, filename: string, n: Long)
    requires IsSegment(bucket) && IsSegment(filename) && n > 0
    ensures var st := StoreFileEffect(region, objects, Some(bucket), Some(data), Some(filename),
                                      Some("text/plain"), n, None, None);
            && ResolveFileUri(region, Some(st.result.value)) == Ok(FileLocation(region, bucket, filename))
            && GetFileEffect(st.objects, Some(bucket), Some(filename), None).result
               == Ok(CloudFile(data, n, Some("text/plain"), map[]))
  {
    StoreThenFetch(region, objects, bucket, data, filename, Some("text/plain"), n, None);
  }

  /** deleteFile by bucket and filename: guards first, then one deleteObject;
      its exception is the cause of the CloudException and leaves the service
      as it was; success removes that key and touches no other. */
  lemma DeleteFileOutcomes(objects: map<ObjectKey, S3Object>, bucket: Option<string>, filename: Option<string>,
                           fault: Option<ClientError>)
    ensures var e := DeleteFileEffect(objects, bucket, filename, fault);
            && (e.result == InvalidArgument <==> !ObjectArgsOk(bucket, filename))
            && (e.sent == [] <==> !ObjectArgsOk(bucket, filename))
            && (!e.result.Ok? ==> e.objects == objects)
            && (e.result.StorageError? ==> e.result.cause == fault && fault.Some?)
            && (e.result.Ok? ==>
                  var key := ObjectKey(bucket.value, filename.value);
                  && fault.None?
                  && e.sent == [DeleteObject(key)]
                  && e.objects.Keys == objects.Keys - {key}
                  && (forall k :: k in e.objects ==> e.objects[k] == objects[k]))
  {
  }

  /** Delete then fetch: once deleted, the same bucket and filename fetch as a
      CloudException. */
  lemma DeleteThenFetchFails(objects: map<ObjectKey, S3Object>, bucket: string, filename: string)
    requires bucket != [] && filename != []
    ensures var d := DeleteFileEffect(objects, Some(bucket), Some(filename), None);
            && d.result == Ok(())
            && GetFileEffect(d.objects, Some(bucket), Some(filename), None).result == StorageError(None)
  {
  }

  /** getExpiringUrl by bucket and filename: an empty name or a non-positive
      expiry is refused before the signing client is asked; otherwise the
      signing client is asked once for a GET URL expiring expirySeconds after
      `now`, and its exception is the cause of the CloudException. */
  lemma ExpiringUrlOutcomes(signer: ClientConfig, objects: map<ObjectKey, S3Object>,
                            bucket: Option<string>, filename: Option<string>, expirySeconds: Long, now: Long,
                            fault: Option<ClientError>)
    ensures var e := ExpiringUrlEffect(signer, objects, bucket, filename, expirySeconds, now, fault);
            && e.objects == objects
            && (e.result == InvalidArgument <==> IsNullOrEmpty(bucket) || IsNullOrEmpty(filename) || expirySeconds <= 0)
            && (e.sent == [] <==> e.result == InvalidArgument)
            && (e.result.StorageError? ==> e.result.cause == fault && fault.Some?)
            && (e.result.Ok? ==>
                  && fault.None?
                  && e.result.value == PresignedUrl(signer, ObjectKey(bucket.value, filename.value), now + expirySeconds * 1000)
                  && e.result.value.expiryMillis > now
                  && e.sent == [GeneratePresignedUrl(signer, e.result.value.key, e.result.value.expiryMillis)])
  {
  }

  /** The integration test's scenario, on one storage object: store text/plain
      data, fetch it by its URI, sign a URL for 600 seconds, delete it by its
      URI, then fetch it again. */
  method StoreFetchSignDelete(storage: S3CloudStorage, bucket: string, filename: string, data: Bytes, now: Long)
    returns (uri: Result<string>, file: Result<CloudFile>, url: Result<PresignedUrl>,
             deleted: Result<()>, refetched: Result<CloudFile>)
    requires storage.Valid()
    requires IsSegment(bucket) && IsSegment(filename) && 0 < |data| <= MaxLong
    modifies storage
    ensures uri == Ok(FormatFileUri(storage.region, bucket, filename))
    ensures file == Ok(CloudFile(data, |data|, Some("text/plain"), map[]))
    ensures url.Ok? && url.value.key == ObjectKey(bucket, filename)
    ensures url.value.signer.credentials == storage.s3.credentials && url.value.expiryMillis == now + 600_000
    ensures deleted == Ok(())
    ensures refetched == StorageError(None)
    ensures ObjectKey(bucket, filename) !in storage.objects
  {
    uri := storage.StoreFile(Some(bucket), Some(data), Some(filename), Some("text/plain"), |data|, None, None);
    ParseFormatted(storage.region, bucket, filename);
    EqualsIgnoreCaseReflexive(storage.region);
    file := storage.GetFileByUri(Some(uri.value), None);
    url := storage.GetExpiringUrlByUri(Some(uri.value), 600, now, None);
    deleted := storage.DeleteFileByUri(Some(uri.value), None);
    refetched := storage.GetFileByUri(Some(uri.value), None);
  }
}
