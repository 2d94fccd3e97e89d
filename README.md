# S3 cloud storage, modelled in Dafny

This project models `S3CloudStorage`, the only implementation of the
`CloudStorage` interface. It stores, fetches and deletes files in Amazon S3,
and it signs time-limited GET URLs for them. The model has two parts.

- **The file URI codec.** `storeFile` returns a location string
  `s3://{region}/{bucket}/{filename}`, and `parseFileUri` takes such a string
  apart with the whole-string pattern `s3://([^/]+)/([^/]+)/([^/]+)`. The model
  (`FileUri`) writes that pattern out without a regular expression. It checks
  for the exact prefix `s3://`, cuts the rest at every `/`, and asks for exactly
  three non-empty pieces. It proves four things about the parser:
  - it accepts exactly the pattern's language;
  - what it returns formats back to its input;
  - it inverts the formatting of three segments;
  - it rejects the URI `storeFile` builds when the bucket or the filename
    contains `/`. `storeFile` never checks for that.
- **The dispatch around the provider client** (`S3Storage`). The class
  `S3CloudStorage` has these fields:
  - the two clients, as the configuration each was built with;
  - the region, kept as its enum-constant name, because `region.name()` is both
    written into URIs and compared against them;
  - the S3 service, as a map from (bucket, key) to stored objects;
  - a ghost log of every request sent to either client.

  Each operation is a method. Its `ensures` ties the result, the new service
  state and the requests sent to a specification function (`StoreFileEffect`,
  `GetFileEffect`, `DeleteFileEffect`, `ExpiringUrlEffect`). `S3Properties`
  proves what the source promises about those functions:
  - the guards run before any request is sent;
  - a guard failure is an IllegalArgumentException, never wrapped;
  - a provider failure is a CloudException with the provider's exception as
    its cause;
  - a null object is a CloudException without a cause;
  - the region check ignores case;
  - the expiry is `now` plus the given seconds;
  - a file is found again under the URI `storeFile` returns, and not after it
    is deleted.

Modelling choices:
- Java `null` is `None` of an `Option`. A 64-bit `long` is the subset
  type `Long`.
- An exception is a constructor of `Result`: `InvalidArgument` stands for
  `IllegalArgumentException`, and `StorageError(cause)` stands for
  `CloudException`.
- A provider failure is an oracle argument `fault`. It is the
  `AmazonClientException` a client raises, or `None` when the client answers.
- The clock `Instant.now()` is an argument `now`, in epoch milliseconds.
- A stream is the sequence of bytes it yields.

The region written into a URI and compared against one is the enum constant
name (`US_EAST_1`), not the region id (`us-east-1`). So a URI that names the
configured region by its id is refused (`S3Properties.RegionIdUriRefused`).

The constructor's documentation says `urlGenCredentials` is the credentials
object for generating URLs (src/main/java/com/meloselo/storage/S3CloudStorage.java:45).
The code does something else. It defaults that argument to `credentials`
and then builds `urlGenS3` from `credentials` anyway
(src/main/java/com/meloselo/storage/S3CloudStorage.java:56-60). The model
follows the code. Both clients carry the primary credentials
(`S3CloudStorage.Valid` and the constructor's `ensures`), so a URL is always
signed with them.

## Model

| member | source | states |
|---|---|---|
| `JavaStrings.IsNullOrEmpty` | src/main/java/com/meloselo/storage/S3CloudStorage.java:104-106 | the Guava guard Strings.isNullOrEmpty: true for null and for the empty string, false otherwise |
| `JavaStrings.EqualsIgnoreCase` | src/main/java/com/meloselo/storage/S3CloudStorage.java:145 | String.equalsIgnoreCase with a non-null argument: equal lengths and every pair of characters at the same index equal up to case |
| `JavaStrings.CharEqualsIgnoreCase` | src/main/java/com/meloselo/storage/S3CloudStorage.java:145 | the per-character test of String.regionMatches with ignoreCase: the characters are equal, or their upper-case forms are, or the lower-case forms of those are |
| `JavaStrings.EqualsIgnoreCaseIsUpperCaseEquality` | src/main/java/com/meloselo/storage/S3CloudStorage.java:145 | equalsIgnoreCase, character by character as String.regionMatches does it, holds exactly when the upper-cased strings are equal |
| `JavaStrings.EqualsIgnoreCaseReflexive` | src/main/java/com/meloselo/storage/S3CloudStorage.java:145 | every name passes the region check against itself |
| `JavaStrings.EqualsIgnoreCaseSymmetric` | src/main/java/com/meloselo/storage/S3CloudStorage.java:145 | the region check does not depend on which side is the configured name |
| `JavaStrings.EqualsIgnoreCaseTransitive` | src/main/java/com/meloselo/storage/S3CloudStorage.java:145 | two names that match a third up to case match each other |
| `JavaStrings.EqualsIgnoreCaseExample` | src/main/java/com/meloselo/storage/S3CloudStorage.java:145 | "US_EAST_1" matches "us_east_1" and does not match "us-east-1" |
| `FileUri.ParseFileUri` | src/main/java/com/meloselo/storage/S3CloudStorage.java:74-86 | a null or empty URI is an IllegalArgumentException; every outcome is a value or that exception; each parsed group is non-empty and slash-free |
| `FileUri.MatchesFileUriPattern` | src/main/java/com/meloselo/storage/S3CloudStorage.java:64 | the language of s3://([^/]+)/([^/]+)/([^/]+): s3:// followed by three non-empty, slash-free segments separated by / |
| `FileUri.ParseFormatted` | src/main/java/com/meloselo/storage/S3CloudStorage.java:64-85 | a URI formatted from three non-empty, slash-free segments parses to exactly those segments as region, bucket and filename |
| `FileUri.ParsedIsFormatted` | src/main/java/com/meloselo/storage/S3CloudStorage.java:77-85 | whatever parses is the s3:// formatting of the region, bucket and filename parsed out of it |
| `FileUri.ParseAcceptsExactlyPattern` | src/main/java/com/meloselo/storage/S3CloudStorage.java:64-78 | the parser succeeds if and only if the string wholly matches s3://([^/]+)/([^/]+)/([^/]+) |
| `FileUri.ParseRejectsNonMatching` | src/main/java/com/meloselo/storage/S3CloudStorage.java:75-78 | every string outside the pattern is an IllegalArgumentException |
| `FileUri.FormatFileUriInjective` | src/main/java/com/meloselo/storage/S3CloudStorage.java:121 | two formatted URIs from segments are equal only when their region, bucket and filename are |
| `FileUri.FormattedWithSlashRejected` | src/main/java/com/meloselo/storage/S3CloudStorage.java:104-121 | when the bucket or filename contains '/', the URI storeFile formats is rejected by parseFileUri |
| `FileUri.FormattedParsesIffSlashFree` | src/main/java/com/meloselo/storage/S3CloudStorage.java:104-121 | for non-empty names, the formatted URI parses back if and only if neither name contains '/' |
| `FileUri.FormatFileUri` | src/main/java/com/meloselo/storage/S3CloudStorage.java:121 | the URI storeFile returns is s3:// followed by the region, /, the bucket, / and the filename |
| `FileUri.FormatFileUriPieces` | src/main/java/com/meloselo/storage/S3CloudStorage.java:121 | cutting the formatted URI at every / after s3:// gives the pieces of the region, then of the bucket, then of the filename |
| `FileUri.ParseExampleAccepted` | src/main/java/com/meloselo/storage/S3CloudStorage.java:64 | the literal URI s3://us-east-1/my-bucket/my-file.txt matches the pattern and parses to (us-east-1, my-bucket, my-file.txt) |
| `FileUri.MissingSchemeRejected` | src/main/java/com/meloselo/storage/S3CloudStorage.java:78 | any URI that does not begin with s3:// is rejected |
| `FileUri.ExtraSegmentRejected` | src/main/java/com/meloselo/storage/S3CloudStorage.java:78 | any URI of four non-empty, slash-free segments after s3:// is rejected |
| `FileUri.EmptySegmentRejected` | src/main/java/com/meloselo/storage/S3CloudStorage.java:78 | any URI formatted from a region, bucket and filename of which one is empty is rejected |
| `FileUri.TwoSegmentsRejected` | src/main/java/com/meloselo/storage/S3CloudStorage.java:78 | any URI with only a region and a bucket segment is rejected |
| `S3Storage.ResolveFileUri` | src/main/java/com/meloselo/storage/S3CloudStorage.java:139-146 | the URI overloads succeed past their prologue exactly when the URI parses and its region equals the configured name ignoring case, and then they use the parsed groups; otherwise IllegalArgumentException |
| `S3Storage.StoreFileArgsOk` | src/main/java/com/meloselo/storage/S3CloudStorage.java:104-106 | the storeFile guards: the bucket is neither null nor empty, the stream is non-null, and the filename is neither null nor empty |
| `S3Storage.ObjectArgsOk` | src/main/java/com/meloselo/storage/S3CloudStorage.java:162-163 | the guards of getFile and deleteFile by bucket and filename (also lines 211-212): neither name is null or empty |
| `S3Storage.ExpiringUrlArgsOk` | src/main/java/com/meloselo/storage/S3CloudStorage.java:254-257 | the getExpiringUrl guards: neither name is null or empty, and expirySeconds is positive |
| `S3Storage.PutMetadata` | src/main/java/com/meloselo/storage/S3CloudStorage.java:108-117 | content type set exactly as given (unset when null), content length set only when positive and read back as 0 otherwise, user metadata set only when non-null |
| `S3Storage.ExpiryMillis` | src/main/java/com/meloselo/storage/S3CloudStorage.java:259 | the expiry lies exactly expirySeconds * 1000 milliseconds after now, so after now for a positive expirySeconds |
| `S3Storage.ToCloudFile` | src/main/java/com/meloselo/storage/S3CloudStorage.java:172-176 | the CloudFile carries the object's bytes, content type and user metadata, and its content length, 0 when none was set |
| `S3Storage.StoreFileEffect` | src/main/java/com/meloselo/storage/S3CloudStorage.java:103-125 | IllegalArgumentException exactly when a guard fails, and then nothing is sent; at most one request; CloudException exactly when the put raises; the service changes only on success, gaining the stored key |
| `S3Storage.GetFileEffect` | src/main/java/com/meloselo/storage/S3CloudStorage.java:161-180 | IllegalArgumentException exactly when a guard fails, and then nothing is sent; at most one request; the service never changes; success exactly when the client answers and the key is stored |
| `S3Storage.DeleteFileEffect` | src/main/java/com/meloselo/storage/S3CloudStorage.java:210-219 | IllegalArgumentException exactly when a guard fails, and then nothing is sent; at most one request; success exactly when the client does not raise, and then the key is gone and no key is added; otherwise the service is unchanged |
| `S3Storage.ExpiringUrlEffect` | src/main/java/com/meloselo/storage/S3CloudStorage.java:253-267 | IllegalArgumentException exactly when a name is empty or expirySeconds is not positive, and then nothing is sent; at most one request; the service never changes; a URL returned is from the given signer and expires after now |
| `S3Storage.Create` | src/main/java/com/meloselo/storage/S3CloudStorage.java:48-51 | null credentials or a null region is an IllegalArgumentException and no object is built; otherwise a fresh storage object with both clients on the primary credentials |
| `S3Storage.S3CloudStorage.constructor` | src/main/java/com/meloselo/storage/S3CloudStorage.java:53-64 | both clients are pinned to the region and both are built from credentials; urlGenCredentials is ignored |
| `S3Storage.S3CloudStorage.ClientPutObject` | src/main/java/com/meloselo/storage/S3CloudStorage.java:119 | putObject is logged, and it either raises the fault and leaves the service unchanged or stores the object under its key |
| `S3Storage.S3CloudStorage.ClientGetObject` | src/main/java/com/meloselo/storage/S3CloudStorage.java:166 | getObject is logged, and it either raises the fault or answers the stored object, or null when the service lacks the key |
| `S3Storage.S3CloudStorage.ClientDeleteObject` | src/main/java/com/meloselo/storage/S3CloudStorage.java:215 | deleteObject is logged, and it either raises the fault and leaves the service unchanged or removes the key |
| `S3Storage.S3CloudStorage.ClientGeneratePresignedUrl` | src/main/java/com/meloselo/storage/S3CloudStorage.java:262 | generatePresignedUrl is logged, and it either raises the fault or returns the URL for that signer, object and expiry |
| `S3Storage.S3CloudStorage.StoreFile` | src/main/java/com/meloselo/storage/S3CloudStorage.java:100-126 | the result, the new service state and the requests sent are those of StoreFileEffect: guards first, then the metadata from the conditional setters, then one putObject, and IllegalArgumentException is never wrapped |
| `S3Storage.S3CloudStorage.GetFile` | src/main/java/com/meloselo/storage/S3CloudStorage.java:161-181 | result and requests are those of GetFileEffect, and the service is unchanged |
| `S3Storage.S3CloudStorage.GetFileByUri` | src/main/java/com/meloselo/storage/S3CloudStorage.java:138-149 | a URI that does not resolve is an IllegalArgumentException with no request sent; otherwise the call is getFile on the parsed bucket and filename |
| `S3Storage.S3CloudStorage.DeleteFile` | src/main/java/com/meloselo/storage/S3CloudStorage.java:210-220 | result, new service state and requests are those of DeleteFileEffect |
| `S3Storage.S3CloudStorage.DeleteFileByUri` | src/main/java/com/meloselo/storage/S3CloudStorage.java:190-201 | a URI that does not resolve is an IllegalArgumentException with nothing sent and nothing removed; otherwise the call is deleteFile on the parsed groups |
| `S3Storage.S3CloudStorage.GetExpiringUrl` | src/main/java/com/meloselo/storage/S3CloudStorage.java:253-268 | result and requests are those of ExpiringUrlEffect with the signing client urlGenS3 |
| `S3Storage.S3CloudStorage.GetExpiringUrlByUri` | src/main/java/com/meloselo/storage/S3CloudStorage.java:231-242 | a URI that does not resolve is an IllegalArgumentException with nothing sent; otherwise the call is getExpiringUrl on the parsed groups |
| `S3Properties.StoreFileOutcomes` | src/main/java/com/meloselo/storage/S3CloudStorage.java:103-125 | InvalidArgument and no request exactly when a guard fails; CloudException exactly when the put raises, caused by it, with the service unchanged; on success the formatted URI, one putObject, the stream's bytes stored with the metadata of the conditional setters under that key, and every other key unchanged |
| `S3Properties.StoredUriParsesBack` | src/main/java/com/meloselo/storage/S3CloudStorage.java:104-121 | the URI of a successful storeFile parses back to (region name, bucket, filename) when both names are slash-free, and is rejected when either has '/' |
| `S3Properties.RegionCheckIgnoresCase` | src/main/java/com/meloselo/storage/S3CloudStorage.java:145 | a parsed URI passes the region check exactly when its region equals the configured name after upper-casing |
| `S3Properties.CaseVariantRegionResolves` | src/main/java/com/meloselo/storage/S3CloudStorage.java:139-148 | a well-formed URI whose region is the configured name in another case resolves to its own groups |
| `S3Properties.ForeignRegionRejected` | src/main/java/com/meloselo/storage/S3CloudStorage.java:145-146 | a well-formed URI whose region differs beyond case is an IllegalArgumentException |
| `S3Properties.RegionIdUriRefused` | src/main/java/com/meloselo/storage/S3CloudStorage.java:139-146 | a storage object for US_EAST_1 refuses s3://us-east-1/my-bucket/my-file.txt, since region.name() is the enum constant name and not the region id |
| `S3Properties.GetFileOutcomes` | src/main/java/com/meloselo/storage/S3CloudStorage.java:161-180 | guards first and no request on failure; then one getObject; its exception is the cause; a null object is a CloudException without cause; a found object gives its bytes, type, length and user metadata |
| `S3Properties.StoreThenFetch` | src/main/java/com/meloselo/storage/S3CloudStorage.java:100-181 | after a storeFile with no failure, its URI resolves to the stored bucket and filename, and getFile returns the stored bytes, content type, content length (0 when not positive) and user metadata |
| `S3Properties.StoreThenFetchPlainText` | src/test/java/com/meloselo/storage/CloudStorageTest.java:69-94 | storing text/plain data with length n > 0 and no metadata, then fetching, gives type text/plain, length n and the stored bytes |
| `S3Properties.DeleteFileOutcomes` | src/main/java/com/meloselo/storage/S3CloudStorage.java:210-219 | guards first; then one deleteObject; its exception is the cause and nothing changes; success removes exactly that key |
| `S3Properties.DeleteThenFetchFails` | src/main/java/com/meloselo/storage/S3CloudStorage.java:210-219 | after a delete without failure, fetching the same bucket and filename is a CloudException |
| `S3Properties.ExpiringUrlOutcomes` | src/main/java/com/meloselo/storage/S3CloudStorage.java:253-267 | an empty name or expirySeconds <= 0 is refused before signing; otherwise one signing request whose expiry is now + expirySeconds seconds, later than now; its exception is the cause |
| `S3Properties.StoreFetchSignDelete` | src/test/java/com/meloselo/storage/CloudStorageTest.java:59-128 | on one storage object, as the integration test does it: store returns the URI, fetching by it returns the data as text/plain with its length, the URL is signed with the primary credentials for now + 600 s, and delete succeeds; the model adds a final fetch, which is a CloudException |

## Left out

- JavaStrings.EqualsIgnoreCase: only ASCII letters are case-mapped. Java's Unicode case mapping is not modelled, so for example a dotless 'ı' does not match 'I' as it does in Java.
- JavaStrings.CharEqualsIgnoreCase: the same ASCII-only case mapping, so 'ſ' does not match 'S', although Java's toUpperCase('ſ') is 'S' and "US_EAST_1".equalsIgnoreCase("Uſ_EAſT_1") holds in Java.
- JavaStrings.EqualsIgnoreCaseIsUpperCaseEquality: true of the ASCII-only model, not of Java's Unicode mapping. For example, the Kelvin sign U+212A equalsIgnoreCase "k" in Java, yet the upper cases of the two differ.
- S3Storage.S3CloudStorage.GetExpiringUrl: the expiry is computed on unbounded integers. The ArithmeticException that Joda's Duration and Instant raise when expirySeconds * 1000 or the sum overflows a long is not modelled.
- S3Storage.ExpiryMillis: returns an unbounded integer, while Joda's Duration and Instant raise ArithmeticException when expirySeconds * 1000 or the sum overflows a long.
- S3Storage.ExpiringUrlEffect: for the same reason, it returns a URL or a CloudException where Joda would raise ArithmeticException before the signing client is asked.
- S3Storage.S3CloudStorage.ClientGetObject: the modelled service answers null for a missing key. The SDK raises a NoSuchKey service exception instead, and that route is reachable only through the fault argument.
- S3Storage.S3CloudStorage.ClientDeleteObject: deleting a missing key succeeds in the modelled service. The provider's own behaviour is not modelled.
- The client stand-ins return the metadata an object was put with. Values the service fills in itself (the actual length, a default content type) are not modelled. Neither is S3's lower-casing of user-metadata keys: a key put as "UserId" comes back as "userid". So the exact equality of the user-metadata map in `S3Properties.StoreThenFetch` holds of the modelled store only, and for S3 itself only when every key is already lower case.
- A provider failure is modelled as having had no effect on the service. A client-side exception such as a timeout can be raised after the write or delete took effect; that case is not modelled.
- The SDK internals are not modelled: HTTP, request signing, the presigned URL's text, retries and timeouts. A presigned URL is represented by its signer, object and expiry.
- InputStream reading, consuming and closing, and the connection-leak discipline on fetched streams, are I/O and are not modelled. A stream is the byte sequence it yields. A content length that disagrees with the stream is stored as given.
- AWSCredentials, Region.getRegion and the construction of AmazonS3Client are foreign calls. The model keeps only the null checks and which credentials and region each client received.
- The compiled Pattern field is not a field of the class. The explicit parser `FileUri.ParseFileUri` stands for it.
- parseFileUri returns a map with keys region, bucket and filename. The model returns the record `FileLocation` instead.
- Exception message texts are not modelled. Only the kind of error and, for a CloudException, its cause are kept.
- Concurrent use of one storage object is not modelled. Calls are sequential.
- The test's reading of its configuration file is not modelled, nor the logging.
