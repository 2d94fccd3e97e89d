/** Value types shared by the storage model: Java's nullable references and
    64-bit longs, the way a storage call ends (normally, with an
    IllegalArgumentException from a guard, or with a CloudException), and the
    CloudFile payload handed back by a fetch. */
module CloudTypes {

  /** A Java reference that may be null: None stands for null. */
  datatype Option<+T> = None | Some(value: T)

  const MinLong: int := -0x8000_0000_0000_0000
  const MaxLong: int := 0x7FFF_FFFF_FFFF_FFFF

  /** Java's 64-bit `long`. */
  type Long = x: int | MinLong <= x <= MaxLong

  /** The bytes an InputStream yields. */
  type Bytes = seq<bv8>

  /** An AmazonClientException raised by a provider client; its message and
      subclass are not modelled. */
  datatype ClientError = ClientError(description: string)

  /** How a storage call ends: with its value; with the IllegalArgumentException
      of a failed checkArgument (never wrapped); or with a CloudException, whose
      cause is the provider's exception when there is one. */
  datatype Result<+T> = Ok(value: T) | InvalidArgument | StorageError(cause: Option<ClientError>)

  /** A fetched file: the content of its input stream and the metadata copied
      from the stored object. */
  datatype CloudFile = CloudFile(
    content: Bytes,
    contentLength: Long,
    contentType: Option<string>,
    metaData: map<string, string>)
}
