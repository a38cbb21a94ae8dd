/** The slice-file payload (src/lib/sliceFile/payload.ts): the metadata and
    the data framed by a 16-bit little-endian metadata length, and the
    encrypted form framed as initialisation vector then ciphertext.  The
    metadata is the byte string its JSON text encodes to; AES-GCM is a pair
    of functions passed in. */
module Payload {
  import opened Errors
  import opened Bytes
  import opened BufferUtils

  /** The AES-GCM initialisation vector length in bytes. */
  const AES_IV_BYTE_SIZE: nat := 12
  const IV_OFFSET: nat := 0
  const IV_SIZE: nat := AES_IV_BYTE_SIZE
  const CIPHERTEXT_OFFSET: nat := IV_SIZE
  /** A 16-bit unsigned integer gives the metadata's byte length. */
  const METADATA_LENGTH_PREFIX_SIZE: nat := 2
  /** The largest value of the 16-bit prefix. */
  const MAX_METADATA_BYTE_LENGTH: nat := 65535

  datatype EncryptedData = EncryptedData(iv: seq<byte>, ciphertext: seq<byte>)

  datatype SliceFilePayload = SliceFilePayload(metadata: seq<byte>, data: seq<byte>)

  /** What deserializeMetadata returns: the metadata and the number of
      bytes it took up, prefix included. */
  datatype MetadataRead = MetadataRead(metadata: seq<byte>, byteLength: nat)

  /** serializeEncryptedData: the vector, then the ciphertext. */
  function SerializeEncryptedData(encrypted: EncryptedData): (r: seq<byte>)
    ensures |r| == |encrypted.iv| + |encrypted.ciphertext|
    ensures r[..|encrypted.iv|] == encrypted.iv && r[|encrypted.iv|..] == encrypted.ciphertext
  {
    ConcatPair(encrypted.iv, encrypted.ciphertext);
    Concat([encrypted.iv, encrypted.ciphertext])
  }

  /** deserializeEncryptedData: the first IV_SIZE bytes as the vector and the
      rest as the ciphertext; a shorter view is all vector. */
  function DeserializeEncryptedData(view: seq<byte>): (r: EncryptedData)
    ensures |view| >= IV_SIZE ==> r.iv == view[..IV_SIZE] && r.ciphertext == view[IV_SIZE..]
    ensures |view| < IV_SIZE ==> r.iv == view && r.ciphertext == []
  {
    var iv := Uint8ArraySubView(view, IV_OFFSET, Some(IV_SIZE));
    var ciphertext := Uint8ArraySubView(view, CIPHERTEXT_OFFSET, None);
    EncryptedData(iv, ciphertext)
  }

  /** Encrypted data with a full-length vector survives framing. */
  lemma EncryptedDataRoundTrip(encrypted: EncryptedData)
    requires |encrypted.iv| == IV_SIZE
    ensures DeserializeEncryptedData(SerializeEncryptedData(encrypted)) == encrypted
  {
  }

  /** Every view at least IV_SIZE bytes long is the framing of what is read
      from it. */
  lemma EncryptedBytesRoundTrip(view: seq<byte>)
    requires |view| >= IV_SIZE
    ensures SerializeEncryptedData(DeserializeEncryptedData(view)) == view
  {
    var out := SerializeEncryptedData(DeserializeEncryptedData(view));
    assert out == out[..IV_SIZE] + out[IV_SIZE..];
    assert view == view[..IV_SIZE] + view[IV_SIZE..];
  }

  /** serializeMetadata: the 16-bit length, then the metadata; a
      SerializationError when the metadata is longer than the prefix can
      say. */
  function SerializeMetadata(metadata: seq<byte>): (r: Result<seq<byte>>)
    ensures r.Ok? <==> |metadata| <= MAX_METADATA_BYTE_LENGTH
    ensures r.Err? ==> r.error == SerializationError
    ensures r.Ok? ==> (|r.value| == METADATA_LENGTH_PREFIX_SIZE + |metadata| &&
              DeserializeUint16(r.value, 0) == Ok(|metadata|) &&
              r.value[METADATA_LENGTH_PREFIX_SIZE..] == metadata)
  {
    if |metadata| > MAX_METADATA_BYTE_LENGTH then Err(SerializationError)
    else
      var prefix := SerializeUint16(|metadata|);
      Uint16RoundTrip(|metadata|);
      ConcatPair(prefix, metadata);
      assert (prefix + metadata)[..2] == prefix;
      Ok(Concat([prefix, metadata]))
  }

  /** deserializeMetadata: reads the 16-bit length at the start and takes
      that many bytes after it; a RangeError when the prefix or the
      metadata runs past the buffer's end. */
  function DeserializeMetadata(buffer: seq<byte>): (r: Result<MetadataRead>)
    ensures |buffer| < METADATA_LENGTH_PREFIX_SIZE ==> r == Err(RangeError(OutOfBounds))
    ensures r.Err? ==> r.error == RangeError(OutOfBounds)
    ensures r.Ok? <==> (DeserializeUint16(buffer, 0).Ok? &&
              METADATA_LENGTH_PREFIX_SIZE + DeserializeUint16(buffer, 0).value <= |buffer|)
    ensures r.Ok? ==> (r.value.byteLength == METADATA_LENGTH_PREFIX_SIZE + |r.value.metadata| <= |buffer| &&
              DeserializeUint16(buffer, 0) == Ok(|r.value.metadata|) &&
              r.value.metadata == buffer[METADATA_LENGTH_PREFIX_SIZE..r.value.byteLength])
  {
    var metadataSize :- DeserializeUint16(buffer, 0);
    var metadataView :- Uint8ArrayView(buffer, METADATA_LENGTH_PREFIX_SIZE, Some(metadataSize));
    Ok(MetadataRead(metadataView, METADATA_LENGTH_PREFIX_SIZE + metadataSize))
  }

  /** serializePayload: the framed metadata, then the data. */
  function SerializePayload(payload: SliceFilePayload): (r: Result<seq<byte>>)
    ensures r.Ok? <==> |payload.metadata| <= MAX_METADATA_BYTE_LENGTH
    ensures r.Err? ==> r.error == SerializationError
    ensures r.Ok? ==> r.value == SerializeMetadata(payload.metadata).value + payload.data
  {
    var metadataBuffer :- SerializeMetadata(payload.metadata);
    ConcatPair(metadataBuffer, payload.data);
    Ok(Concat([metadataBuffer, payload.data]))
  }

  /** deserializePayload: the framed metadata, then everything after it as
      the data. */
  function DeserializePayload(buffer: seq<byte>): (r: Result<SliceFilePayload>)
    ensures r.Ok? <==> DeserializeMetadata(buffer).Ok?
    ensures r.Err? ==> r == Err(RangeError(OutOfBounds))
    ensures r.Ok? ==> (|r.value.metadata| <= MAX_METADATA_BYTE_LENGTH &&
              buffer == SerializeMetadata(r.value.metadata).value + r.value.data)
  {
    var read :- DeserializeMetadata(buffer);
    match Uint8ArrayView(buffer, read.byteLength, None)
    case Err(e) => Err(e)
    case Ok(data) =>
      var metadataBuffer := SerializeMetadata(read.metadata).value;
      assert buffer[..read.byteLength] == metadataBuffer by {
        assert DeserializeUint16(metadataBuffer, 0) == DeserializeUint16(buffer, 0);
      }
      assert buffer == buffer[..read.byteLength] + data;
      Ok(SliceFilePayload(read.metadata, data))
  }

  /** Every payload whose metadata fits the prefix survives serialisation,
      empty metadata and empty data included. */
  lemma PayloadRoundTrip(payload: SliceFilePayload)
    requires |payload.metadata| <= MAX_METADATA_BYTE_LENGTH
    ensures DeserializePayload(SerializePayload(payload).value) == Ok(payload)
  {
    var buffer := SerializePayload(payload).value;
    var metadataBuffer := SerializeMetadata(payload.metadata).value;
    assert buffer[..2] == metadataBuffer[..2];
    assert buffer[2..2 + |payload.metadata|] == payload.metadata;
    assert buffer[2 + |payload.metadata|..] == payload.data;
  }

  /** Every buffer that deserialises is the serialisation of its payload. */
  lemma PayloadBytesRoundTrip(buffer: seq<byte>)
    requires DeserializePayload(buffer).Ok?
    ensures SerializePayload(DeserializePayload(buffer).value) == Ok(buffer)
  {
  }

  /** The layout on a small payload: metadata `{}` (bytes 123, 125) and
      two data bytes. */
  lemma PayloadExample()
    ensures SerializePayload(SliceFilePayload([123, 125], [1, 2])) == Ok([2, 0, 123, 125, 1, 2])
  {
    var metadataBuffer := SerializeMetadata([123, 125]).value;
    assert DeserializeUint16(metadataBuffer, 0) == Ok(2);
    assert metadataBuffer[2..] == [123, 125];
    assert metadataBuffer == [2, 0, 123, 125];
    var payload := SliceFilePayload([123, 125], [1, 2]);
    assert SerializePayload(payload).value == metadataBuffer + payload.data;
    assert metadataBuffer + payload.data == [2, 0, 123, 125, 1, 2];
  }

  /** encryptAndSerializePayload: the serialised payload encrypted and
      framed; the serialisation's error comes first, then encryption's.
      `encrypt` is AES-GCM under the caller's key with a fresh vector. */
  function EncryptAndSerializePayload(payload: SliceFilePayload, encrypt: seq<byte> -> Result<EncryptedData>): (r: Result<seq<byte>>)
    ensures SerializePayload(payload).Err? ==> r == Err(SerializationError)
    ensures SerializePayload(payload).Ok? ==> match encrypt(SerializePayload(payload).value)
              case Err(e) => r == Err(e)
              case Ok(encrypted) => r == Ok(SerializeEncryptedData(encrypted))
  {
    var payloadBuffer :- SerializePayload(payload);
    var encryptedPayload :- encrypt(payloadBuffer);
    Ok(SerializeEncryptedData(encryptedPayload))
  }

  /** decryptAndDeserializePayload: the view split into vector and
      ciphertext, decrypted, and deserialised; decryption's error comes
      first.  `decrypt` is AES-GCM decryption under the caller's key. */
  function DecryptAndDeserializePayload(view: seq<byte>, decrypt: EncryptedData -> Result<seq<byte>>): (r: Result<SliceFilePayload>)
    ensures match decrypt(DeserializeEncryptedData(view))
              case Err(e) => r == Err(e)
              case Ok(plain) => r == DeserializePayload(plain)
  {
    var encryptedPayload := DeserializeEncryptedData(view);
    var payloadBuffer :- decrypt(encryptedPayload);
    DeserializePayload(payloadBuffer)
  }

  /** Decryption undoes encryption, and encryption uses full-length vectors:
      what AES-GCM promises for one key. */
  ghost predicate DecryptInverts(encrypt: seq<byte> -> Result<EncryptedData>, decrypt: EncryptedData -> Result<seq<byte>>)
  {
    forall plaintext :: encrypt(plaintext).Ok? ==>
      |encrypt(plaintext).value.iv| == IV_SIZE && decrypt(encrypt(plaintext).value) == Ok(plaintext)
  }

  /** With a decryption that undoes the encryption, the encrypted framed
      payload decrypts and deserialises to the payload. */
  lemma EncryptedPayloadRoundTrip(payload: SliceFilePayload, encrypt: seq<byte> -> Result<EncryptedData>,
                                  decrypt: EncryptedData -> Result<seq<byte>>)
    requires DecryptInverts(encrypt, decrypt)
    requires EncryptAndSerializePayload(payload, encrypt).Ok?
    ensures DecryptAndDeserializePayload(EncryptAndSerializePayload(payload, encrypt).value, decrypt) == Ok(payload)
  {
    var plain := SerializePayload(payload).value;
    var encrypted := encrypt(plain).value;
    EncryptedDataRoundTrip(encrypted);
    PayloadRoundTrip(payload);
  }
}
