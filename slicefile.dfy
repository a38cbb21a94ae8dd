/** A slice file (src/lib/sliceFile/index.ts): the serialised header, then
    the encrypted framed payload from byte HEADER_SIZE on. */
module SliceFile {
  import opened Errors
  import opened Bytes
  import opened BufferUtils
  import opened Header
  import opened Payload

  const PAYLOAD_OFFSET: nat := HEADER_SIZE

  /** getHeader: the header read from the first HEADER_SIZE bytes; a
      RangeError when the buffer is shorter. */
  function GetHeader(sliceFileBuffer: seq<byte>): (r: Result<SliceFileHeader>)
    ensures r.Ok? <==> |sliceFileBuffer| >= HEADER_SIZE
    ensures r.Err? ==> r.error == RangeError(OutOfBounds)
    ensures r.Ok? ==> r == DeserializeHeader(sliceFileBuffer[..HEADER_SIZE])
  {
    var headerBuffer :- Uint8ArrayView(sliceFileBuffer, 0, Some(HEADER_SIZE));
    DeserializeHeader(headerBuffer)
  }

  /** getDecryptedPayload: the bytes from PAYLOAD_OFFSET to the end,
      decrypted and deserialised; a RangeError when the buffer is shorter
      than the header. */
  function GetDecryptedPayload(sliceFileBuffer: seq<byte>, decrypt: EncryptedData -> Result<seq<byte>>): (r: Result<SliceFilePayload>)
    ensures |sliceFileBuffer| < PAYLOAD_OFFSET ==> r == Err(RangeError(OutOfBounds))
    ensures |sliceFileBuffer| >= PAYLOAD_OFFSET ==>
              r == DecryptAndDeserializePayload(sliceFileBuffer[PAYLOAD_OFFSET..], decrypt)
  {
    var encryptedPayloadView :- Uint8ArrayView(sliceFileBuffer, PAYLOAD_OFFSET, None);
    DecryptAndDeserializePayload(encryptedPayloadView, decrypt)
  }

  /** createBuffer: the serialised header followed by the encrypted payload;
      the header's error comes before encryption's. */
  function CreateBuffer(header: SliceFileHeader, payload: SliceFilePayload, encrypt: seq<byte> -> Result<EncryptedData>): (r: Result<seq<byte>>)
    ensures r.Ok? <==> SerializeHeader(header).Ok? && EncryptAndSerializePayload(payload, encrypt).Ok?
    ensures SerializeHeader(header).Err? ==> r == Err(SerializationError)
    ensures SerializeHeader(header).Ok? && EncryptAndSerializePayload(payload, encrypt).Err? ==>
              r == Err(EncryptAndSerializePayload(payload, encrypt).error)
    ensures r.Ok? ==> (|r.value| >= PAYLOAD_OFFSET &&
              r.value[..PAYLOAD_OFFSET] == SerializeHeader(header).value &&
              r.value[PAYLOAD_OFFSET..] == EncryptAndSerializePayload(payload, encrypt).value)
  {
    var headerBuffer :- SerializeHeader(header);
    var encryptedPayloadBuffer :- EncryptAndSerializePayload(payload, encrypt);
    ConcatPair(headerBuffer, encryptedPayloadBuffer);
    Ok(Concat([headerBuffer, encryptedPayloadBuffer]))
  }

  /** The header of a created buffer reads back as the header it was
      created with, when version and threshold fit in a byte. */
  lemma CreatedHeaderReadsBack(header: SliceFileHeader, payload: SliceFilePayload, encrypt: seq<byte> -> Result<EncryptedData>)
    requires 0 <= header.version < 256 && 0 <= header.threshold < 256
    requires CreateBuffer(header, payload, encrypt).Ok?
    ensures GetHeader(CreateBuffer(header, payload, encrypt).value) == Ok(header)
  {
    HeaderRoundTrip(header);
  }

  /** The payload of a created buffer decrypts back to the payload it was
      created with, given a decryption that undoes the encryption. */
  lemma CreatedPayloadReadsBack(header: SliceFileHeader, payload: SliceFilePayload,
                                encrypt: seq<byte> -> Result<EncryptedData>, decrypt: EncryptedData -> Result<seq<byte>>)
    requires DecryptInverts(encrypt, decrypt)
    requires CreateBuffer(header, payload, encrypt).Ok?
    ensures GetDecryptedPayload(CreateBuffer(header, payload, encrypt).value, decrypt) == Ok(payload)
  {
    EncryptedPayloadRoundTrip(payload, encrypt, decrypt);
  }
}
