/** The fixed 66-byte slice-file header (src/lib/sliceFile/header.ts):
    the format version, the threshold, and the recipient's key slice as 32
    (x, y) byte pairs. */
module Header {
  import opened Errors
  import opened Bytes
  import opened ShareTypes
  import opened BufferUtils

  /** The length of an AES-256 key in bytes. */
  const AES_KEY_BYTE_SIZE: nat := 32
  /** One share (two bytes) per key byte. */
  const KEY_SLICE_SIZE: nat := AES_KEY_BYTE_SIZE * 2
  const VERSION_OFFSET: nat := 0
  const VERSION_SIZE: nat := 1
  const THRESHOLD_OFFSET: nat := VERSION_OFFSET + VERSION_SIZE
  const THRESHOLD_SIZE: nat := 1
  const KEY_SLICE_OFFSET: nat := THRESHOLD_OFFSET + THRESHOLD_SIZE
  const HEADER_SIZE: nat := KEY_SLICE_OFFSET + KEY_SLICE_SIZE

  datatype SliceFileHeader = SliceFileHeader(version: int, threshold: int, keySlice: Slice)

  /** The layout's sizes and offsets. */
  lemma Layout()
    ensures KEY_SLICE_SIZE == 64 && HEADER_SIZE == 66
    ensures THRESHOLD_OFFSET == 1 && KEY_SLICE_OFFSET == 2
  {
  }

  /** The shares' components pair by pair, as `keySlice.flat()` lists them. */
  function Flatten(keySlice: Slice): (r: seq<byte>)
    ensures |r| == 2 * |keySlice|
    ensures forall i :: 0 <= i < |keySlice| ==> r[2 * i] == keySlice[i].x && r[2 * i + 1] == keySlice[i].y
  {
    if |keySlice| == 0 then []
    else
      var n := |keySlice| - 1;
      Flatten(keySlice[..n]) + [keySlice[n].x, keySlice[n].y]
  }

  /** serializeKeySlice: the flattened shares; a SerializationError unless
      there are exactly KEY_SLICE_SIZE / 2 shares. */
  function SerializeKeySlice(keySlice: Slice): (r: Result<seq<byte>>)
    ensures r.Ok? <==> |keySlice| * 2 == KEY_SLICE_SIZE
    ensures r.Err? ==> r.error == SerializationError
    ensures r.Ok? ==> (|r.value| == KEY_SLICE_SIZE &&
              forall i :: 0 <= i < |keySlice| ==> r.value[2 * i] == keySlice[i].x && r.value[2 * i + 1] == keySlice[i].y)
  {
    if |keySlice| * 2 != KEY_SLICE_SIZE then Err(SerializationError)
    else Ok(Flatten(keySlice))
  }

  /** deserializeKeySlice: share i is bytes 2i and 2i + 1; a
      SerializationError unless the view is exactly KEY_SLICE_SIZE bytes. */
  function DeserializeKeySlice(view: seq<byte>): (r: Result<Slice>)
    ensures r.Ok? <==> |view| == KEY_SLICE_SIZE
    ensures r.Err? ==> r.error == SerializationError
    ensures r.Ok? ==> (|r.value| == KEY_SLICE_SIZE / 2 &&
              forall i :: 0 <= i < |r.value| ==> r.value[i] == Share(view[2 * i], view[2 * i + 1]))
  {
    if |view| != KEY_SLICE_SIZE then Err(SerializationError)
    else Ok(seq(|view| / 2, i requires 0 <= i < |view| / 2 => Share(view[i * 2], view[i * 2 + 1])))
  }

  /** A key slice of the right length survives serialisation. */
  lemma KeySliceRoundTrip(keySlice: Slice)
    requires |keySlice| * 2 == KEY_SLICE_SIZE
    ensures DeserializeKeySlice(SerializeKeySlice(keySlice).value) == Ok(keySlice)
  {
    var view := SerializeKeySlice(keySlice).value;
    var back := DeserializeKeySlice(view).value;
    forall i | 0 <= i < |back|
      ensures back[i] == keySlice[i]
    {
      assert back[i] == Share(view[2 * i], view[2 * i + 1]);
      assert view[2 * i] == keySlice[i].x && view[2 * i + 1] == keySlice[i].y;
    }
    assert back == keySlice;
  }

  /** Every key-slice view of the right length is the serialisation of the
      slice read from it. */
  lemma KeySliceViewRoundTrip(view: seq<byte>)
    requires |view| == KEY_SLICE_SIZE
    ensures SerializeKeySlice(DeserializeKeySlice(view).value) == Ok(view)
  {
    var keySlice := DeserializeKeySlice(view).value;
    var out := SerializeKeySlice(keySlice).value;
    forall j | 0 <= j < |view|
      ensures out[j] == view[j]
    {
      var i := j / 2;
      assert keySlice[i] == Share(view[2 * i], view[2 * i + 1]);
      assert out[2 * i] == keySlice[i].x && out[2 * i + 1] == keySlice[i].y;
      assert j == 2 * i || j == 2 * i + 1;
    }
    assert out == view;
  }

  /** serializeHeader: version byte, threshold byte, then the key slice;
      version and threshold are stored modulo 2^8. */
  function SerializeHeader(header: SliceFileHeader): (r: Result<seq<byte>>)
    ensures r.Ok? <==> |header.keySlice| * 2 == KEY_SLICE_SIZE
    ensures r.Err? ==> r.error == SerializationError
    ensures r.Ok? ==> (|r.value| == HEADER_SIZE &&
              (r.value[VERSION_OFFSET] - header.version) % 256 == 0 &&
              (r.value[THRESHOLD_OFFSET] - header.threshold) % 256 == 0 &&
              r.value[KEY_SLICE_OFFSET..] == SerializeKeySlice(header.keySlice).value)
  {
    var versionBuffer := SerializeUint8(header.version);
    var thresholdBuffer := SerializeUint8(header.threshold);
    var keySliceBuffer :- SerializeKeySlice(header.keySlice);
    ConcatTriple(versionBuffer, thresholdBuffer, keySliceBuffer);
    Ok(Concat([versionBuffer, thresholdBuffer, keySliceBuffer]))
  }

  /** deserializeHeader: reads the version and threshold bytes, failing
      with a RangeError when they are missing, then the key slice from the
      next KEY_SLICE_SIZE bytes, failing with a SerializationError when
      fewer remain. */
  function DeserializeHeader(bytes: seq<byte>): (r: Result<SliceFileHeader>)
    ensures |bytes| <= THRESHOLD_OFFSET ==> r == Err(RangeError(OutOfBounds))
    ensures THRESHOLD_OFFSET < |bytes| < HEADER_SIZE ==> r == Err(SerializationError)
    ensures r.Ok? <==> |bytes| >= HEADER_SIZE
    ensures r.Ok? ==> (r.value.version == bytes[VERSION_OFFSET] &&
              r.value.threshold == bytes[THRESHOLD_OFFSET] &&
              DeserializeKeySlice(bytes[KEY_SLICE_OFFSET..HEADER_SIZE]) == Ok(r.value.keySlice))
  {
    var version :- DeserializeUint8(bytes, VERSION_OFFSET);
    var threshold :- DeserializeUint8(bytes, THRESHOLD_OFFSET);
    var keySliceView := Uint8ArraySubView(bytes, KEY_SLICE_OFFSET, Some(KEY_SLICE_SIZE));
    var keySlice :- DeserializeKeySlice(keySliceView);
    Ok(SliceFileHeader(version, threshold, keySlice))
  }

  /** A header whose fields fit their bytes survives serialisation. */
  lemma HeaderRoundTrip(header: SliceFileHeader)
    requires 0 <= header.version < 256 && 0 <= header.threshold < 256
    requires |header.keySlice| * 2 == KEY_SLICE_SIZE
    ensures DeserializeHeader(SerializeHeader(header).value) == Ok(header)
  {
    var bytes := SerializeHeader(header).value;
    assert bytes[KEY_SLICE_OFFSET..HEADER_SIZE] == bytes[KEY_SLICE_OFFSET..];
    KeySliceRoundTrip(header.keySlice);
  }

  /** Every 66-byte header is the serialisation of the header read from it. */
  lemma HeaderBytesRoundTrip(bytes: seq<byte>)
    requires |bytes| == HEADER_SIZE
    ensures SerializeHeader(DeserializeHeader(bytes).value) == Ok(bytes)
  {
    var header := DeserializeHeader(bytes).value;
    var view := bytes[KEY_SLICE_OFFSET..HEADER_SIZE];
    KeySliceViewRoundTrip(view);
    var out := SerializeHeader(header).value;
    assert out[KEY_SLICE_OFFSET..] == view;
    assert out[..KEY_SLICE_OFFSET] == [bytes[0], bytes[1]] by {
      SameByte(out[0], bytes[0]);
      SameByte(out[1], bytes[1]);
    }
    assert out == out[..KEY_SLICE_OFFSET] + out[KEY_SLICE_OFFSET..];
    assert bytes == bytes[..KEY_SLICE_OFFSET] + view;
    assert out == bytes;
  }

  /** Two bytes equal modulo 2^8 are equal. */
  lemma SameByte(a: byte, b: byte)
    requires (a - b) % 256 == 0
    ensures a == b
  {
  }

  /** Only the first HEADER_SIZE bytes are read: bytes after them never
      change the header. */
  lemma DeserializeHeaderIgnoresRest(bytes: seq<byte>, rest: seq<byte>)
    requires |bytes| >= HEADER_SIZE
    ensures DeserializeHeader(bytes + rest) == DeserializeHeader(bytes)
  {
    assert (bytes + rest)[KEY_SLICE_OFFSET..HEADER_SIZE] == bytes[KEY_SLICE_OFFSET..HEADER_SIZE];
  }

  /** The failure cases of header.test.ts: a 63-byte view and a slice of
      31 shares. */
  lemma HeaderExamples()
    ensures DeserializeKeySlice(seq(KEY_SLICE_SIZE - 1, _ => 0)) == Err(SerializationError)
    ensures SerializeKeySlice(seq(KEY_SLICE_SIZE / 2 - 1, _ => Share(0, 1))) == Err(SerializationError)
  {
  }
}
