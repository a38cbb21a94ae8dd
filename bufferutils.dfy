/** Byte-buffer helpers of the slice-file codec
    (src/lib/sliceFile/bufferUtils.ts): concatenation, views, and unsigned
    8- and 16-bit integers.  An `ArrayBuffer` and a `Uint8Array` over it
    are both the sequence of their bytes. */
module BufferUtils {
  import opened Errors
  import opened Bytes

  /** An argument that may be left `undefined`. */
  datatype Option<T> = None | Some(value: T)

  /** The inputs' bytes one after another. */
  function Concat(buffers: seq<seq<byte>>): seq<byte>
  {
    if |buffers| == 0 then [] else Concat(buffers[..|buffers| - 1]) + buffers[|buffers| - 1]
  }

  /** The sum of the inputs' lengths, summed from the left. */
  function TotalLength(buffers: seq<seq<byte>>): nat
  {
    if |buffers| == 0 then 0 else TotalLength(buffers[..|buffers| - 1]) + |buffers[|buffers| - 1]|
  }

  /** The concatenation is as long as the inputs together. */
  lemma {:induction false} ConcatLength(buffers: seq<seq<byte>>)
    ensures |Concat(buffers)| == TotalLength(buffers)
    decreases |buffers|
  {
    if |buffers| > 0 {
      ConcatLength(buffers[..|buffers| - 1]);
    }
  }

  /** Concatenation distributes over splitting the list of inputs. */
  lemma {:induction false} ConcatSplit(buffers: seq<seq<byte>>, i: nat)
    requires i <= |buffers|
    ensures Concat(buffers) == Concat(buffers[..i]) + Concat(buffers[i..])
    decreases |buffers|
  {
    if i < |buffers| {
      var n := |buffers| - 1;
      assert buffers[..n][..i] == buffers[..i];
      ConcatSplit(buffers[..n], i);
      assert buffers[i..][..|buffers[i..]| - 1] == buffers[..n][i..];
    } else {
      assert buffers[..i] == buffers;
      assert buffers[i..] == [];
    }
  }

  /** Byte k of input i sits at the total length of the inputs before it,
      plus k: the inputs appear in order and unchanged. */
  lemma ConcatPlacesInputs(buffers: seq<seq<byte>>, i: nat, k: nat)
    requires i < |buffers| && k < |buffers[i]|
    ensures TotalLength(buffers[..i]) + k < |Concat(buffers)|
    ensures Concat(buffers)[TotalLength(buffers[..i]) + k] == buffers[i][k]
  {
    ConcatSplit(buffers, i);
    ConcatLength(buffers[..i]);
    var rest := buffers[i..];
    ConcatSplit(rest, 1);
    assert rest[..1] == [buffers[i]];
    assert Concat([buffers[i]]) == Concat([]) + buffers[i];
  }

  /** Two inputs concatenate to their sequence concatenation. */
  lemma ConcatPair(a: seq<byte>, b: seq<byte>)
    ensures Concat([a, b]) == a + b
  {
    assert [a, b][..1] == [a];
    assert [a][..0] == [];
    assert Concat([a]) == a;
  }

  /** Three inputs concatenate to their sequence concatenation. */
  lemma ConcatTriple(a: seq<byte>, b: seq<byte>, c: seq<byte>)
    ensures Concat([a, b, c]) == a + b + c
  {
    assert [a, b, c][..2] == [a, b];
    ConcatPair(a, b);
  }

  /** concatArrayBuffers: a result buffer of the total length, filled input
      by input at an advancing offset. */
  method ConcatArrayBuffers(buffers: seq<seq<byte>>) returns (r: seq<byte>)
    ensures r == Concat(buffers)
  {
    var totalLength := TotalLength(buffers);
    var result := new byte[totalLength];
    var offset := 0;
    var i := 0;
    while i < |buffers|
      invariant i <= |buffers|
      invariant offset == TotalLength(buffers[..i]) <= totalLength
      invariant result[..offset] == Concat(buffers[..i])
    {
      var uint8 := buffers[i];
      PrefixFits(buffers, i);
      var j := 0;
      while j < |uint8|
        invariant j <= |uint8|
        invariant result[..offset + j] == Concat(buffers[..i]) + uint8[..j]
      {
        result[offset + j] := uint8[j];
        assert uint8[..j + 1] == uint8[..j] + [uint8[j]];
        j := j + 1;
      }
      assert buffers[..i + 1][..i] == buffers[..i];
      assert uint8[..j] == uint8;
      offset := offset + |uint8|;
      i := i + 1;
    }
    assert buffers[..i] == buffers;
    ConcatLength(buffers);
    assert result[..] == result[..offset];
    r := result[..];
  }

  /** The inputs up to and including input i fit in the total length. */
  lemma PrefixFits(buffers: seq<seq<byte>>, i: nat)
    requires i < |buffers|
    ensures TotalLength(buffers[..i]) + |buffers[i]| <= TotalLength(buffers)
  {
    ConcatSplit(buffers, i + 1);
    ConcatLength(buffers);
    ConcatLength(buffers[..i + 1]);
    assert buffers[..i + 1][..i] == buffers[..i];
  }

  /** uint8ArraySubView: `view.subarray(offset, offset + length)`, or to the
      end without a length; `subarray` clamps both ends to the view and
      reads a negative one from the back.  Every caller passes a constant,
      non-negative offset and length, so the contract states the value
      only for those; negative arguments are left unspecified. */
  function Uint8ArraySubView(view: seq<byte>, offset: int, length: Option<int>): (r: seq<byte>)
    ensures |r| <= |view|
    ensures 0 <= offset && length.None? ==> r == view[Min(offset, |view|)..]
    ensures 0 <= offset && length.Some? && 0 <= length.value ==>
              r == view[Min(offset, |view|)..Min(offset + length.value, |view|)]
  {
    var begin := RelativeIndex(|view|, offset);
    var end := match length
      case None => |view|
      case Some(len) => RelativeIndex(|view|, offset + len);
    if end <= begin then [] else view[begin..end]
  }

  function Min(a: int, b: int): int { if a <= b then a else b }

  /** uint8ArrayView: `new Uint8Array(buffer, offset, length)`, which rejects
      a negative offset or length and a range past the buffer's end with a
      RangeError; without a length the view runs to the end. */
  function Uint8ArrayView(buffer: seq<byte>, offset: int, length: Option<int>): (r: Result<seq<byte>>)
    ensures r.Ok? <==> 0 <= offset && match length
              case None => offset <= |buffer|
              case Some(len) => 0 <= len && offset + len <= |buffer|
    ensures r.Err? ==> r.error == RangeError(OutOfBounds)
    ensures r.Ok? && length.None? ==> r.value == buffer[offset..]
    ensures r.Ok? && length.Some? ==> r.value == buffer[offset..offset + length.value]
  {
    if offset < 0 then Err(RangeError(OutOfBounds))
    else match length
      case None =>
        if offset > |buffer| then Err(RangeError(OutOfBounds)) else Ok(buffer[offset..])
      case Some(len) =>
        if len < 0 || offset + len > |buffer| then Err(RangeError(OutOfBounds))
        else Ok(buffer[offset..offset + len])
  }

  /** serializeUint8: one byte holding the number modulo 2^8, as storing
      into a `Uint8Array` converts it. */
  function SerializeUint8(num: int): (r: seq<byte>)
    ensures |r| == 1
    ensures (r[0] - num) % 256 == 0
  {
    [num % 256]
  }

  /** deserializeUint8: `DataView.getUint8(offset)`; a RangeError when the
      offset is negative or not inside the buffer. */
  function DeserializeUint8(buffer: seq<byte>, offset: int): (r: Result<byte>)
    ensures r.Ok? <==> 0 <= offset < |buffer|
    ensures r.Err? ==> r.error == RangeError(OutOfBounds)
    ensures r.Ok? ==> r.value == buffer[offset]
  {
    if offset < 0 || offset + 1 > |buffer| then Err(RangeError(OutOfBounds))
    else Ok(buffer[offset])
  }

  /** serializeUint16: the two bytes of a `Uint16Array` holding the number
      modulo 2^16, low byte first. */
  function SerializeUint16(num: int): (r: seq<byte>)
    ensures |r| == 2
    ensures (r[0] + 256 * r[1] - num) % 65536 == 0
  {
    var n := num % 65536;
    [n % 256, n / 256]
  }

  /** deserializeUint16: `DataView.getUint16(offset, true)`, the
      little-endian value of two bytes; a RangeError when they are not both
      inside the buffer. */
  function DeserializeUint16(buffer: seq<byte>, offset: int): (r: Result<int>)
    ensures r.Ok? <==> 0 <= offset && offset + 2 <= |buffer|
    ensures r.Err? ==> r.error == RangeError(OutOfBounds)
    ensures r.Ok? ==> (0 <= r.value < 65536 && r.value % 256 == buffer[offset] &&
              r.value / 256 == buffer[offset + 1])
  {
    if offset < 0 || offset + 2 > |buffer| then Err(RangeError(OutOfBounds))
    else Ok(buffer[offset] as int + 256 * buffer[offset + 1] as int)
  }

  /** A byte survives serialisation and reading back. */
  lemma Uint8RoundTrip(num: byte)
    ensures SerializeUint8(num) == [num]
    ensures DeserializeUint8(SerializeUint8(num), 0) == Ok(num)
  {
  }

  /** Every 16-bit value survives serialisation and reading back. */
  lemma Uint16RoundTrip(num: int)
    requires 0 <= num < 65536
    ensures DeserializeUint16(SerializeUint16(num), 0) == Ok(num)
  {
  }

  /** Serialising a 16-bit value then reading it back yields the value
      modulo 2^16: larger numbers wrap around. */
  lemma Uint16Wraps(num: int)
    ensures DeserializeUint16(SerializeUint16(num), 0) == Ok(num % 65536)
  {
  }

  /** The cases of bufferUtils.test.ts. */
  lemma BufferUtilsExamples()
    ensures Concat([[1, 2, 3], [4, 5, 6]]) == [1, 2, 3, 4, 5, 6]
    ensures Uint8ArraySubView([1, 2, 3, 4, 5], 1, Some(3)) == [2, 3, 4]
    ensures Uint8ArrayView([1, 2, 3, 4, 5], 1, Some(3)) == Ok([2, 3, 4])
    ensures DeserializeUint8([1, 2, 3], 1) == Ok(2)
    ensures SerializeUint16(258) == [2, 1]
    ensures DeserializeUint16([2, 1], 0) == Ok(258)
    ensures SerializeUint8(3) == [3]
  {
    ConcatPair([1, 2, 3], [4, 5, 6]);
  }
}
