/** Byte-wise sharing of a whole secret (src/lib/secretSharing/index.ts):
    each byte is shared on its own, and transposition groups the shares so
    that slice j holds share j of every byte. */
module SecretSharing {
  import opened Errors
  import opened Bytes
  import opened GF256
  import opened Polynomials
  import opened ShareTypes
  import opened Matrices
  import opened Sss

  /** The shares of every byte, or the first error.  `draw(b)` is the random
      source of byte b's coefficients. */
  function SharesPerByte(secret: seq<byte>, threshold: int, count: int, draw: nat -> nat -> byte): (r: Result<seq<seq<Share>>>)
    ensures r.Ok? <==> forall b :: 0 <= b < |secret| ==> GenerateShares(secret[b], threshold, count, draw(b)).Ok?
    ensures r.Ok? ==> (|r.value| == |secret| &&
              forall b :: 0 <= b < |secret| ==> r.value[b] == GenerateShares(secret[b], threshold, count, draw(b)).value)
    decreases |secret|
  {
    if |secret| == 0 then Ok([])
    else
      var n := |secret| - 1;
      match SharesPerByte(secret[..n], threshold, count, draw)
      case Err(e) => Err(e)
      case Ok(front) =>
        match GenerateShares(secret[n], threshold, count, draw(n))
        case Err(e) => Err(e)
        case Ok(last) => Ok(front + [last])
  }

  /** generateSlices: `count` slices of `threshold`-of-`count` sharing; any
      failure, including an empty secret, becomes SecretSharingError. */
  function GenerateSlices(secret: seq<byte>, threshold: int, count: int, draw: nat -> nat -> byte): (r: Result<seq<Slice>>)
    ensures r.Ok? <==> |secret| > 0 && 2 <= threshold <= count < 255
    ensures r.Err? ==> r.error == SecretSharingError
    ensures r.Ok? ==> |r.value| == count && Rectangular(r.value, |secret|)
    ensures r.Ok? ==> forall j, b :: 0 <= j < count && 0 <= b < |secret| ==>
              r.value[j][b] == Share(j + 1, Eval(Coefficients(secret[b], threshold - 1, draw(b)), j + 1))
  {
    match SharesPerByte(secret, threshold, count, draw)
    case Err(_) => Err(SecretSharingError)
    case Ok(rows) =>
      if |secret| > 0 then
        var g := GenerateShares(secret[0], threshold, count, draw(0));
        assert g.Ok? && |rows[0]| == count;
        assert Rectangular(rows, count);
        match Transpose(rows)
        case Err(_) => Err(SecretSharingError)
        case Ok(slices) => Ok(slices)
      else
        assert Transpose(rows).Err?;
        Err(SecretSharingError)
  }

  /** assembleSecretFromSlices: the slices transposed back into the shares
      of each byte, and each byte reconstructed; any failure becomes
      SecretSharingError. */
  function AssembleSecretFromSlices(slices: seq<Slice>, threshold: int): (r: Result<seq<byte>>)
    ensures r.Err? ==> r.error == SecretSharingError
    ensures r.Ok? <==> (Transpose(slices).Ok? &&
              forall b :: 0 <= b < ColumnCount(slices) ==> ReconstructSecret(Column(slices, b), threshold).Ok?)
    ensures r.Ok? ==> (|r.value| == ColumnCount(slices) &&
              forall b :: 0 <= b < |r.value| ==> Ok(r.value[b]) == ReconstructSecret(Column(slices, b), threshold))
  {
    match Transpose(slices)
    case Err(_) => Err(SecretSharingError)
    case Ok(perByte) =>
      assert forall b :: 0 <= b < |perByte| ==> perByte[b] == Column(slices, b);
      if exists b :: 0 <= b < |perByte| && ReconstructSecret(perByte[b], threshold).Err? then Err(SecretSharingError)
      else
        var out := seq(|perByte|, b requires 0 <= b < |perByte| => ReconstructSecret(perByte[b], threshold).value);
        Ok(out)
  }

  /** Entry b of every row. */
  function Column(m: seq<Slice>, b: nat): (c: seq<Share>)
    requires forall k :: 0 <= k < |m| ==> b < |m[k]|
    ensures |c| == |m| && forall k :: 0 <= k < |m| ==> c[k] == m[k][b]
  {
    seq(|m|, k requires 0 <= k < |m| => m[k][b])
  }

  /** Any `threshold` or more different slices of one generation, in any
      order, assemble into the secret. */
  lemma AssembleRecovers(secret: seq<byte>, threshold: int, count: int, draw: nat -> nat -> byte, picked: seq<Slice>)
    requires GenerateSlices(secret, threshold, count, draw).Ok?
    requires forall k :: 0 <= k < |picked| ==> picked[k] in GenerateSlices(secret, threshold, count, draw).value
    requires forall k, l :: 0 <= k < l < |picked| ==> picked[k] != picked[l]
    requires |picked| >= threshold
    ensures AssembleSecretFromSlices(picked, threshold) == Ok(secret)
  {
    PickedShape(secret, threshold, count, draw, picked);
    PickedColumns(secret, threshold, count, draw, picked);
    AssembleColumns(picked, threshold, secret);
  }

  /** Every byte's shares in the picked slices reconstruct that byte. */
  lemma PickedColumns(secret: seq<byte>, threshold: int, count: int, draw: nat -> nat -> byte, picked: seq<Slice>)
    requires GenerateSlices(secret, threshold, count, draw).Ok?
    requires forall k :: 0 <= k < |picked| ==> picked[k] in GenerateSlices(secret, threshold, count, draw).value
    requires forall k, l :: 0 <= k < l < |picked| ==> picked[k] != picked[l]
    requires |picked| >= threshold
    ensures Rectangular(picked, |secret|)
    ensures forall b :: 0 <= b < |secret| ==> ReconstructSecret(Column(picked, b), threshold) == Ok(secret[b])
  {
    PickedShape(secret, threshold, count, draw, picked);
    forall b | 0 <= b < |secret|
      ensures ReconstructSecret(Column(picked, b), threshold) == Ok(secret[b])
    {
      PickedColumn(secret, threshold, count, draw, picked, b);
    }
  }

  /** Slices whose every column reconstructs a byte assemble into those bytes. */
  lemma AssembleColumns(slices: seq<Slice>, threshold: int, secret: seq<byte>)
    requires Transpose(slices).Ok? && ColumnCount(slices) == |secret|
    requires forall b :: 0 <= b < |secret| ==> ReconstructSecret(Column(slices, b), threshold) == Ok(secret[b])
    ensures AssembleSecretFromSlices(slices, threshold) == Ok(secret)
  {
    var r := AssembleSecretFromSlices(slices, threshold);
    assert r.Ok?;
    assert r.value == secret;
  }

  /** The picked slices form a matrix with one column per secret byte. */
  lemma PickedShape(secret: seq<byte>, threshold: int, count: int, draw: nat -> nat -> byte, picked: seq<Slice>)
    requires GenerateSlices(secret, threshold, count, draw).Ok?
    requires forall k :: 0 <= k < |picked| ==> picked[k] in GenerateSlices(secret, threshold, count, draw).value
    requires |picked| >= threshold
    ensures |picked| > 0 && ColumnCount(picked) == |secret| && Rectangular(picked, |secret|)
    ensures Transpose(picked).Ok?
  {
    var slices: seq<Slice> := GenerateSlices(secret, threshold, count, draw).value;
    forall k | 0 <= k < |picked|
      ensures |picked[k]| == |secret|
    {
      var i := IndexOf(slices, picked[k]);
    }
  }

  /** Byte b's shares in the picked slices are distinct shares of its
      generation, so they reconstruct byte b. */
  lemma PickedColumn(secret: seq<byte>, threshold: int, count: int, draw: nat -> nat -> byte, picked: seq<Slice>, b: nat)
    requires GenerateSlices(secret, threshold, count, draw).Ok?
    requires forall k :: 0 <= k < |picked| ==> picked[k] in GenerateSlices(secret, threshold, count, draw).value
    requires forall k, l :: 0 <= k < l < |picked| ==> picked[k] != picked[l]
    requires |picked| >= threshold && b < |secret|
    ensures forall k :: 0 <= k < |picked| ==> b < |picked[k]|
    ensures ReconstructSecret(Column(picked, b), threshold) == Ok(secret[b])
  {
    var slices: seq<Slice> := GenerateSlices(secret, threshold, count, draw).value;
    var idx := seq(|picked|, k requires 0 <= k < |picked| => IndexOf(slices, picked[k]));
    var all := GenerateShares(secret[b], threshold, count, draw(b)).value;
    forall k | 0 <= k < |picked|
      ensures b < |picked[k]| && picked[k][b] == all[idx[k]]
    {
      assert picked[k] == slices[idx[k]];
    }
    var column := Column(picked, b);
    forall k | 0 <= k < |column|
      ensures column[k] in all
    {
      assert column[k] == all[idx[k]];
    }
    forall k, l | 0 <= k < l < |column|
      ensures column[k] != column[l]
    {
      assert column[k] == all[idx[k]] && column[l] == all[idx[l]];
      assert idx[k] != idx[l];
    }
    ReconstructRecovers(secret[b], threshold, count, draw(b), column);
  }

  /** The position of an element known to be in the list. */
  function IndexOf<T(==)>(xs: seq<T>, x: T): (i: nat)
    requires x in xs
    ensures i < |xs| && xs[i] == x
  {
    if xs[0] == x then 0 else 1 + IndexOf(xs[1..], x)
  }

  /** All the slices of a generation assemble into its secret. */
  lemma GenerateThenAssemble(secret: seq<byte>, threshold: int, count: int, draw: nat -> nat -> byte)
    requires GenerateSlices(secret, threshold, count, draw).Ok?
    ensures AssembleSecretFromSlices(GenerateSlices(secret, threshold, count, draw).value, threshold) == Ok(secret)
  {
    SlicesDiffer(secret, threshold, count, draw);
    AssembleRecovers(secret, threshold, count, draw, GenerateSlices(secret, threshold, count, draw).value);
  }

  /** The slices of one generation differ pairwise: their shares' x differ. */
  lemma SlicesDiffer(secret: seq<byte>, threshold: int, count: int, draw: nat -> nat -> byte)
    requires GenerateSlices(secret, threshold, count, draw).Ok?
    ensures var slices := GenerateSlices(secret, threshold, count, draw).value;
      forall k, l :: 0 <= k < |slices| && 0 <= l < |slices| && k != l ==> slices[k] != slices[l]
  {
    var slices: seq<Slice> := GenerateSlices(secret, threshold, count, draw).value;
    forall k, l | 0 <= k < |slices| && 0 <= l < |slices| && k != l
      ensures slices[k] != slices[l]
    {
      assert slices[k][0].x != slices[l][0].x;
    }
  }
}
