/** The share and slice types of the secret-sharing module
    (src/lib/secretSharing/types.ts). */
module ShareTypes {
  import opened Bytes

  /** One point (x, y) of a byte's sharing polynomial.  Both components are
      field elements.  Generated shares have x in 1..254 (see
      `Sss.GenerateShares`); a share read from a header may hold any byte. */
  datatype Share = Share(x: byte, y: byte)

  /** The shares one recipient holds: one share per byte of the secret. */
  type Slice = seq<Share>

  /** No two shares have the same x coordinate. */
  predicate DistinctXs(ss: seq<Share>) {
    forall i, j :: 0 <= i < j < |ss| ==> ss[i].x != ss[j].x
  }
}
