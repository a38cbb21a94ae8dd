# diceslice core in Dafny

diceslice splits a secret payload into *slice files*. Any `threshold` of
the `count` slice files give the payload back; fewer give nothing.

The payload (JSON metadata plus data bytes) is encrypted with a fresh
AES-256-GCM key. That key is split with Shamir's secret sharing over
GF(2^8), one byte at a time, and the shares are transposed so that
recipient j holds share j of every key byte: their *key slice*. Each slice
file is then:

- a 66-byte header: format version, threshold, and the key slice as 32
  (x, y) byte pairs;
- followed by the encrypted payload: a 12-byte initialisation vector and
  the ciphertext of the framed payload (a 16-bit little-endian metadata
  length, the metadata, the data).

Assembly reads every header and checks that there are at least two files
and that all headers agree on one threshold. It checks there are at least
that many files, rebuilds the key from the key slices by Lagrange
interpolation at 0, and decrypts the first file's payload.

The project models this engine as Dafny functions, methods and lemmas. Each
module follows one source file.

| module | file | source |
|---|---|---|
| `Errors` | errors.dfy | the error classes of src/lib/errors.ts as one datatype, plus the `Result` type that stands for throwing |
| `Bytes`, `Bitwise` | bytes.dfy, bitwise.dfy | bytes as integers 0..255, JavaScript's relative slice indices, XOR on naturals |
| `GF256` | gf256.dfy | the field of FIPS 197 section 4.2 (AES polynomial x^8 + x^4 + x^3 + x + 1, generator 3) through exponent and logarithm tables |
| `Polynomials`, `Lagrange` | polynomials.dfy, lagrange.dfy | polynomials over the field, and the proof that Lagrange interpolation recovers a polynomial of low enough degree |
| `ShareTypes` | sharetypes.dfy | the `Share` and `Slice` types |
| `Sss` | sss.dfy | src/lib/secretSharing/sss.ts |
| `Matrices` | transpose.dfy | src/lib/secretSharing/transpose.ts |
| `SecretSharing` | secretsharing.dfy | src/lib/secretSharing/index.ts |
| `BufferUtils` | bufferutils.dfy | src/lib/sliceFile/bufferUtils.ts |
| `Header` | header.dfy | src/lib/sliceFile/header.ts |
| `Payload` | payload.dfy | src/lib/sliceFile/payload.ts |
| `SliceFile` | slicefile.dfy | src/lib/sliceFile/index.ts |
| `Orchestrator` | orchestrator.dfy | src/lib/index.ts |

### How the source is mapped

**Throwing.** A thrown error is an `Err` of `Result`, and the first check
that fails decides which one. `try`/`catch` blocks that wrap every failure
in one class (`SecretSharingError` in src/lib/secretSharing/index.ts) map
every `Err` to that error. Blocks that re-throw every `Error` unchanged
(src/lib/index.ts) propagate the `Err` as it is.

**Loops and mutation.** Three functions of the source loop while updating
local state: `evalPolynomialAt`, `lagrangeInterpolate` and
`concatArrayBuffers`. The loop of `generateSliceFileBuffers` does too.
Each of these is a method with a loop, proved equal to a specification
function:

- `Sss.EvalPolynomialAt` against `Eval`;
- `Sss.LagrangeInterpolate` against `Interpolate`;
- `BufferUtils.ConcatArrayBuffers` against `Concat`, filling a preallocated
  array;
- `Orchestrator.GenerateSliceFileBuffers` against `GenerationOutcome`.

The rest of the core is expressions, modelled as functions.

**GF(2^8).** `GF256` defines the field from FIPS 197 section 4.2, and its
vector lemmas pin it to the expected values of
tests/unit/lib/secretSharing/gf256.test.ts. The tables are proved to be the
powers of 3 and their logarithms, and the field laws that interpolation
needs are proved from them.

**Shares.** The source's `Share` is a pair of numbers. Every producer of
shares yields bytes: `generateShares` takes x from 1 to numShares (at most
254) and y from field arithmetic, and `deserializeKeySlice` reads both with
`getUint8`. So both components of a `Share` are typed as bytes.

**Buffers.** `ArrayBuffer`, `Uint8Array` and `DataView` are all the
sequence of their bytes, `seq<byte>`.

The source passes a `Uint8Array` where it builds a `DataView`
(src/lib/sliceFile/header.ts:31, src/lib/sliceFile/bufferUtils.ts:43). It
calls `.subarray` on an `ArrayBuffer` (src/lib/sliceFile/index.ts:12,
src/lib/sliceFile/bufferUtils.ts:24). It imports `concatBuffers` under a
name bufferUtils.ts does not export (src/lib/sliceFile/payload.ts:4). The
model reads each of these as the byte layout evidently intended.

`getHeader` hands `deserializeHeader` the view's whole underlying buffer,
not just its first 66 bytes. Since only those 66 bytes are read, the model
passes the 66-byte prefix. `Header.DeserializeHeaderIgnoresRest` proves
the two agree.

**Encryption and randomness** are parameters:

- `key` is the outcome of generating and exporting the AES key.
- `encrypt(i)` is AES-GCM encryption under that key for the i-th slice
  file. The source encrypts once per slice file, each time with a fresh
  vector, so each file gets its own function.
- `decrypt(k)` is decryption under the raw key k.
- `draw(b)(k)` is the k-th random coefficient of key byte b.

The only fact assumed about AES-GCM is `Payload.DecryptInverts`: a
successful encryption uses a 12-byte vector, and decryption under the same
key gives the plaintext back. It is a hypothesis of the lemmas that use it.

## Model

| member | source | states |
|---|---|---|
| GF256.CheckRange | src/lib/secretSharing/sss.ts:82 | a value is accepted as a field element exactly when it lies in 0..255; otherwise GF256RangeError |
| GF256.RangeVectors | tests/unit/lib/secretSharing/gf256.test.ts:94-101 | -1 and 256 are rejected, 0 and 255 accepted |
| GF256.ExpTableIsPowers | tests/unit/lib/secretSharing/gf256.test.ts:61-67 | entry i of the exponent table is 3 multiplied by itself i times in the field |
| GF256.Exp | tests/unit/lib/secretSharing/gf256.test.ts:61-67 | a power of the generator is never 0 |
| GF256.Log | tests/unit/lib/secretSharing/gf256.test.ts:70-79 | the logarithm fails exactly at 0, with GF256UndefinedOperationError; otherwise it lies in 0..254 and its exponent is the argument |
| GF256.LogOfExp | tests/unit/lib/secretSharing/gf256.test.ts:74 | the logarithm of 3^n is n modulo 255 |
| GF256.Mul | tests/unit/lib/secretSharing/gf256.test.ts:38-46 | a product is 0 exactly when a factor is 0 |
| GF256.Div | tests/unit/lib/secretSharing/gf256.test.ts:48-59 | division fails exactly on a zero divisor, with GF256UndefinedOperationError; otherwise the quotient times the divisor is the dividend |
| GF256.Inv | tests/unit/lib/secretSharing/gf256.test.ts:82-92 | the inverse fails exactly at 0; otherwise its product with the argument is 1 |
| GF256.DivIsMulInverse | tests/unit/lib/secretSharing/gf256.test.ts:48-54 | dividing by b is multiplying by the inverse of b |
| GF256.AddCommutes | tests/unit/lib/secretSharing/gf256.test.ts:24 | addition (XOR) is commutative |
| GF256.AddCancels | tests/unit/lib/secretSharing/gf256.test.ts:18-36 | a + b is 0 exactly when a = b, and adding b twice gives a back: subtraction is addition |
| GF256.MulCommutes | tests/unit/lib/secretSharing/gf256.test.ts:44 | multiplication is commutative |
| GF256.MulAssociates | tests/unit/lib/secretSharing/gf256.test.ts:38-46 | multiplication is associative |
| GF256.MulDistributes | tests/unit/lib/secretSharing/gf256.test.ts:38-46 | multiplication distributes over addition on both sides |
| GF256.MulCancels | tests/unit/lib/secretSharing/gf256.test.ts:48-54 | a nonzero factor cancels |
| GF256.AddVectors | tests/unit/lib/secretSharing/gf256.test.ts:18-36 | the addition and subtraction vectors: 5+3 = 6, 7+7 = 0, 0+255 = 255, 255+255 = 0 |
| GF256.MulVectors | tests/unit/lib/secretSharing/gf256.test.ts:40-43 | 3·4 = 12, 3·0 = 0, 255·200 = 99, 1·200 = 200 |
| GF256.DivVectors | tests/unit/lib/secretSharing/gf256.test.ts:50-57 | 3/4 = 70, 1/255 = 28, 1/1 = 1, and 5/0 fails |
| GF256.ExpLogVectors | tests/unit/lib/secretSharing/gf256.test.ts:63-78 | exp 5 = 51, exp 255 = exp 0 = 1, log 3 = 1, log 255 = 7, log 0 fails |
| GF256.InvVectors | tests/unit/lib/secretSharing/gf256.test.ts:84-90 | inv 3 = 246, inv 255 = 28, inv 0 fails |
| Polynomials.EvalAtZero | src/lib/secretSharing/sss.ts:13-17 | a polynomial evaluated at 0 is its constant term, so share generation at x = 0 would reveal the secret |
| Polynomials.ManyRootsVanish | src/lib/secretSharing/sss.ts:59-78 | a polynomial with at most n coefficients that vanishes at n distinct points vanishes everywhere |
| Lagrange.DenominatorNonzero | src/lib/secretSharing/sss.ts:65-73 | the product of xi - xj over the xj different from xi is never 0, so the division cannot fail |
| Lagrange.InterpolateAtPoint | src/lib/secretSharing/sss.ts:59-78 | with distinct x, the interpolant at a share's x is that share's y |
| Lagrange.InterpolationRecovers | src/lib/secretSharing/sss.ts:59-78 | shares with distinct x taken from a polynomial with no more coefficients than shares interpolate to that polynomial at every point |
| Sss.ValidateGenerationParams | src/lib/secretSharing/sss.ts:80-94 | accepts exactly a byte secret, 2 <= threshold <= numShares and numShares < 255; the secret check comes first, then the threshold check, then the share-count check, each with its own error |
| Sss.Coefficients | src/lib/secretSharing/sss.ts:13-17 | threshold coefficients, the secret first |
| Sss.GenerateShares | src/lib/secretSharing/sss.ts:10-29 | succeeds exactly when the parameters pass validation, with its error otherwise; returns numShares shares, share i at x = i + 1 (nonzero, pairwise distinct) with y the polynomial's value there |
| Sss.EvalPolynomialAt | src/lib/secretSharing/sss.ts:46-56 | the running-power loop computes the polynomial's value at x |
| Sss.EvalGrows | src/lib/secretSharing/sss.ts:50-53 | one loop step adds the next coefficient times the next power |
| Sss.LagrangeInterpolate | src/lib/secretSharing/sss.ts:59-78 | the nested loops compute the Lagrange interpolant at x, skipping every xj equal to xi |
| Sss.BasisProductGrows | src/lib/secretSharing/sss.ts:65-70 | one inner-loop step multiplies in x - xj and xi - xj only when xj differs from xi |
| Sss.ReconstructSecret | src/lib/secretSharing/sss.ts:32-43 | fewer shares than the threshold is an error, checked first; a repeated (x, y) pair is an error; otherwise the first threshold shares are interpolated at 0 |
| Sss.ReconstructIgnoresLaterShares | src/lib/secretSharing/sss.ts:39-41 | when the list already holds at least threshold shares and no (x, y) pair repeats in the extended list, appending shares does not change the result |
| Sss.DecimalInjective | src/lib/secretSharing/sss.ts:97 | different numbers print as different decimal strings |
| Sss.KeyInjective | src/lib/secretSharing/sss.ts:97 | the key `${x}-${y}` determines the share |
| Sss.Key | src/lib/secretSharing/sss.ts:97 | the key is the decimal x, a dash, the decimal y, and that dash is its only one |
| Sss.KeySet | src/lib/secretSharing/sss.ts:98 | the Set holds the key of every share and has no more keys than there are shares |
| Sss.KeySetIsKeys | src/lib/secretSharing/sss.ts:97-98 | the Set is exactly the set of the shares' keys: it holds every share's key and nothing else |
| Sss.KeySetSizeIff | src/lib/secretSharing/sss.ts:96-100 | the key Set is as large as the list exactly when no (x, y) pair repeats |
| Sss.SharesAreUnique | src/lib/secretSharing/sss.ts:96-100 | sharesAreUnique holds exactly when no (x, y) pair occurs twice in the list |
| Sss.ReconstructRecovers | src/lib/secretSharing/sss.ts:32-43 | any threshold or more distinct shares of one generation, in any order, reconstruct the secret, whatever the random coefficients |
| Sss.GenerateThenReconstruct | tests/unit/lib/secretSharing/sss.test.ts:15-20 | all the shares of a generation reconstruct its secret |
| Sss.ConflictingSharesAccepted | src/lib/secretSharing/sss.ts:96-100 | two shares with one x and different y pass the uniqueness check, and reconstruction returns a value, not an error |
| Matrices.Transpose | src/lib/secretSharing/transpose.ts:1-14 | fails with "irregular dimensions" when a row's length differs from the first row's, checked first; fails when there are no rows or no columns; otherwise has numCols rows of length numRows with entry [c][r] = matrix[r][c] |
| Matrices.TransposeTwice | src/lib/secretSharing/transpose.ts:13 | transposing twice gives the matrix back |
| Matrices.TransposeExamples | tests/unit/lib/secretSharing/transpose.test.ts:6-32 | the 2×3 example, the ragged matrix and the empty matrix |
| SecretSharing.SharesPerByte | src/lib/secretSharing/index.ts:12-14 | the shares of every byte, or a failure exactly when some byte's generation fails |
| SecretSharing.GenerateSlices | src/lib/secretSharing/index.ts:6-20 | succeeds exactly for a non-empty secret and 2 <= threshold <= count < 255, otherwise SecretSharingError; count slices of one share per secret byte, share b of slice j being (j + 1, byte b's polynomial at j + 1) |
| SecretSharing.SlicesDiffer | src/lib/secretSharing/index.ts:12-15 | the slices of one generation differ pairwise |
| SecretSharing.AssembleSecretFromSlices | src/lib/secretSharing/index.ts:22-30 | succeeds exactly when the slices transpose and every column reconstructs; byte b is the reconstruction of column b in slice order; every failure is SecretSharingError |
| SecretSharing.AssembleRecovers | src/lib/secretSharing/index.ts:22-30 | any threshold or more different slices of one generation, in any order, assemble into the secret |
| SecretSharing.GenerateThenAssemble | tests/unit/lib/secretSharing/index.test.ts:15-20 | all the slices of a generation assemble into its secret |
| BufferUtils.ConcatArrayBuffers | src/lib/sliceFile/bufferUtils.ts:2-14 | the offset loop that fills the preallocated result produces the inputs' concatenation |
| BufferUtils.ConcatLength | src/lib/sliceFile/bufferUtils.ts:3 | the concatenation is as long as the inputs together |
| BufferUtils.ConcatPlacesInputs | src/lib/sliceFile/bufferUtils.ts:7-11 | byte k of input i lands at the inputs' earlier total length plus k |
| BufferUtils.Uint8ArraySubView | src/lib/sliceFile/bufferUtils.ts:17-25 | the bytes from offset to offset + length, both clamped to the view's end, or to the end without a length |
| BufferUtils.Uint8ArrayView | src/lib/sliceFile/bufferUtils.ts:28-34 | fails with a RangeError exactly when the offset or length is negative or the range passes the end; otherwise those bytes |
| BufferUtils.SerializeUint8 | src/lib/sliceFile/bufferUtils.ts:37-39 | one byte, equal to the number modulo 256 |
| BufferUtils.DeserializeUint8 | src/lib/sliceFile/bufferUtils.ts:42-44 | the byte at the offset; a RangeError exactly when the offset is outside the buffer |
| BufferUtils.SerializeUint16 | src/lib/sliceFile/bufferUtils.ts:47-49 | two bytes, low byte first, whose value is the number modulo 65536 |
| BufferUtils.DeserializeUint16 | src/lib/sliceFile/bufferUtils.ts:52-54 | the little-endian value of the two bytes at the offset; a RangeError exactly when they are not both inside |
| BufferUtils.Uint8RoundTrip | src/lib/sliceFile/bufferUtils.ts:37-44 | a byte is written as itself and read back |
| BufferUtils.Uint16RoundTrip | src/lib/sliceFile/bufferUtils.ts:47-54 | every value in 0..65535 is written and read back unchanged |
| BufferUtils.Uint16Wraps | src/lib/sliceFile/bufferUtils.ts:47-54 | a larger number reads back modulo 65536 |
| BufferUtils.BufferUtilsExamples | tests/unit/lib/sliceFile/bufferUtils.test.ts:16-68 | the concatenation, view, sub-view and integer examples |
| Header.Layout | src/lib/sliceFile/header.ts:12-20 | KEY_SLICE_SIZE is 64 and HEADER_SIZE is 66, the key slice starting at byte 2 |
| Header.Flatten | src/lib/sliceFile/header.ts:59 | share i's x and y at bytes 2i and 2i + 1 |
| Header.SerializeKeySlice | src/lib/sliceFile/header.ts:53-61 | SerializationError unless there are exactly 32 shares; otherwise 64 bytes, share i at bytes 2i and 2i + 1 |
| Header.DeserializeKeySlice | src/lib/sliceFile/header.ts:39-51 | SerializationError unless the view is exactly 64 bytes; otherwise 32 shares, share i being (byte 2i, byte 2i + 1) |
| Header.KeySliceRoundTrip | tests/unit/lib/sliceFile/header.test.ts:26-35 | every 32-share key slice survives serialisation |
| Header.KeySliceViewRoundTrip | src/lib/sliceFile/header.ts:39-61 | every 64-byte view is the serialisation of the slice read from it |
| Header.SerializeHeader | src/lib/sliceFile/header.ts:22-28 | fails exactly when the key slice does not serialise; otherwise 66 bytes: version and threshold modulo 256, then the serialised key slice |
| Header.DeserializeHeader | src/lib/sliceFile/header.ts:30-37 | a RangeError with at most one byte, a SerializationError with 2 to 65 bytes, success exactly from 66 bytes: version byte, threshold byte, and the key slice of bytes 2..66 |
| Header.HeaderRoundTrip | tests/unit/lib/sliceFile/header.test.ts:13-24 | a header whose version and threshold are bytes and whose slice has 32 shares survives serialisation |
| Header.HeaderBytesRoundTrip | src/lib/sliceFile/header.ts:22-37 | every 66 bytes are the serialisation of the header read from them |
| Header.DeserializeHeaderIgnoresRest | src/lib/sliceFile/header.ts:30-37 | bytes after the first 66 never change the header read |
| Header.HeaderExamples | tests/unit/lib/sliceFile/header.test.ts:37-47 | a 63-byte view and a 31-share slice raise SerializationError |
| Payload.SerializeEncryptedData | src/lib/sliceFile/payload.ts:60-62 | the vector, then the ciphertext |
| Payload.DeserializeEncryptedData | src/lib/sliceFile/payload.ts:64-68 | the first 12 bytes are the vector and the rest the ciphertext; a shorter view is all vector |
| Payload.EncryptedDataRoundTrip | src/lib/sliceFile/payload.ts:60-68 | encrypted data with a 12-byte vector survives framing |
| Payload.EncryptedBytesRoundTrip | src/lib/sliceFile/payload.ts:60-68 | every view of at least 12 bytes is the framing of what is read from it |
| Payload.SerializeMetadata | src/lib/sliceFile/payload.ts:81-94 | SerializationError exactly when the metadata exceeds 65535 bytes; otherwise a 16-bit prefix that reads back as the length, then the metadata |
| Payload.DeserializeMetadata | src/lib/sliceFile/payload.ts:96-107 | a RangeError when the prefix or the metadata runs past the end; otherwise the metadata is bytes 2 to 2 + m, where m is the prefix, and byteLength is 2 + m |
| Payload.SerializePayload | src/lib/sliceFile/payload.ts:70-73 | fails exactly when the metadata is too long; otherwise the framed metadata followed by the data |
| Payload.DeserializePayload | src/lib/sliceFile/payload.ts:75-79 | succeeds exactly when the metadata reads, otherwise a RangeError; the buffer is then exactly the framed metadata followed by the data |
| Payload.PayloadRoundTrip | tests/unit/lib/sliceFile/payload.test.ts:20-52 | every payload whose metadata fits, with empty metadata or data included, survives serialisation |
| Payload.PayloadBytesRoundTrip | src/lib/sliceFile/payload.ts:70-79 | every buffer that deserialises is the serialisation of its payload |
| Payload.PayloadExample | src/lib/sliceFile/payload.ts:70-94 | metadata `{}` (bytes 123, 125) with data [1, 2] serialises to [2, 0, 123, 125, 1, 2] |
| Payload.EncryptAndSerializePayload | src/lib/sliceFile/payload.ts:30-43 | the serialisation's error comes first, then encryption's; otherwise the framed encrypted data |
| Payload.DecryptAndDeserializePayload | src/lib/sliceFile/payload.ts:45-58 | decryption's error comes first; otherwise the deserialised plaintext |
| Payload.EncryptedPayloadRoundTrip | tests/unit/lib/sliceFile/payload.test.ts:20-52 | with decryption that undoes encryption, the encrypted framed payload decrypts to the payload |
| SliceFile.GetHeader | src/lib/sliceFile/index.ts:11-14 | succeeds exactly on at least 66 bytes, otherwise a RangeError; the header is read from the first 66 bytes |
| SliceFile.GetDecryptedPayload | src/lib/sliceFile/index.ts:16-23 | a RangeError on fewer than 66 bytes; otherwise the bytes from offset 66 to the end, decrypted and deserialised |
| SliceFile.CreateBuffer | src/lib/sliceFile/index.ts:25-34 | succeeds exactly when the header serialises and the payload encrypts, the header's error first; the first 66 bytes are the header and the rest the encrypted payload |
| SliceFile.CreatedHeaderReadsBack | tests/unit/lib/sliceFile/index.test.ts:36-37 | the header of a created buffer reads back as the header it was created with |
| SliceFile.CreatedPayloadReadsBack | src/lib/sliceFile/index.ts:16-34 | the payload of a created buffer decrypts back to the payload |
| Orchestrator.Collect | src/lib/index.ts:31-36 | the step applied to every element in order, succeeding exactly when every step succeeds; on failure, the error of the first step that fails |
| Orchestrator.FailurePersists | src/lib/index.ts:31-36 | a failure among the first i steps is the failure of the whole loop |
| Orchestrator.HeaderFor | src/lib/index.ts:33 | the header of a slice file carries version 0, the threshold and its key slice; it serialises exactly when the slice has 32 shares, and then reads back as itself when the threshold fits a byte |
| Orchestrator.BufferFor | src/lib/index.ts:33-34 | the slice file for key slice k is created exactly when that slice has 32 shares and the k-th encryption of the payload succeeds |
| Orchestrator.SliceFileBuffers | src/lib/index.ts:31-36 | one slice file per key slice, in order, each the createBuffer of its own header and the payload; it fails exactly when some createBuffer fails, with the error of the first one that does |
| Orchestrator.GenerationOutcome | src/lib/index.ts:13-45 | InvalidThresholdError when threshold < 2, checked first; then InvalidShareCountError when count < threshold; then the key's error, or SecretSharingError from 255 files on; once the key slices exist, exactly the outcome of SliceFileBuffers, so the error of the first failing createBuffer passes unchanged; on success exactly count slice files, one per key slice |
| Orchestrator.GenerateSliceFileBuffers | src/lib/index.ts:13-45 | the early returns and the loop that creates one slice file per key slice compute GenerationOutcome |
| Orchestrator.GeneratedHeaders | tests/unit/lib/index.test.ts:20-28 | every generated slice file's header reads back as version 0, the threshold and its own key slice, in key-slice order; the key has 32 bytes |
| Orchestrator.GeneratedPayloads | src/lib/index.ts:31-36 | every generated slice file's payload decrypts back to the payload |
| Orchestrator.ValidateMinimumSliceFiles | src/lib/index.ts:73-77 | InsufficientSlicesError exactly when there are fewer than 2 files |
| Orchestrator.GetHeaders | src/lib/index.ts:56 | every file's header in order; a RangeError exactly when some file is shorter than 66 bytes |
| Orchestrator.GetThreshold | src/lib/index.ts:97-109 | SecretAssemblyError without headers; InconsistentThresholdError exactly when some header's threshold differs from the first header's; otherwise the common threshold |
| Orchestrator.ValidateThresholdRequirement | src/lib/index.ts:79-85 | the base SecretAssemblyError exactly when there are fewer files than the threshold |
| Orchestrator.ImportAESKey | src/lib/webCrypto/key.ts:30-35 | CryptoError unless the key has 32 bytes |
| Orchestrator.KeySlices | src/lib/index.ts:91 | the headers' key slices in header order |
| Orchestrator.AssembleCryptoKey | src/lib/index.ts:87-95 | the key assembled from the key slices in header order, SecretSharingError when assembly fails, CryptoError when the result is not 32 bytes |
| Orchestrator.AssembleSecretPayload | src/lib/index.ts:50-71 | the checks run in source order, each with its own error: fewer than 2 files, an unreadable header, inconsistent thresholds, fewer files than the threshold, a key that does not assemble; then the first file's payload decrypted under the assembled key |
| Orchestrator.AssemblyValidationErrors | src/lib/errors.ts:15-27 | every error raised by assembly's own checks is a SecretAssemblyError or one of its two subclasses |
| Orchestrator.AssembleChecked | src/lib/index.ts:61-62 | files that pass every check give the first file's payload decrypted under the assembled key |
| Orchestrator.PickedFiles | src/lib/index.ts:56-57 | different files picked from one generation have different positions, their headers read in order, and they agree on the threshold |
| Orchestrator.HeadersOfAll | src/lib/index.ts:56 | buffers whose every header reads give those headers in order |
| Orchestrator.PickedKey | src/lib/index.ts:87-95 | headers holding at least threshold different key slices of one generation assemble into the key, which imports |
| Orchestrator.AssembleGenerated | src/lib/index.ts:50-71 | from the generated files' header and payload properties, any threshold or more different files assemble into the payload |
| Orchestrator.GenerateThenAssemble | tests/unit/lib/index.test.ts:20-41 | any threshold or more different slice files of one generation, in any order, assemble into the payload, given decryption that undoes each file's encryption |

## Left out

- AES-GCM key generation, export, import, encryption and decryption
  (src/lib/webCrypto/key.ts, src/lib/webCrypto/encryption.ts) are inputs:
  a key `Result`, per-file `encrypt` functions and a `decrypt` function.
  Their correctness is the `DecryptInverts` hypothesis, not a proof.
- Orchestrator.ImportAESKey: does not model a WebCrypto import failure
  after the size check; the imported key is identified with its bytes.
- Randomness is a parameter: the coefficient source `draw` (in place of
  src/lib/webCrypto/utils.ts:13-17) and the vector inside each `encrypt`.
- JSON.stringify/JSON.parse and TextEncoder/TextDecoder: metadata is the
  byte string its JSON text encodes to. The SyntaxError of parsing
  malformed metadata is not modelled, and neither are `serializeString`,
  `deserializeString` and `serializeFile`.
- The worker set-up and tear-down around encryption and decryption
  (src/lib/worker/**), and `async`/`await`: everything runs in sequence.
- Numbers are integers. Non-integer or NaN JavaScript numbers are not
  modelled.
- BufferUtils.SerializeUint16: assumes a little-endian platform, as
  `Uint16Array` writes in platform byte order and `deserializeUint16`
  reads little-endian.
- BufferUtils.SerializeUint8: models storing into a `Uint8Array` as
  reduction modulo 256. It does not model non-integer rounding.
- The `SliceFileGenerationError` and base `SecretAssemblyError` thrown for
  a non-`Error` exception (src/lib/index.ts:43, 69): every failure in the
  model is an `Error`, so that path cannot happen.
- Error messages are not modelled; only the error class and, for plain
  `Error`/`RangeError`, the reason are.
- QR rendering (src/lib/utils/qr.ts), bytesToSizeString, the UI and the
  detached-mode helpers used by tests/unit/lib/sliceFile/index.test.ts
  are outside the engine.
