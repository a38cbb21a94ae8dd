/** The library's two entry points (src/lib/index.ts): splitting a payload
    into slice files, each carrying one key slice and the whole payload
    encrypted under the key, and assembling the payload back from slice
    files.  Key generation, encryption and decryption are inputs: `key` is
    the outcome of generating and exporting the AES key, `encrypt(i)` is
    the encryption of the i-th slice file's payload under that key with its
    own fresh vector, and `decrypt(k)` is decryption under raw key k. */
module Orchestrator {
  import opened Errors
  import opened Bytes
  import opened ShareTypes
  import opened Sss
  import opened SecretSharing
  import opened Header
  import opened Payload
  import opened SliceFile

  /** The format version written into every header. */
  const VERSION_NUMBER: int := 0

  /** The header of a slice file holding one key slice: it serialises
      exactly when the slice has one share per key byte, and then reads
      back as itself whenever the threshold fits its byte. */
  function HeaderFor(threshold: int, keySlice: Slice): (h: SliceFileHeader)
    ensures h.version == VERSION_NUMBER && h.threshold == threshold && h.keySlice == keySlice
    ensures SerializeHeader(h).Ok? <==> |keySlice| == AES_KEY_BYTE_SIZE
    ensures 0 <= threshold < 256 && |keySlice| == AES_KEY_BYTE_SIZE ==>
              DeserializeHeader(SerializeHeader(h).value) == Ok(h)
  {
    var h := SliceFileHeader(VERSION_NUMBER, threshold, keySlice);
    if 0 <= threshold < 256 && |keySlice| == AES_KEY_BYTE_SIZE then HeaderRoundTrip(h); h else h
  }

  /** createBuffer for the k-th key slice: its header, and the payload
      encrypted with the k-th encryption.  Slice file k is created exactly
      when its key slice has one share per key byte and the k-th
      encryption of the payload succeeds. */
  function BufferFor(threshold: int, payload: SliceFilePayload, encrypt: nat -> seq<byte> -> Result<EncryptedData>):
    (create: (nat, Slice) -> Result<seq<byte>>)
    ensures forall k: nat, keySlice: Slice :: create(k, keySlice).Ok? <==>
              |keySlice| == AES_KEY_BYTE_SIZE && EncryptAndSerializePayload(payload, encrypt(k)).Ok?
  {
    (k: nat, keySlice: Slice) => CreateBuffer(HeaderFor(threshold, keySlice), payload, encrypt(k))
  }

  /** BufferFor applied: the k-th slice file's createBuffer. */
  lemma BufferForApplies(threshold: int, payload: SliceFilePayload, encrypt: nat -> seq<byte> -> Result<EncryptedData>,
                         k: nat, keySlice: Slice)
    ensures BufferFor(threshold, payload, encrypt)(k, keySlice) ==
            CreateBuffer(SliceFileHeader(VERSION_NUMBER, threshold, keySlice), payload, encrypt(k))
  {
  }

  /** `f` applied to every element and its position, in order, stopping at
      the first failure: a `map` or a loop whose step may throw. */
  function Collect<T, U>(xs: seq<T>, f: (nat, T) -> Result<U>): (r: Result<seq<U>>)
    ensures r.Ok? <==> forall k :: 0 <= k < |xs| ==> f(k, xs[k]).Ok?
    ensures r.Ok? ==> (|r.value| == |xs| && forall k :: 0 <= k < |xs| ==> Ok(r.value[k]) == f(k, xs[k]))
    ensures r.Err? ==> exists k :: (0 <= k < |xs| && f(k, xs[k]) == Err(r.error) &&
              forall l :: 0 <= l < k ==> f(l, xs[l]).Ok?)
    decreases |xs|
  {
    if |xs| == 0 then Ok([])
    else
      var n := |xs| - 1;
      match Collect(xs[..n], f)
      case Err(e) => Err(e)
      case Ok(front) =>
        match f(n, xs[n])
        case Err(e) => Err(e)
        case Ok(y) => Ok(front + [y])
  }

  /** A failure among the first i elements is the failure of them all. */
  lemma {:induction false} FailurePersists<T, U>(xs: seq<T>, i: nat, f: (nat, T) -> Result<U>)
    requires i <= |xs|
    requires Collect(xs[..i], f).Err?
    ensures Collect(xs, f) == Collect(xs[..i], f)
    decreases |xs| - i
  {
    if i < |xs| {
      assert xs[..i + 1][..i] == xs[..i];
      FailurePersists(xs, i + 1, f);
    } else {
      assert xs[..i] == xs;
    }
  }

  /** One more step of Collect: it extends the collected values, or its
      failure is the failure of the whole sequence. */
  lemma CollectStep<T, U>(xs: seq<T>, i: nat, f: (nat, T) -> Result<U>, done: seq<U>)
    requires i < |xs| && Collect(xs[..i], f) == Ok(done)
    ensures f(i, xs[i]).Ok? ==> Collect(xs[..i + 1], f) == Ok(done + [f(i, xs[i]).value])
    ensures f(i, xs[i]).Err? ==> Collect(xs, f) == Err(f(i, xs[i]).error)
  {
    assert xs[..i + 1][..i] == xs[..i];
    if f(i, xs[i]).Err? {
      FailurePersists(xs, i + 1, f);
    }
  }

  /** One slice file per key slice, in order, or the first failure. */
  function SliceFileBuffers(keySlices: seq<Slice>, threshold: int, payload: SliceFilePayload,
                            encrypt: nat -> seq<byte> -> Result<EncryptedData>): (r: Result<seq<seq<byte>>>)
    ensures r.Ok? <==> forall k :: 0 <= k < |keySlices| ==>
              CreateBuffer(HeaderFor(threshold, keySlices[k]), payload, encrypt(k)).Ok?
    ensures r.Ok? ==> (|r.value| == |keySlices| && forall k :: 0 <= k < |keySlices| ==>
              Ok(r.value[k]) == CreateBuffer(HeaderFor(threshold, keySlices[k]), payload, encrypt(k)))
    ensures r.Err? ==> exists k :: (0 <= k < |keySlices| &&
              CreateBuffer(HeaderFor(threshold, keySlices[k]), payload, encrypt(k)) == Err(r.error) &&
              forall l :: 0 <= l < k ==> CreateBuffer(HeaderFor(threshold, keySlices[l]), payload, encrypt(l)).Ok?)
  {
    Collect(keySlices, BufferFor(threshold, payload, encrypt))
  }

  /** What generateSliceFileBuffers produces: the threshold is checked
      first, then the count; then the key, its slices and the slice files,
      each error propagated unchanged. */
  function GenerationOutcome(threshold: int, count: int, payload: SliceFilePayload, key: Result<seq<byte>>,
                             draw: nat -> nat -> byte, encrypt: nat -> seq<byte> -> Result<EncryptedData>): (r: Result<seq<seq<byte>>>)
    ensures threshold < 2 ==> r == Err(InvalidThresholdError)
    ensures 2 <= threshold && count < threshold ==> r == Err(InvalidShareCountError)
    ensures 2 <= threshold <= count && key.Err? ==> r == Err(key.error)
    ensures 2 <= threshold <= count && key.Ok? && count >= 255 ==> r == Err(SecretSharingError)
    ensures r.Ok? ==> (2 <= threshold <= count < 255 && key.Ok? && |r.value| == count &&
              GenerateSlices(key.value, threshold, count, draw).Ok? &&
              r == SliceFileBuffers(GenerateSlices(key.value, threshold, count, draw).value, threshold, payload, encrypt))
    ensures 2 <= threshold <= count && key.Ok? && GenerateSlices(key.value, threshold, count, draw).Ok? ==>
              r == SliceFileBuffers(GenerateSlices(key.value, threshold, count, draw).value, threshold, payload, encrypt)
  {
    if threshold < 2 then Err(InvalidThresholdError)
    else if count < threshold then Err(InvalidShareCountError)
    else
      var keyBytes :- key;
      var keySlices :- GenerateSlices(keyBytes, threshold, count, draw);
      SliceFileBuffers(keySlices, threshold, payload, encrypt)
  }

  /** generateSliceFileBuffers: validates threshold and count, slices the
      key, and creates the slice files one by one, encrypting the payload
      anew for each. */
  method GenerateSliceFileBuffers(threshold: int, count: int, payload: SliceFilePayload, key: Result<seq<byte>>,
                                  draw: nat -> nat -> byte, encrypt: nat -> seq<byte> -> Result<EncryptedData>)
    returns (r: Result<seq<seq<byte>>>)
    ensures r == GenerationOutcome(threshold, count, payload, key, draw, encrypt)
  {
    if threshold < 2 {
      return Err(InvalidThresholdError);
    }
    if count < threshold {
      return Err(InvalidShareCountError);
    }
    var version := VERSION_NUMBER;
    if key.Err? {
      return Err(key.error);
    }
    var generated := GenerateSlices(key.value, threshold, count, draw);
    if generated.Err? {
      return Err(generated.error);
    }
    var keySlices := generated.value;
    ghost var create := BufferFor(threshold, payload, encrypt);
    var sliceFileBuffers: seq<seq<byte>> := [];
    var i := 0;
    while i < |keySlices|
      invariant i <= |keySlices|
      invariant Collect(keySlices[..i], create) == Ok(sliceFileBuffers)
    {
      var header := SliceFileHeader(version, threshold, keySlices[i]);
      var buffer := CreateBuffer(header, payload, encrypt(i));
      BufferForApplies(threshold, payload, encrypt, i, keySlices[i]);
      CollectStep(keySlices, i, create, sliceFileBuffers);
      if buffer.Err? {
        return Err(buffer.error);
      }
      sliceFileBuffers := sliceFileBuffers + [buffer.value];
      i := i + 1;
    }
    assert keySlices[..i] == keySlices;
    r := Ok(sliceFileBuffers);
  }

  /** Every generated slice file reads back: its header carries version 0,
      the threshold and its own key slice, in key-slice order, and the key
      has AES_KEY_BYTE_SIZE bytes, as the header format demands. */
  lemma GeneratedHeaders(threshold: int, count: int, payload: SliceFilePayload, key: Result<seq<byte>>,
                         draw: nat -> nat -> byte, encrypt: nat -> seq<byte> -> Result<EncryptedData>)
    requires GenerationOutcome(threshold, count, payload, key, draw, encrypt).Ok?
    ensures |key.value| == AES_KEY_BYTE_SIZE
    ensures var buffers := GenerationOutcome(threshold, count, payload, key, draw, encrypt).value;
      var keySlices := GenerateSlices(key.value, threshold, count, draw).value;
      |buffers| == |keySlices| == count &&
      forall j :: 0 <= j < count ==> GetHeader(buffers[j]) == Ok(SliceFileHeader(0, threshold, keySlices[j]))
  {
    var buffers := GenerationOutcome(threshold, count, payload, key, draw, encrypt).value;
    var keySlices := GenerateSlices(key.value, threshold, count, draw).value;
    assert SliceFileBuffers(keySlices, threshold, payload, encrypt) == Ok(buffers);
    forall j | 0 <= j < count
      ensures GetHeader(buffers[j]) == Ok(SliceFileHeader(0, threshold, keySlices[j]))
    {
      assert Ok(buffers[j]) == CreateBuffer(HeaderFor(threshold, keySlices[j]), payload, encrypt(j));
      CreatedHeaderReadsBack(HeaderFor(threshold, keySlices[j]), payload, encrypt(j));
    }
    assert CreateBuffer(HeaderFor(threshold, keySlices[0]), payload, encrypt(0)).Ok?;
    assert |keySlices[0]| == |key.value|;
  }

  /** Every generated slice file's payload decrypts back to the payload,
      given decryption that undoes each slice file's encryption. */
  lemma GeneratedPayloads(threshold: int, count: int, payload: SliceFilePayload, key: Result<seq<byte>>,
                          draw: nat -> nat -> byte, encrypt: nat -> seq<byte> -> Result<EncryptedData>,
                          decrypt: seq<byte> -> EncryptedData -> Result<seq<byte>>)
    requires GenerationOutcome(threshold, count, payload, key, draw, encrypt).Ok?
    requires forall i :: DecryptInverts(encrypt(i), decrypt(key.value))
    ensures var buffers := GenerationOutcome(threshold, count, payload, key, draw, encrypt).value;
      forall j :: 0 <= j < |buffers| ==> GetDecryptedPayload(buffers[j], decrypt(key.value)) == Ok(payload)
  {
    var buffers := GenerationOutcome(threshold, count, payload, key, draw, encrypt).value;
    var keySlices := GenerateSlices(key.value, threshold, count, draw).value;
    assert SliceFileBuffers(keySlices, threshold, payload, encrypt) == Ok(buffers);
    forall j | 0 <= j < |buffers|
      ensures GetDecryptedPayload(buffers[j], decrypt(key.value)) == Ok(payload)
    {
      assert Ok(buffers[j]) == CreateBuffer(HeaderFor(threshold, keySlices[j]), payload, encrypt(j));
      CreatedPayloadReadsBack(HeaderFor(threshold, keySlices[j]), payload, encrypt(j), decrypt(key.value));
    }
  }

  /** validateMinimumSliceFiles: at least two slice files. */
  function ValidateMinimumSliceFiles(sliceFileBuffers: seq<seq<byte>>): (r: Result<()>)
    ensures r.Ok? <==> |sliceFileBuffers| >= 2
    ensures r.Err? ==> r.error == InsufficientSlicesError
  {
    if |sliceFileBuffers| < 2 then Err(InsufficientSlicesError) else Ok(())
  }

  /** `sliceFileBuffers.map(getHeader)`: every buffer's header, or the first
      failure. */
  function GetHeaders(sliceFileBuffers: seq<seq<byte>>): (r: Result<seq<SliceFileHeader>>)
    ensures r.Ok? <==> forall k :: 0 <= k < |sliceFileBuffers| ==> |sliceFileBuffers[k]| >= HEADER_SIZE
    ensures r.Err? ==> r.error == RangeError(OutOfBounds)
    ensures r.Ok? ==> (|r.value| == |sliceFileBuffers| &&
              forall k :: 0 <= k < |sliceFileBuffers| ==> GetHeader(sliceFileBuffers[k]) == Ok(r.value[k]))
  {
    Collect(sliceFileBuffers, (_: nat, buffer: seq<byte>) => GetHeader(buffer))
  }

  /** getThreshold: the first header's threshold, shared by every header;
      a SecretAssemblyError without headers and an
      InconsistentThresholdError when two differ. */
  function GetThreshold(headers: seq<SliceFileHeader>): (r: Result<int>)
    ensures |headers| == 0 ==> r == Err(SecretAssemblyError)
    ensures r.Ok? <==> |headers| > 0 && forall k :: 0 <= k < |headers| ==> headers[k].threshold == headers[0].threshold
    ensures |headers| > 0 && r.Err? ==> r.error == InconsistentThresholdError
    ensures r.Ok? ==> forall k :: 0 <= k < |headers| ==> headers[k].threshold == r.value
  {
    if |headers| == 0 then Err(SecretAssemblyError)
    else
      var firstThreshold := headers[0].threshold;
      if exists k :: 0 <= k < |headers| && headers[k].threshold != firstThreshold then Err(InconsistentThresholdError)
      else Ok(firstThreshold)
  }

  /** validateThresholdRequirement: at least `threshold` slice files, or
      the base SecretAssemblyError. */
  function ValidateThresholdRequirement(threshold: int, sliceFileBuffers: seq<seq<byte>>): (r: Result<()>)
    ensures r.Ok? <==> |sliceFileBuffers| >= threshold
    ensures r.Err? ==> r.error == SecretAssemblyError
  {
    if |sliceFileBuffers| < threshold then Err(SecretAssemblyError) else Ok(())
  }

  /** importAESKey: a raw key must be AES_KEY_BYTE_SIZE bytes long, else a
      CryptoError; the imported key is identified with its bytes. */
  function ImportAESKey(bytes: seq<byte>): (r: Result<seq<byte>>)
    ensures r.Ok? <==> |bytes| == AES_KEY_BYTE_SIZE
    ensures r.Err? ==> r.error == CryptoError
    ensures r.Ok? ==> r.value == bytes
  {
    if |bytes| != AES_KEY_BYTE_SIZE then Err(CryptoError) else Ok(bytes)
  }

  /** The key slices of the headers, in header order. */
  function KeySlices(headers: seq<SliceFileHeader>): (slices: seq<Slice>)
    ensures |slices| == |headers| && forall k :: 0 <= k < |headers| ==> slices[k] == headers[k].keySlice
  {
    seq(|headers|, k requires 0 <= k < |headers| => headers[k].keySlice)
  }

  /** assembleCryptoKey: the key assembled from the headers' key slices in
      header order, then imported. */
  function AssembleCryptoKey(headers: seq<SliceFileHeader>, threshold: int): (r: Result<seq<byte>>)
    ensures AssembleSecretFromSlices(KeySlices(headers), threshold).Err? ==> r == Err(SecretSharingError)
    ensures r.Ok? <==> (AssembleSecretFromSlices(KeySlices(headers), threshold).Ok? &&
              |AssembleSecretFromSlices(KeySlices(headers), threshold).value| == AES_KEY_BYTE_SIZE)
    ensures (AssembleSecretFromSlices(KeySlices(headers), threshold).Ok? &&
             |AssembleSecretFromSlices(KeySlices(headers), threshold).value| != AES_KEY_BYTE_SIZE) ==> r == Err(CryptoError)
    ensures r.Ok? ==> Ok(r.value) == AssembleSecretFromSlices(KeySlices(headers), threshold)
  {
    var keyBytes :- AssembleSecretFromSlices(KeySlices(headers), threshold);
    ImportAESKey(keyBytes)
  }

  /** assembleSecretPayload: at least two slice files, every header
      readable, one threshold, at least that many files; then the key from
      the key slices in file order, and the payload of the first file. */
  function AssembleSecretPayload(sliceFileBuffers: seq<seq<byte>>, decrypt: seq<byte> -> EncryptedData -> Result<seq<byte>>): (r: Result<SliceFilePayload>)
    ensures |sliceFileBuffers| < 2 ==> r == Err(InsufficientSlicesError)
    ensures |sliceFileBuffers| >= 2 && GetHeaders(sliceFileBuffers).Err? ==> r == Err(RangeError(OutOfBounds))
    ensures |sliceFileBuffers| >= 2 && GetHeaders(sliceFileBuffers).Ok? ==>
              var headers := GetHeaders(sliceFileBuffers).value;
              (GetThreshold(headers).Err? ==> r == Err(InconsistentThresholdError)) &&
              (GetThreshold(headers).Ok? && |sliceFileBuffers| < GetThreshold(headers).value ==>
                r == Err(SecretAssemblyError)) &&
              (GetThreshold(headers).Ok? && |sliceFileBuffers| >= GetThreshold(headers).value ==>
                match AssembleCryptoKey(headers, GetThreshold(headers).value)
                case Err(e) => r == Err(e)
                case Ok(key) => r == GetDecryptedPayload(sliceFileBuffers[0], decrypt(key)))
  {
    var _ :- ValidateMinimumSliceFiles(sliceFileBuffers);
    var headers :- GetHeaders(sliceFileBuffers);
    var threshold :- GetThreshold(headers);
    var _ :- ValidateThresholdRequirement(threshold, sliceFileBuffers);
    var key :- AssembleCryptoKey(headers, threshold);
    GetDecryptedPayload(sliceFileBuffers[0], decrypt(key))
  }

  /** Every error assembly raises by itself is a SecretAssemblyError, as
      the subclasses in src/lib/errors.ts make it. */
  lemma AssemblyValidationErrors(sliceFileBuffers: seq<seq<byte>>, decrypt: seq<byte> -> EncryptedData -> Result<seq<byte>>)
    requires |sliceFileBuffers| < 2 || (GetHeaders(sliceFileBuffers).Ok? &&
               (GetThreshold(GetHeaders(sliceFileBuffers).value).Err? ||
                |sliceFileBuffers| < GetThreshold(GetHeaders(sliceFileBuffers).value).value))
    ensures AssembleSecretPayload(sliceFileBuffers, decrypt).Err?
    ensures AssembleSecretPayload(sliceFileBuffers, decrypt).error.IsSecretAssemblyError()
  {
  }

  /** Slice files that pass every check assemble into the first file's
      payload, decrypted under the assembled key. */
  lemma AssembleChecked(sliceFileBuffers: seq<seq<byte>>, decrypt: seq<byte> -> EncryptedData -> Result<seq<byte>>,
                        headers: seq<SliceFileHeader>, threshold: int, key: seq<byte>)
    requires |sliceFileBuffers| >= 2 && |sliceFileBuffers| >= threshold
    requires GetHeaders(sliceFileBuffers) == Ok(headers)
    requires GetThreshold(headers) == Ok(threshold)
    requires AssembleCryptoKey(headers, threshold) == Ok(key)
    ensures AssembleSecretPayload(sliceFileBuffers, decrypt) == GetDecryptedPayload(sliceFileBuffers[0], decrypt(key))
  {
  }

  /** Any `threshold` or more different slice files of one generation, in
      any order, assemble into the payload, given decryption that undoes
      each slice file's encryption. */
  lemma GenerateThenAssemble(threshold: int, count: int, payload: SliceFilePayload, key: Result<seq<byte>>,
                             draw: nat -> nat -> byte, encrypt: nat -> seq<byte> -> Result<EncryptedData>,
                             decrypt: seq<byte> -> EncryptedData -> Result<seq<byte>>, picked: seq<seq<byte>>)
    requires GenerationOutcome(threshold, count, payload, key, draw, encrypt).Ok?
    requires forall i :: DecryptInverts(encrypt(i), decrypt(key.value))
    requires forall k :: 0 <= k < |picked| ==> picked[k] in GenerationOutcome(threshold, count, payload, key, draw, encrypt).value
    requires forall k, l :: 0 <= k < l < |picked| ==> picked[k] != picked[l]
    requires |picked| >= threshold
    ensures AssembleSecretPayload(picked, decrypt) == Ok(payload)
  {
    GeneratedHeaders(threshold, count, payload, key, draw, encrypt);
    GeneratedPayloads(threshold, count, payload, key, draw, encrypt, decrypt);
    AssembleGenerated(GenerationOutcome(threshold, count, payload, key, draw, encrypt).value,
                      key.value, threshold, count, draw, payload, decrypt, picked);
  }

  /** The end-to-end argument on the generated files' properties: the
      picked files' headers read and agree on the threshold, their key
      slices assemble into the key, and the first one's payload decrypts. */
  lemma AssembleGenerated(buffers: seq<seq<byte>>, key: seq<byte>, threshold: int, count: int, draw: nat -> nat -> byte,
                          payload: SliceFilePayload, decrypt: seq<byte> -> EncryptedData -> Result<seq<byte>>,
                          picked: seq<seq<byte>>)
    requires GenerateSlices(key, threshold, count, draw).Ok? && |key| == AES_KEY_BYTE_SIZE
    requires |buffers| == count
    requires forall j :: 0 <= j < count ==>
               GetHeader(buffers[j]) == Ok(SliceFileHeader(0, threshold, GenerateSlices(key, threshold, count, draw).value[j]))
    requires forall j :: 0 <= j < count ==> GetDecryptedPayload(buffers[j], decrypt(key)) == Ok(payload)
    requires forall k :: 0 <= k < |picked| ==> picked[k] in buffers
    requires forall k, l :: 0 <= k < l < |picked| ==> picked[k] != picked[l]
    requires |picked| >= threshold
    ensures AssembleSecretPayload(picked, decrypt) == Ok(payload)
  {
    var keySlices := GenerateSlices(key, threshold, count, draw).value;
    var idx, headers := PickedFiles(buffers, keySlices, threshold, picked);
    PickedKey(key, threshold, count, draw, headers, idx);
    AssembleChecked(picked, decrypt, headers, threshold, key);
  }

  /** Different files picked from slice files whose headers hold the given
      key slices: their positions differ, and their headers read, in order. */
  lemma PickedFiles(buffers: seq<seq<byte>>, keySlices: seq<Slice>, threshold: int, picked: seq<seq<byte>>)
    returns (idx: seq<nat>, headers: seq<SliceFileHeader>)
    requires |buffers| == |keySlices|
    requires forall j :: 0 <= j < |buffers| ==> GetHeader(buffers[j]) == Ok(SliceFileHeader(0, threshold, keySlices[j]))
    requires forall k :: 0 <= k < |picked| ==> picked[k] in buffers
    requires forall k, l :: 0 <= k < l < |picked| ==> picked[k] != picked[l]
    ensures |idx| == |headers| == |picked|
    ensures forall k :: 0 <= k < |picked| ==> (idx[k] < |buffers| && picked[k] == buffers[idx[k]] &&
              headers[k] == SliceFileHeader(0, threshold, keySlices[idx[k]]))
    ensures forall k, l :: 0 <= k < l < |idx| ==> idx[k] != idx[l]
    ensures GetHeaders(picked) == Ok(headers)
    ensures |picked| > 0 ==> GetThreshold(headers) == Ok(threshold)
  {
    idx := seq(|picked|, k requires 0 <= k < |picked| => IndexOf(buffers, picked[k]));
    headers := seq(|picked|, k requires 0 <= k < |picked| => HeaderFor(threshold, keySlices[idx[k]]));
    forall k | 0 <= k < |picked|
      ensures GetHeader(picked[k]) == Ok(headers[k])
    {
      assert picked[k] == buffers[idx[k]];
    }
    HeadersOfAll(picked, headers);
  }

  /** Buffers whose every header reads gives those headers in order. */
  lemma HeadersOfAll(sliceFileBuffers: seq<seq<byte>>, headers: seq<SliceFileHeader>)
    requires |headers| == |sliceFileBuffers|
    requires forall k :: 0 <= k < |sliceFileBuffers| ==> GetHeader(sliceFileBuffers[k]) == Ok(headers[k])
    ensures GetHeaders(sliceFileBuffers) == Ok(headers)
  {
    var r := GetHeaders(sliceFileBuffers);
    assert r.Ok?;
    assert r.value == headers;
  }

  /** Headers holding different key slices of one generation, at least
      `threshold` of them, assemble into the key, which imports. */
  lemma PickedKey(key: seq<byte>, threshold: int, count: int, draw: nat -> nat -> byte,
                  headers: seq<SliceFileHeader>, idx: seq<nat>)
    requires GenerateSlices(key, threshold, count, draw).Ok? && |key| == AES_KEY_BYTE_SIZE
    requires |idx| == |headers| >= threshold
    requires forall k :: 0 <= k < |headers| ==> (idx[k] < count &&
               headers[k].keySlice == GenerateSlices(key, threshold, count, draw).value[idx[k]])
    requires forall k, l :: 0 <= k < l < |idx| ==> idx[k] != idx[l]
    ensures AssembleCryptoKey(headers, threshold) == Ok(key)
  {
    var keySlices := GenerateSlices(key, threshold, count, draw).value;
    var chosen := KeySlices(headers);
    SlicesDiffer(key, threshold, count, draw);
    forall k | 0 <= k < |chosen|
      ensures chosen[k] in keySlices
    {
      assert chosen[k] == keySlices[idx[k]];
    }
    forall k, l | 0 <= k < l < |chosen|
      ensures chosen[k] != chosen[l]
    {
      assert idx[k] != idx[l];
    }
    AssembleRecovers(key, threshold, count, draw, chosen);
  }
}
