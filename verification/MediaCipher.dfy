/** Chunked AES-GCM for media: every chunk carries its index and a last-chunk flag
    as associated data. The block cipher itself is a parameter. */
module MediaCipher {
  import opened Wrappers
  import opened Octets

  const NONCE_SIZE := 12
  const TAG_SIZE := 16
  const OVERHEAD := NONCE_SIZE + TAG_SIZE
  const RAW_CHUNK := 0x8000
  const PLAIN_CHUNK := RAW_CHUNK - OVERHEAD
  const LOG_RAW_CHUNK: Byte := 15

  /** Seal and open take a nonce, a text and the associated data. */
  type Seal = (Bytes, Bytes, Bytes) -> Bytes

  datatype AEAD = AEAD(seal: Seal, open: (Bytes, Bytes, Bytes) -> Option<Bytes>)

  /** The random nonce drawn for each chunk. */
  type Nonces = nat -> Bytes

  ghost predicate NoncesOk(nonces: Nonces) { forall k :: |nonces(k)| == NONCE_SIZE }

  ghost predicate AddsTag(aead: AEAD) { forall n, p, a :: |aead.seal(n, p, a)| == |p| + TAG_SIZE }

  datatype Opened = Plain(data: Bytes) | Rejected | Panicked

  // ----- Associated data ----------------------------------------------------------------

  /** The index is a uint32. */
  function AAD(index: nat, last: bool): Bytes {
    [if last then 1 else 0] + BigEndian(index % 0x1_0000_0000, 4)
  }

  /** A flag byte, then the index in four bytes, most significant first. */
  lemma AADBytes(index: nat, last: bool)
    requires index < 0x1_0000_0000
    ensures AAD(index, last) == [if last then 1 else 0] +
              [index / 0x100_0000, index / 0x1_0000 % 0x100, index / 0x100 % 0x100, index % 0x100]
  {
    var q1, q2, q3 := index / 0x100, index / 0x1_0000, index / 0x100_0000;
    Quotients(index);
    assert q1 / 0x100 == q2 && q2 / 0x100 == q3 && q3 % 0x100 == q3;
    assert BigEndian(q3, 1) == BigEndian(q3 / 0x100, 0) + [q3 % 0x100];
    assert BigEndian(q2, 2) == BigEndian(q3, 1) + [q2 % 0x100];
    assert BigEndian(q1, 3) == BigEndian(q2, 2) + [q1 % 0x100];
  }

  lemma AADsDiffer(i: nat, last: bool, j: nat, last': bool)
    requires i < 0x1_0000_0000 && j < 0x1_0000_0000 && AAD(i, last) == AAD(j, last')
    ensures i == j && last == last'
  {
    hide BigEndian, Pow2;
    assert AAD(i, last)[0] == AAD(j, last')[0];
    assert AAD(i, last)[1..] == BigEndian(i, 4) && AAD(j, last')[1..] == BigEndian(j, 4);
    CommonPowers();
    BigEndianDiffers(i, j, 4);
  }

  // ----- Encryption -----------------------------------------------------------------------

  function SealChunk(aead: AEAD, nonces: Nonces, k: nat, chunk: Bytes, last: bool): Bytes {
    nonces(k) + aead.seal(nonces(k), chunk, AAD(k, last))
  }

  /** The chunks of `data` from chunk number `k` on, sealed and concatenated. */
  function Sealed(aead: AEAD, nonces: Nonces, data: Bytes, k: nat): Bytes
    decreases |data|
  {
    if |data| == 0 then []
    else if |data| <= PLAIN_CHUNK then SealChunk(aead, nonces, k, data, true)
    else SealChunk(aead, nonces, k, data[..PLAIN_CHUNK], false) + Sealed(aead, nonces, data[PLAIN_CHUNK..], k + 1)
  }

  function Encrypted(aead: AEAD, nonces: Nonces, data: Bytes): Bytes {
    [0, LOG_RAW_CHUNK] + Sealed(aead, nonces, data, 0)
  }

  lemma SealedStep(aead: AEAD, nonces: Nonces, data: Bytes, i: nat, size: nat, k: nat, wire: Bytes)
    requires i < |data| && size == (if i + PLAIN_CHUNK >= |data| then |data| - i else PLAIN_CHUNK)
    ensures i + size <= |data|
    ensures wire + Sealed(aead, nonces, data[i..], k) ==
            (wire + SealChunk(aead, nonces, k, data[i..i + size], i + PLAIN_CHUNK >= |data|))
            + Sealed(aead, nonces, data[i + size..], k + 1)
  {
    if i + PLAIN_CHUNK >= |data| {
      assert data[i..] == data[i..i + size];
    } else {
      assert data[i..][..PLAIN_CHUNK] == data[i..i + size] && data[i..][PLAIN_CHUNK..] == data[i + size..];
    }
  }

  /** EncryptData: `chunkIndex` counts chunks; AAD reduces it modulo 2^32. */
  method EncryptData(aead: AEAD, nonces: Nonces, data: Bytes) returns (wire: Bytes)
    ensures wire == Encrypted(aead, nonces, data)
  {
    hide Sealed, SealChunk;
    var chunkSize := PLAIN_CHUNK;
    wire := [0, LOG_RAW_CHUNK];
    var chunkIndex, i := 0, 0;
    assert data[0..] == data;
    while i < |data|
      invariant 0 <= i <= |data| && (i < |data| ==> chunkSize == PLAIN_CHUNK)
      invariant wire + Sealed(aead, nonces, data[i..], chunkIndex) == Encrypted(aead, nonces, data)
    {
      var isLastChunk := false;
      if i + chunkSize >= |data| {
        chunkSize := |data| - i;
        isLastChunk := true;
      }
      SealedStep(aead, nonces, data, i, chunkSize, chunkIndex, wire);
      wire := wire + SealChunk(aead, nonces, chunkIndex, data[i..i + chunkSize], isLastChunk);
      chunkIndex := chunkIndex + 1;
      i := i + chunkSize;
    }
    SealedNothing(aead, nonces, data, chunkIndex, wire);
  }

  lemma SealedNothing(aead: AEAD, nonces: Nonces, data: Bytes, k: nat, wire: Bytes)
    ensures wire + Sealed(aead, nonces, data[|data|..], k) == wire
  {
  }

  // ----- Decryption -------------------------------------------------------------------------

  /** 1 << e on a 64-bit int. */
  function ChunkSize(e: Byte): int { if e < 63 then Pow2(e) else if e == 63 then 0 - Pow2(63) else 0 }

  function CeilDiv(n: nat, d: nat): nat
    requires d > 0
  {
    (n + d - 1) / d
  }

  function OpenChunk(aead: AEAD, chunk: Bytes, aad: Bytes): Option<Bytes> {
    if |chunk| < NONCE_SIZE then None else aead.open(chunk[..NONCE_SIZE], chunk[NONCE_SIZE..], aad)
  }

  function OpenedFrom(aead: AEAD, size: nat, payload: Bytes, k: nat): Option<Bytes>
    requires size > 0
    decreases |payload|
  {
    if payload == [] then Some([])
    else if |payload| <= size then OpenChunk(aead, payload, AAD(k, true))
    else
      match OpenChunk(aead, payload[..size], AAD(k, false))
      case None => None
      case Some(head) =>
        match OpenedFrom(aead, size, payload[size..], k + 1)
        case None => None
        case Some(tail) => Some(head + tail)
  }

  /** A 32-byte key; what the two header bytes and the payload's length alone decide. */
  predicate PanicsOn(wire: Bytes) {
    && |wire| > 0 && wire[0] == 0
    && (|wire| == 1 ||
        var size, n := ChunkSize(wire[1]), |wire| - 2;
        (size < 0 && n > 0) || (size > 0 && n < OVERHEAD * CeilDiv(n, size)))
  }

  function Decrypted(aead: AEAD, keyLength: nat, wire: Bytes): Opened {
    if wire == [] || keyLength != 32 then Plain(wire)
    else if wire[0] != 0 then Rejected
    else if PanicsOn(wire) then Panicked
    else
      var size, payload := ChunkSize(wire[1]), wire[2..];
      if size <= 0 then (if payload == [] then Plain([]) else Rejected)
      else match OpenedFrom(aead, size, payload, 0) case None => Rejected case Some(data) => Plain(data)
  }

  lemma OpenedStep(aead: AEAD, size: nat, payload: Bytes, i: nat, step: nat, k: nat)
    requires size > 0 && i < |payload| && step == (if i + size >= |payload| then |payload| - i else size)
    ensures i + step <= |payload|
    ensures var head := OpenChunk(aead, payload[i..i + step], AAD(k, i + size >= |payload|));
            var rest := OpenedFrom(aead, size, payload[i + step..], k + 1);
            OpenedFrom(aead, size, payload[i..], k) ==
              if head.None? || rest.None? then None else Some(head.value + rest.value)
  {
    if i + size >= |payload| {
      assert payload[i..] == payload[i..i + step] && payload[i + step..] == [];
      var head := OpenChunk(aead, payload[i..], AAD(k, true));
      assert head.Some? ==> head.value + [] == head.value;
    } else {
      assert payload[i..][..size] == payload[i..i + step] && payload[i..][size..] == payload[i + step..];
    }
  }

  /** What remains to be opened, put after what already was. */
  function Joined(done: Bytes, rest: Option<Bytes>): Opened {
    if rest.None? then Rejected else Plain(done + rest.value)
  }

  method OpenChunks(aead: AEAD, size: nat, payload: Bytes) returns (r: Opened)
    requires size > 0
    ensures r == Joined([], OpenedFrom(aead, size, payload, 0))
  {
    hide OpenedFrom, OpenChunk;
    var chunkSize, data := size, [];
    var chunkIndex, i := 0, 0;
    assert payload[0..] == payload;
    while i < |payload|
      invariant 0 <= i <= |payload| && (i < |payload| ==> chunkSize == size)
      invariant Joined(data, OpenedFrom(aead, size, payload[i..], chunkIndex))
                == Joined([], OpenedFrom(aead, size, payload, 0))
    {
      var isLastChunk := false;
      if i + chunkSize >= |payload| {
        chunkSize := |payload| - i;
        isLastChunk := true;
      }
      OpenedStep(aead, size, payload, i, chunkSize, chunkIndex);
      var chunk := OpenChunk(aead, payload[i..i + chunkSize], AAD(chunkIndex, isLastChunk));
      if chunk.None? {
        return Rejected;
      }
      var rest := OpenedFrom(aead, size, payload[i + chunkSize..], chunkIndex + 1);
      assert rest.Some? ==> data + (chunk.value + rest.value) == (data + chunk.value) + rest.value;
      data := data + chunk.value;
      chunkIndex := chunkIndex + 1;
      i := i + chunkSize;
    }
    OpenedNothing(aead, size, payload, chunkIndex);
    r := Plain(data);
  }

  lemma OpenedNothing(aead: AEAD, size: nat, payload: Bytes, k: nat)
    requires size > 0
    ensures OpenedFrom(aead, size, payload[|payload|..], k) == Some([])
  {
  }

  method DecryptData(aead: AEAD, keyLength: nat, wire: Bytes) returns (r: Opened)
    ensures r == Decrypted(aead, keyLength, wire)
    ensures r.Panicked? <==> keyLength == 32 && wire != [] && PanicsOn(wire)
  {
    if |wire| == 0 || keyLength != 32 {
      return Plain(wire);
    }
    if wire[0] != 0 {
      return Rejected;
    }
    if |wire| == 1 {
      return Panicked;    // the second header byte is read unchecked
    }
    var chunkSize, payload := ChunkSize(wire[1]), wire[2..];
    if chunkSize > 0 && |payload| - OVERHEAD * CeilDiv(|payload|, chunkSize) < 0 {
      return Panicked;    // a negative capacity
    }
    if chunkSize <= 0 {
      if |payload| == 0 {
        return Plain([]);
      }
      return if chunkSize < 0 then Panicked else Rejected;   // a negative chunk, or an empty one
    }
    r := OpenChunks(aead, chunkSize, payload);
  }

  // ----- What was issued ------------------------------------------------------------------------

  datatype Triple = Triple(nonce: Bytes, text: Bytes, aad: Bytes, data: Bytes)

  predicate IsChunk(seal: Seal, nonces: Nonces, k: nat, chunk: Bytes, last: bool, t: Triple) {
    t == Triple(nonces(k), seal(nonces(k), chunk, AAD(k, last)), AAD(k, last), chunk)
  }

  /** The triple is one of the chunks sealed for `data` from number `k` on. */
  predicate Issued(seal: Seal, nonces: Nonces, data: Bytes, k: nat, t: Triple)
    decreases |data|
  {
    if |data| == 0 then false
    else if |data| <= PLAIN_CHUNK then IsChunk(seal, nonces, k, data, true, t)
    else IsChunk(seal, nonces, k, data[..PLAIN_CHUNK], false, t) || Issued(seal, nonces, data[PLAIN_CHUNK..], k + 1, t)
  }

  /** The cipher opens what it sealed for `data`. */
  ghost predicate OpensIssued(aead: AEAD, nonces: Nonces, data: Bytes, k: nat) {
    forall t | Issued(aead.seal, nonces, data, k, t) :: aead.open(t.nonce, t.text, t.aad) == Some(t.data)
  }

  // ----- The theorems ----------------------------------------------------------------------------

  lemma CeilDivStep(n: nat)
    ensures n > PLAIN_CHUNK ==> CeilDiv(n, PLAIN_CHUNK) == CeilDiv(n - PLAIN_CHUNK, PLAIN_CHUNK) + 1
    ensures 0 < n <= PLAIN_CHUNK ==> CeilDiv(n, PLAIN_CHUNK) == 1
    ensures CeilDiv(0, PLAIN_CHUNK) == 0
  {
  }

  lemma SealChunkLength(aead: AEAD, nonces: Nonces, k: nat, chunk: Bytes, last: bool)
    requires NoncesOk(nonces) && AddsTag(aead)
    ensures |SealChunk(aead, nonces, k, chunk, last)| == |chunk| + OVERHEAD
  {
    hide AAD;
  }

  lemma {:induction false} SealedLength(aead: AEAD, nonces: Nonces, data: Bytes, k: nat)
    requires NoncesOk(nonces) && AddsTag(aead)
    ensures |Sealed(aead, nonces, data, k)| == |data| + OVERHEAD * CeilDiv(|data|, PLAIN_CHUNK)
    decreases |data|
  {
    hide CeilDiv, SealChunk, NoncesOk, AddsTag;
    CeilDivStep(|data|);
    SealChunkLength(aead, nonces, k, data, true);
    if |data| > PLAIN_CHUNK {
      SealChunkLength(aead, nonces, k, data[..PLAIN_CHUNK], false);
      SealedLength(aead, nonces, data[PLAIN_CHUNK..], k + 1);
    }
  }

  /** The wire is two header bytes, the data and 28 bytes for every chunk begun. */
  lemma Powers()
    ensures Pow2(10) == 1024 && Pow2(15) == 32 * Pow2(10)
  {
    assert Pow2(5) == 32 && Pow2(10) == 32 * Pow2(5);
  }

  lemma WireLength(aead: AEAD, nonces: Nonces, data: Bytes)
    requires NoncesOk(nonces) && AddsTag(aead)
    ensures var wire := Encrypted(aead, nonces, data);
            && |wire| == 2 + |data| + 28 * ((|data| + 32739) / 32740)
            && wire[0] == 0 && wire[1] == 15 && ChunkSize(wire[1]) == 32768
  {
    assert Pow2(10) == 1024 && Pow2(15) == 32 * Pow2(10) by { Powers(); }
    SealedLength(aead, nonces, data, 0);
  }

  lemma IssuedOpens(aead: AEAD, nonces: Nonces, data: Bytes, k: nat)
    requires NoncesOk(nonces) && AddsTag(aead) && OpensIssued(aead, nonces, data, k) && |data| > 0
    ensures var last := |data| <= PLAIN_CHUNK;
            var chunk := if last then data else data[..PLAIN_CHUNK];
            && OpenChunk(aead, SealChunk(aead, nonces, k, chunk, last), AAD(k, last)) == Some(chunk)
            && |SealChunk(aead, nonces, k, chunk, last)| == |chunk| + OVERHEAD
    ensures |data| > PLAIN_CHUNK ==> OpensIssued(aead, nonces, data[PLAIN_CHUNK..], k + 1)
  {
    hide AAD;
    var last := |data| <= PLAIN_CHUNK;
    var chunk, nonce := if last then data else data[..PLAIN_CHUNK], nonces(k);
    var wire := SealChunk(aead, nonces, k, chunk, last);
    assert wire[..NONCE_SIZE] == nonce && wire[NONCE_SIZE..] == aead.seal(nonce, chunk, AAD(k, last));
    assert Issued(aead.seal, nonces, data, k,
        Triple(nonce, aead.seal(nonce, chunk, AAD(k, last)), AAD(k, last), chunk));
  }

  lemma {:induction false} ChunksRoundTrip(aead: AEAD, nonces: Nonces, data: Bytes, k: nat)
    requires NoncesOk(nonces) && AddsTag(aead) && OpensIssued(aead, nonces, data, k)
    ensures OpenedFrom(aead, RAW_CHUNK, Sealed(aead, nonces, data, k), k) == Some(data)
    decreases |data|
  {
    hide AAD, SealChunk, OpenChunk, OpensIssued;
    if |data| > 0 { IssuedOpens(aead, nonces, data, k); }
    if |data| > PLAIN_CHUNK {
      var head, tail := data[..PLAIN_CHUNK], data[PLAIN_CHUNK..];
      var wire := SealChunk(aead, nonces, k, head, false);
      ChunksRoundTrip(aead, nonces, tail, k + 1);
      SealedLength(aead, nonces, tail, k + 1);
      assert Sealed(aead, nonces, data, k)[..RAW_CHUNK] == wire;
      assert Sealed(aead, nonces, data, k)[RAW_CHUNK..] == Sealed(aead, nonces, tail, k + 1);
      assert head + tail == data;
    }
  }

  lemma HeaderChunkSize()
    ensures ChunkSize(LOG_RAW_CHUNK) == RAW_CHUNK
  {
    assert Pow2(5) == 32;
    assert Pow2(10) == 1024;
  }

  /** What was encrypted decrypts to itself, for data of any length. */
  lemma RoundTrip(aead: AEAD, nonces: Nonces, data: Bytes)
    requires NoncesOk(nonces) && AddsTag(aead) && OpensIssued(aead, nonces, data, 0)
    ensures Decrypted(aead, 32, Encrypted(aead, nonces, data)) == Plain(data)
  {
    hide Sealed, OpenedFrom, Pow2, OpensIssued;
    var wire := Encrypted(aead, nonces, data);
    HeaderChunkSize();
    SealedLength(aead, nonces, data, 0);
    ChunksRoundTrip(aead, nonces, data, 0);
    assert wire[2..] == Sealed(aead, nonces, data, 0);
    assert CeilDiv(|data|, PLAIN_CHUNK) == CeilDiv(|wire| - 2, RAW_CHUNK);
  }

  // ----- Nothing else opens -----------------------------------------------------------------------

  /** An ideal cipher that has sealed only these chunks: whatever opens under an index from `k` on
      is one of them. */
  ghost predicate OpensOnlyIssued(aead: AEAD, nonces: Nonces, data: Bytes, k: nat) {
    forall nonce, text, index: nat, last |
      k <= index < 0x1_0000_0000 && aead.open(nonce, text, AAD(index, last)).Some? ::
      Issued(aead.seal, nonces, data, k, Triple(nonce, text, AAD(index, last),
          aead.open(nonce, text, AAD(index, last)).value))
  }

  lemma OpensOnlyLater(aead: AEAD, nonces: Nonces, data: Bytes, k: nat)
    requires OpensOnlyIssued(aead, nonces, data, k) && |data| > PLAIN_CHUNK && k + 1 < 0x1_0000_0000
    ensures OpensOnlyIssued(aead, nonces, data[PLAIN_CHUNK..], k + 1)
  {
    hide AAD;
    forall nonce, text, index: nat, last |
      k + 1 <= index < 0x1_0000_0000 && aead.open(nonce, text, AAD(index, last)).Some?
      ensures Issued(aead.seal, nonces, data[PLAIN_CHUNK..], k + 1,
                     Triple(nonce, text, AAD(index, last), aead.open(nonce, text, AAD(index, last)).value))
    {
      if AAD(index, last) == AAD(k, false) { AADsDiffer(index, last, k, false); }
    }
  }

  lemma {:induction false} NotIssuedLater(aead: AEAD, nonces: Nonces, data: Bytes, k: nat, t: Triple, index: nat,
      last: bool)
    requires t.aad == AAD(index, last) && index < k && k + CeilDiv(|data|, PLAIN_CHUNK) <= 0x1_0000_0000
    ensures !Issued(aead.seal, nonces, data, k, t)
    decreases |data|
  {
    hide AAD, CeilDiv;
    CeilDivStep(|data|);
    if |data| > 0 && t.aad == AAD(k, true) { CeilDivAtLeastOne(|data|, PLAIN_CHUNK); AADsDiffer(index, last, k, true); }
    if |data| > 0 && t.aad == AAD(k, false) {
      CeilDivAtLeastOne(|data|, PLAIN_CHUNK);
      AADsDiffer(index, last, k, false);
    }
    if |data| > PLAIN_CHUNK { NotIssuedLater(aead, nonces, data[PLAIN_CHUNK..], k + 1, t, index, last); }
  }

  /** A chunk that opens as number `k` is the chunk sealed as number `k`, last flag included. */
  lemma OpensTheSame(aead: AEAD, nonces: Nonces, data: Bytes, k: nat, chunk: Bytes, last: bool)
    requires OpensOnlyIssued(aead, nonces, data, k) && NoncesOk(nonces)
    requires |data| > 0 && k + CeilDiv(|data|, PLAIN_CHUNK) <= 0x1_0000_0000
    requires OpenChunk(aead, chunk, AAD(k, last)).Some?
    ensures last == (|data| <= PLAIN_CHUNK)
    ensures var plain := if last then data else data[..PLAIN_CHUNK];
            chunk == SealChunk(aead, nonces, k, plain, last) && OpenChunk(aead, chunk, AAD(k, last)) == Some(plain)
  {
    hide AAD, CeilDiv;
    CeilDivStep(|data|);
    CeilDivAtLeastOne(|data|, PLAIN_CHUNK);
    var nonce, text := chunk[..NONCE_SIZE], chunk[NONCE_SIZE..];
    var t := Triple(nonce, text, AAD(k, last), aead.open(nonce, text, AAD(k, last)).value);
    assert Issued(aead.seal, nonces, data, k, t);
    if t.aad == AAD(k, !last) { AADsDiffer(k, last, k, !last); }
    if |data| > PLAIN_CHUNK {
      NotIssuedLater(aead, nonces, data[PLAIN_CHUNK..], k + 1, t, k, last);
    }
    assert chunk == nonce + text;
  }

  lemma {:induction false} PayloadIsOriginal(aead: AEAD, nonces: Nonces, data: Bytes, k: nat, size: nat, payload: Bytes)
    requires OpensOnlyIssued(aead, nonces, data, k) && NoncesOk(nonces)
    requires |data| > 0 && k + CeilDiv(|data|, PLAIN_CHUNK) <= 0x1_0000_0000
    requires size > 0 && payload != [] && OpenedFrom(aead, size, payload, k).Some?
    ensures payload == Sealed(aead, nonces, data, k) && OpenedFrom(aead, size, payload, k) == Some(data)
    decreases |data|
  {
    hide AAD, CeilDiv, OpenChunk, SealChunk, OpensOnlyIssued;
    if |payload| <= size {
      OpensTheSame(aead, nonces, data, k, payload, true);
    } else {
      OpensTheSame(aead, nonces, data, k, payload[..size], false);
      CeilDivStep(|data|);
      CeilDivAtLeastOne(|data| - PLAIN_CHUNK, PLAIN_CHUNK);
      OpensOnlyLater(aead, nonces, data, k);
      PayloadIsOriginal(aead, nonces, data[PLAIN_CHUNK..], k + 1, size, payload[size..]);
      assert payload == payload[..size] + payload[size..];
      assert data == data[..PLAIN_CHUNK] + data[PLAIN_CHUNK..];
    }
  }

  /** What the unauthenticated chunk-size byte may be: the original one, or any size that still holds
      the payload of data that fits one chunk. */
  predicate CutsAlike(e: Byte, length: nat) {
    e == LOG_RAW_CHUNK || (length <= PLAIN_CHUNK && e < 63 && length + OVERHEAD <= Pow2(e))
  }

  lemma AcceptedCutsAlike(aead: AEAD, nonces: Nonces, data: Bytes, e: Byte, payload: Bytes)
    requires OpensOnlyIssued(aead, nonces, data, 0) && NoncesOk(nonces) && AddsTag(aead)
    requires |data| > 0 && CeilDiv(|data|, PLAIN_CHUNK) <= 0x1_0000_0000
    requires e < 63 && Pow2(e) > 0 && payload != [] && OpenedFrom(aead, Pow2(e), payload, 0).Some?
    ensures CutsAlike(e, |data|)
  {
    hide AAD, CeilDiv, OpenChunk, OpensOnlyIssued, Pow2;
    var size := Pow2(e);
    if |payload| <= size {
      OpensTheSame(aead, nonces, data, 0, payload, true);
    } else {
      OpensTheSame(aead, nonces, data, 0, payload[..size], false);
      assert size == RAW_CHUNK;
      HeaderChunkSize();
      if e < 15 { Pow2Grows(e, 15); }
      if e > 15 { Pow2Grows(15, e); }
    }
  }

  lemma AlikeIsAccepted(aead: AEAD, nonces: Nonces, data: Bytes, wire: Bytes)
    requires OpensIssued(aead, nonces, data, 0) && NoncesOk(nonces) && AddsTag(aead) && |data| > 0
    requires |wire| > 2 && wire[0] == 0 && wire[2..] == Encrypted(aead, nonces, data)[2..] && CutsAlike(wire[1], |data|)
    ensures Decrypted(aead, 32, wire) == Plain(data)
  {
    hide OpenedFrom, Pow2, OpensIssued, OpenChunk, SealChunk, AAD;
    var original := Encrypted(aead, nonces, data);
    if wire[1] == LOG_RAW_CHUNK {
      RoundTrip(aead, nonces, data);
      assert original[0] == 0 && original[1] == LOG_RAW_CHUNK;
      assert wire == [wire[0], wire[1]] + wire[2..] && original == [original[0], original[1]] + original[2..];
    } else {
      var payload, size := wire[2..], Pow2(wire[1]);
      IssuedOpens(aead, nonces, data, 0);
      assert payload == SealChunk(aead, nonces, 0, data, true);
      OneChunk(aead, size, payload, 0);
      assert CeilDiv(|payload|, size) == 1 by { CeilDivOne(|payload|, size); }
    }
  }

  lemma OneChunk(aead: AEAD, size: nat, payload: Bytes, k: nat)
    requires 0 < |payload| <= size
    ensures OpenedFrom(aead, size, payload, k) == OpenChunk(aead, payload, AAD(k, true))
  {
  }

  lemma CeilDivOne(n: nat, d: nat)
    requires 0 < n <= d
    ensures CeilDiv(n, d) == 1
  {
    assert n + d - 1 == 1 * d + (n - 1);
    assert (n + d - 1) / d == 1;
  }

  lemma HeaderAloneIsEmpty(aead: AEAD, wire: Bytes)
    requires |wire| == 2 && wire[0] == 0
    ensures Decrypted(aead, 32, wire) == Plain([])
  {
    hide Pow2;
    var size := ChunkSize(wire[1]);
    assert wire[2..] == [];
    if size > 0 { assert CeilDiv(0, size) == 0; }
  }

  /** Under an ideal cipher that has sealed only `data`, exactly these wires decrypt: the header alone, which
      yields nothing, and the original payload, which yields the data, behind a chunk size that cuts it alike.
      No chunk can be dropped, repeated, swapped, truncated or altered. */
  lemma OnlyTheOriginalDecrypts(aead: AEAD, nonces: Nonces, data: Bytes, wire: Bytes)
    requires OpensIssued(aead, nonces, data, 0) && OpensOnlyIssued(aead, nonces, data, 0)
    requires NoncesOk(nonces) && AddsTag(aead)
    requires wire != [] && CeilDiv(|data|, PLAIN_CHUNK) <= 0x1_0000_0000
    ensures var original := Encrypted(aead, nonces, data);
            Decrypted(aead, 32, wire).Plain? <==>
              && |wire| >= 2 && wire[0] == 0
              && (|wire| == 2 || (data != [] && wire[2..] == original[2..] && CutsAlike(wire[1], |data|)))
    ensures Decrypted(aead, 32, wire).Plain? ==> Decrypted(aead, 32, wire) == Plain(if |wire| == 2 then [] else data)
  {
    hide Sealed, OpenedFrom, CeilDiv, Pow2, OpensOnlyIssued, OpensIssued, CutsAlike;
    if |wire| == 2 && wire[0] == 0 { HeaderAloneIsEmpty(aead, wire); }
    if |wire| > 2 && wire[0] == 0 {
      if data != [] && wire[2..] == Encrypted(aead, nonces, data)[2..] && CutsAlike(wire[1], |data|) {
        AlikeIsAccepted(aead, nonces, data, wire);
      }
      if Decrypted(aead, 32, wire).Plain? { AcceptedIsAlike(aead, nonces, data, wire); }
    }
  }

  lemma AcceptedIsAlike(aead: AEAD, nonces: Nonces, data: Bytes, wire: Bytes)
    requires OpensOnlyIssued(aead, nonces, data, 0) && NoncesOk(nonces) && AddsTag(aead)
    requires |wire| > 2 && CeilDiv(|data|, PLAIN_CHUNK) <= 0x1_0000_0000 && Decrypted(aead, 32, wire).Plain?
    ensures data != [] && wire[2..] == Encrypted(aead, nonces, data)[2..] && CutsAlike(wire[1], |data|)
    ensures Decrypted(aead, 32, wire) == Plain(data)
  {
    hide Sealed, OpenedFrom, CeilDiv, Pow2, OpensOnlyIssued, CutsAlike;
    var size := ChunkSize(wire[1]);
    assert size > 0 && OpenedFrom(aead, size, wire[2..], 0).Some?;
    if data == [] { NothingOpens(aead, nonces, size, wire[2..]); }
    PayloadIsOriginal(aead, nonces, data, 0, size, wire[2..]);
    AcceptedCutsAlike(aead, nonces, data, wire[1], wire[2..]);
    assert Encrypted(aead, nonces, data)[2..] == Sealed(aead, nonces, data, 0);
  }

  lemma NothingOpens(aead: AEAD, nonces: Nonces, size: nat, payload: Bytes)
    requires OpensOnlyIssued(aead, nonces, [], 0) && size > 0 && payload != []
    ensures OpenedFrom(aead, size, payload, 0).None?
  {
    hide AAD;
    var chunk := if |payload| <= size then payload else payload[..size];
    assert OpenChunk(aead, chunk, AAD(0, |payload| <= size)).None?;
  }

  /** Such a cipher exists for any nonces and data. */
  lemma IdealCipherExists(nonces: Nonces, data: Bytes) returns (aead: AEAD)
    ensures AddsTag(aead) && OpensIssued(aead, nonces, data, 0) && OpensOnlyIssued(aead, nonces, data, 0)
  {
    hide AAD;
    var tag: Bytes := seq(TAG_SIZE, _ => 0);
    var seal: Seal := (n, p, a) => p + tag;
    aead := AEAD(seal, (n, c, a) =>
      if |c| >= TAG_SIZE && Issued(seal, nonces, data, 0, Triple(n, c, a, c[..|c| - TAG_SIZE]))
      then Some(c[..|c| - TAG_SIZE]) else None);
    forall t | Issued(seal, nonces, data, 0, t) ensures aead.open(t.nonce, t.text, t.aad) == Some(t.data) {
      IssuedTexts(seal, tag, nonces, data, 0, t);
    }
  }

  lemma {:induction false} IssuedTexts(seal: Seal, tag: Bytes, nonces: Nonces, data: Bytes, k: nat, t: Triple)
    requires |tag| == TAG_SIZE && (forall n, p, a :: seal(n, p, a) == p + tag) && Issued(seal, nonces, data, k, t)
    ensures |t.text| >= TAG_SIZE && t.text[..|t.text| - TAG_SIZE] == t.data
    decreases |data|
  {
    hide AAD;
    if |data| > PLAIN_CHUNK && Issued(seal, nonces, data[PLAIN_CHUNK..], k + 1, t) {
      IssuedTexts(seal, tag, nonces, data[PLAIN_CHUNK..], k + 1, t);
    }
  }

  /** A lone header byte, and every non-empty payload of fewer than 28 bytes, reach the run-time panic. */
  lemma ShortWiresPanic(aead: AEAD, wire: Bytes)
    requires wire == [0] || (2 < |wire| < 2 + OVERHEAD && wire[0] == 0 && wire[1] <= 63)
    ensures Decrypted(aead, 32, wire) == Panicked
  {
    hide Pow2, OpenedFrom;
    if |wire| > 2 {
      PowersArePositive(wire[1]);
      PowersArePositive(63);
      if wire[1] < 63 { CeilDivAtLeastOne(|wire| - 2, Pow2(wire[1])); }
    }
  }

  lemma PowersArePositive(e: nat)
    ensures Pow2(e) > 0
  {
    Pow2Grows(e, e + 1);
  }

  lemma CeilDivAtLeastOne(n: nat, d: nat)
    requires n > 0 && d > 0
    ensures CeilDiv(n, d) >= 1
  {
    assert n + d - 1 == d + (n - 1);
    assert (n + d - 1) / d >= 1;
  }
}
