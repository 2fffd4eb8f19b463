/** The chunked authenticated container that holds an encrypted recording. */
module Container {
  import opened Arithmetic
  import opened Wrappers
  import opened Bytes

  const TAG_BYTES := 16
  const HEADER_BYTES := 32
  const DIGEST_BYTES := 32
  const MAX_CHUNKS := 0x1_0000_0000
  const MIN_CHUNK_SIZE := 64 * 1024
  const MAX_CHUNK_SIZE := 8 * 1024 * 1024

  function Magic(): Bytes { Ascii("CVAEAD01") }

  function AadDomain(): Bytes { Ascii("CamVault archive encryption v1") + [0] }

  // ---- The cipher ---------------------------------------------------------

  /** Authenticated encryption under one fixed key: (nonce, text, associated data). */
  datatype Cipher = Cipher(
    seal: (Bytes, Bytes, Bytes) -> Bytes,
    open: (Bytes, Bytes, Bytes) -> Option<Bytes>
  )

  /** Sealing adds 16 bytes and can be undone. */
  ghost predicate SealLaw(c: Cipher, n: Bytes, p: Bytes, a: Bytes) {
    && |c.seal(n, p, a)| == |p| + TAG_BYTES
    && c.open(n, c.seal(n, p, a), a) == Some(p)
  }

  /** Opening succeeds only on what sealing produced. */
  ghost predicate OpenLaw(c: Cipher, n: Bytes, x: Bytes, a: Bytes) {
    var text := c.open(n, x, a);
    text.Some? ==> c.seal(n, text.value, a) == x
  }

  ghost predicate Lawful(c: Cipher) {
    && (forall n: Bytes, p: Bytes, a: Bytes :: SealLaw(c, n, p, a))
    && (forall n: Bytes, x: Bytes, a: Bytes :: OpenLaw(c, n, x, a))
  }

  const BLANK_TAG: Bytes := seq(TAG_BYTES, _ => 0)

  /** A cipher that satisfies the laws, so that they are consistent. */
  const TAGGED_COPY: Cipher := Cipher(
    (n: Bytes, p: Bytes, a: Bytes) => p + BLANK_TAG,
    (n: Bytes, x: Bytes, a: Bytes) =>
      if |x| >= TAG_BYTES && x[|x| - TAG_BYTES..] == BLANK_TAG then Some(x[..|x| - TAG_BYTES]) else None
  )

  lemma {:induction false} TaggedCopyIsLawful()
    ensures Lawful(TAGGED_COPY)
  {
    forall n: Bytes, p: Bytes, a: Bytes
      ensures SealLaw(TAGGED_COPY, n, p, a)
    {
      var x := p + BLANK_TAG;
      assert x[..|p|] == p && x[|p|..] == BLANK_TAG;
    }
    forall n: Bytes, x: Bytes, a: Bytes
      ensures OpenLaw(TAGGED_COPY, n, x, a)
    {
      if TAGGED_COPY.open(n, x, a).Some? {
        assert x == x[..|x| - TAG_BYTES] + x[|x| - TAG_BYTES..];
      }
    }
  }

  ghost function LawfulExample(): (c: Cipher)
    ensures Lawful(c)
  {
    TaggedCopyIsLawful();
    TAGGED_COPY
  }

  type Aead = c: Cipher | Lawful(c) ghost witness LawfulExample()

  /** A cipher with its key, together with the digest of the recording's path. */
  datatype Vault = Vault(aead: Aead, contextDigest: Bytes)

  // ---- Header -------------------------------------------------------------

  datatype ContainerError =
    | NegativeSize
    | ChunkSizeOutOfRange
    | TooManyChunks
    | NonceLength
    | HeaderLength
    | Signature
    | ChunkIndex
    | ChunkLength
    | Authentication
    | RangeInvalid

  datatype Header = Header(chunkSize: nat, plaintextSize: nat, nonceBase: Bytes) {
    predicate Valid() {
      && MIN_CHUNK_SIZE <= chunkSize <= MAX_CHUNK_SIZE
      && ChunksIn(plaintextSize, chunkSize) < MAX_CHUNKS
      && |nonceBase| == 12
    }

    function ChunkCount(): nat
      requires chunkSize > 0
    {
      if plaintextSize == 0 then 0 else ChunksIn(plaintextSize, chunkSize)
    }

    function Pack(): (b: Bytes)
      requires |nonceBase| == 12
      ensures |b| == HEADER_BYTES
    {
      Magic() + BigEndian(chunkSize, 4) + BigEndian(plaintextSize, 8) + nonceBase
    }
  }

  function ChunksIn(size: nat, chunkSize: nat): nat
    requires chunkSize > 0
  {
    (size + chunkSize - 1) / chunkSize
  }

  lemma {:induction false} ChunkCountIs(h: Header)
    requires h.chunkSize > 0
    ensures h.ChunkCount() == ChunksIn(h.plaintextSize, h.chunkSize)
  {
  }

  function NewHeader(plaintextSize: int, chunkSize: int, nonceBase: Bytes): (r: Result<Header, ContainerError>)
    ensures r.Success? ==> r.value.Valid()
  {
    if plaintextSize < 0 then Failure(NegativeSize)
    else if chunkSize < MIN_CHUNK_SIZE || chunkSize > MAX_CHUNK_SIZE then Failure(ChunkSizeOutOfRange)
    else if ChunksIn(plaintextSize, chunkSize) >= MAX_CHUNKS then Failure(TooManyChunks)
    else if |nonceBase| != 12 then Failure(NonceLength)
    else Success(Header(chunkSize, plaintextSize, nonceBase))
  }

  function ParseHeader(payload: Bytes): (r: Result<Header, ContainerError>)
    ensures r.Success? ==> r.value.Valid()
  {
    if |payload| != HEADER_BYTES then Failure(HeaderLength)
    else if payload[..8] != Magic() then Failure(Signature)
    else NewHeader(FromBigEndian(payload[12..20]), FromBigEndian(payload[8..12]), payload[20..])
  }

  /** Packing and parsing are inverse in both directions: no header field overflows its width,
      and no other 32 bytes parse to the same header. */
  lemma {:induction false} HeaderRoundTrip(h: Header)
    requires h.Valid()
    ensures ParseHeader(h.Pack()) == Success(h)
  {
    var b := h.Pack();
    RangeValues();
    PlaintextSizeFits(h);
    BigEndianRoundTrip(h.chunkSize, 4);
    BigEndianRoundTrip(h.plaintextSize, 8);
    hide BigEndian, FromBigEndian, Range;
    assert b[..8] == Magic();
    assert b[8..12] == BigEndian(h.chunkSize, 4);
    assert b[12..20] == BigEndian(h.plaintextSize, 8);
    assert b[20..] == h.nonceBase;
  }

  lemma {:induction false} HeaderIsCanonical(payload: Bytes)
    requires ParseHeader(payload).Success?
    ensures ParseHeader(payload).value.Pack() == payload
  {
    hide BigEndian, FromBigEndian;
    FromBigEndianRoundTrip(payload[8..12]);
    FromBigEndianRoundTrip(payload[12..20]);
    assert payload == payload[..8] + payload[8..12] + payload[12..20] + payload[20..];
  }

  lemma {:induction false} PlaintextSizeFits(h: Header)
    requires h.Valid()
    ensures h.plaintextSize <= ChunksIn(h.plaintextSize, h.chunkSize) * h.chunkSize
    ensures h.plaintextSize < Range(8)
  {
    RangeValues();
    var n, c := ChunksIn(h.plaintextSize, h.chunkSize), h.chunkSize;
    assert h.plaintextSize + c - 1 == n * c + (h.plaintextSize + c - 1) % c;
    assert n * c <= MAX_CHUNKS * MAX_CHUNK_SIZE by {
      MulMonotone(n, MAX_CHUNKS, c);
      MulMonotone(c, MAX_CHUNK_SIZE, MAX_CHUNKS);
    }
  }

  lemma {:induction false} MulMonotone(a: int, b: int, c: nat)
    requires a <= b
    ensures a * c <= b * c && c * a <= c * b
  {
  }

  // ---- Geometry -----------------------------------------------------------

  function EncryptedSize(plaintextSize: int, chunkSize: int): (r: Result<nat, ContainerError>)
  {
    match NewHeader(plaintextSize, chunkSize, seq(12, _ => 0))
    case Failure(e) => Failure(e)
    case Success(h) => Success(HEADER_BYTES + h.plaintextSize + h.ChunkCount() * TAG_BYTES)
  }

  predicate HasChunk(h: Header, index: int)
    requires h.chunkSize > 0
  {
    0 <= index < h.ChunkCount()
  }

  function PlainChunkSize(h: Header, index: nat): (size: nat)
    requires h.chunkSize > 0 && HasChunk(h, index)
    ensures 0 < size <= h.chunkSize
    ensures index * h.chunkSize + size <= h.plaintextSize
    ensures size < h.chunkSize ==> index + 1 == h.ChunkCount()
    ensures index + 1 == h.ChunkCount() ==> index * h.chunkSize + size == h.plaintextSize
  {
    ChunkStartsInside(h, index);
    var rest := h.plaintextSize - index * h.chunkSize;
    if h.chunkSize <= rest then h.chunkSize else rest
  }

  lemma {:induction false} ChunkStartsInside(h: Header, index: nat)
    requires h.chunkSize > 0 && HasChunk(h, index)
    ensures index * h.chunkSize < h.plaintextSize
    ensures index + 1 < h.ChunkCount() ==> index * h.chunkSize + h.chunkSize < h.plaintextSize
    ensures index + 1 == h.ChunkCount() ==> h.plaintextSize <= index * h.chunkSize + h.chunkSize
  {
    var n, c, p := h.ChunkCount(), h.chunkSize, h.plaintextSize;
    assert p + c - 1 == n * c + (p + c - 1) % c;
    assert index * c + c == (index + 1) * c;
    MulMonotone(index + 1, n, c);
    if index + 1 < n {
      MulMonotone(index + 2, n, c);
      assert index * c + 2 * c == (index + 2) * c;
    }
  }

  /** Position p of the plaintext lies in chunk p / chunkSize. */
  lemma {:induction false} PositionHasChunk(h: Header, p: nat)
    requires h.chunkSize > 0 && p < h.plaintextSize
    ensures HasChunk(h, p / h.chunkSize)
  {
    var c, k := h.chunkSize, p / h.chunkSize;
    assert p == k * c + p % c;
    var n := h.ChunkCount();
    assert h.plaintextSize + c - 1 == n * c + (h.plaintextSize + c - 1) % c;
    if k >= n {
      MulMonotone(n, k, c);
      assert false;
    }
  }

  function ChunkOffset(h: Header, index: nat): (at: nat)
    requires h.chunkSize > 0 && HasChunk(h, index)
    ensures at >= HEADER_BYTES
  {
    HEADER_BYTES + index * (h.chunkSize + TAG_BYTES)
  }

  function StoredChunkSize(h: Header, index: nat): nat
    requires h.chunkSize > 0 && HasChunk(h, index)
  {
    PlainChunkSize(h, index) + TAG_BYTES
  }

  /** A stored region ends where the next one starts, and the last one ends the file. */
  function RegionStart(h: Header, k: nat): nat
    requires h.chunkSize > 0 && k <= h.ChunkCount()
  {
    if k < h.ChunkCount() then ChunkOffset(h, k)
    else HEADER_BYTES + h.plaintextSize + h.ChunkCount() * TAG_BYTES
  }

  /** The regions tile the file: each ends where the next starts, none overlaps or is skipped. */
  lemma {:induction false} ChunkRegionsTile(h: Header, index: nat)
    requires h.Valid() && HasChunk(h, index)
    ensures ChunkOffset(h, 0) == HEADER_BYTES
    ensures ChunkOffset(h, index) + StoredChunkSize(h, index) == RegionStart(h, index + 1)
    ensures EncryptedSize(h.plaintextSize, h.chunkSize) == Success(RegionStart(h, h.ChunkCount()))
  {
    ChunkStartsInside(h, index);
    var c := h.chunkSize;
    assert (index + 1) * (c + TAG_BYTES) == index * (c + TAG_BYTES) + c + TAG_BYTES;
    assert index * (c + TAG_BYTES) == index * c + index * TAG_BYTES;
  }

  datatype Span = Span(firstChunk: nat, lastChunk: nat, storedStart: nat, storedEnd: nat)

  function EncryptedSpan(h: Header, start: int, end: int): (r: Result<Span, ContainerError>)
    requires h.Valid()
    ensures r.Success? <==> 0 <= start <= end < h.plaintextSize
    ensures r.Success? ==>
              && r.value.firstChunk <= r.value.lastChunk < h.ChunkCount()
              && r.value.firstChunk * h.chunkSize <= start < (r.value.firstChunk + 1) * h.chunkSize
              && r.value.lastChunk * h.chunkSize <= end < (r.value.lastChunk + 1) * h.chunkSize
  {
    if start < 0 || end < start || end >= h.plaintextSize then Failure(RangeInvalid)
    else
      var first, last := start / h.chunkSize, end / h.chunkSize;
      PositionHasChunk(h, start);
      PositionHasChunk(h, end);
      DivMonotone(start, end, h.chunkSize);
      Success(Span(first, last, ChunkOffset(h, first),
                   ChunkOffset(h, last) + PlainChunkSize(h, last) + TAG_BYTES - 1))
  }

  lemma {:induction false} DivMonotone(a: nat, b: nat, c: nat)
    requires a <= b && c > 0
    ensures a / c <= b / c
    ensures a / c * c <= a < (a / c + 1) * c
    ensures b / c * c <= b < (b / c + 1) * c
  {
    assert a == a / c * c + a % c && b == b / c * c + b % c;
    if b / c < a / c {
      MulMonotone(b / c + 1, a / c, c);
      assert false;
    }
  }

  // ---- Sealing one chunk --------------------------------------------------

  function ChunkNonce(h: Header, index: nat): Bytes {
    BigEndian((FromBigEndian(h.nonceBase) + index) % Range(12), 12)
  }

  function ChunkAad(v: Vault, h: Header, index: nat, size: nat): Bytes
    requires |h.nonceBase| == 12
  {
    AadDomain() + h.Pack() + v.contextDigest + BigEndian(index, 4) + BigEndian(size, 4)
  }

  /** Section 8 of NIST SP 800-38D: under one header no nonce is used twice. */
  lemma {:induction false} NoncesDiffer(h: Header, i: nat, j: nat)
    requires h.Valid() && HasChunk(h, i) && HasChunk(h, j) && i != j
    ensures ChunkNonce(h, i) != ChunkNonce(h, j)
  {
    RangeValues();
    var base, m := FromBigEndian(h.nonceBase), Range(12);
    BigEndianRoundTrip((base + i) % m, 12);
    BigEndianRoundTrip((base + j) % m, 12);
    if i < j { SmallShiftChangesResidue(base + i, j - i, m); }
    else { SmallShiftChangesResidue(base + j, i - j, m); }
  }

  lemma {:induction false} SmallShiftChangesResidue(x: nat, d: nat, m: nat)
    requires 0 < d < m
    ensures x % m != (x + d) % m
  {
    if x % m == (x + d) % m {
      assert x == x / m * m + x % m && x + d == (x + d) / m * m + (x + d) % m;
      var q := (x + d) / m - x / m;
      assert d == q * m;
      if q >= 1 { MulMonotone(1, q, m); } else { MulMonotone(q, 0, m); }
      assert false;
    }
  }

  function SealChunk(v: Vault, h: Header, index: nat, plain: Bytes): (c: Bytes)
    requires |h.nonceBase| == 12
    ensures |c| == |plain| + TAG_BYTES
  {
    var n, a := ChunkNonce(h, index), ChunkAad(v, h, index, |plain|);
    assert SealLaw(v.aead, n, plain, a);
    v.aead.seal(n, plain, a)
  }

  function DecryptChunk(v: Vault, h: Header, index: int, payload: Bytes): Result<Bytes, ContainerError>
    requires h.Valid()
  {
    if !HasChunk(h, index) then Failure(ChunkIndex)
    else if |payload| != StoredChunkSize(h, index) then Failure(ChunkLength)
    else
      match v.aead.open(ChunkNonce(h, index), payload, ChunkAad(v, h, index, PlainChunkSize(h, index)))
      case None => Failure(Authentication)
      case Some(plain) => Success(plain)
  }

  /** A chunk opens exactly to the texts of the right length that seal to it. */
  lemma {:induction false} DecryptInvertsSeal(v: Vault, h: Header, index: nat, payload: Bytes, plain: Bytes)
    requires h.Valid() && HasChunk(h, index)
    ensures DecryptChunk(v, h, index, payload) == Success(plain)
       <==> |plain| == PlainChunkSize(h, index) && payload == SealChunk(v, h, index, plain)
  {
    var size := PlainChunkSize(h, index);
    var n, a := ChunkNonce(h, index), ChunkAad(v, h, index, size);
    assert SealLaw(v.aead, n, plain, a);
    assert OpenLaw(v.aead, n, payload, a);
    if DecryptChunk(v, h, index, payload) == Success(plain) {
      assert v.aead.seal(n, plain, a) == payload;
    }
  }

  // ---- What a chunk is bound to -------------------------------------------

  predicate FitsFields(v: Vault, h: Header, index: nat, size: nat) {
    |v.contextDigest| == DIGEST_BYTES && h.Valid() && index < MAX_CHUNKS && size < MAX_CHUNKS
  }

  lemma {:induction false} AadParts(v: Vault, h: Header, index: nat, size: nat)
    requires FitsFields(v, h, index, size)
    ensures var aad, n := ChunkAad(v, h, index, size), |AadDomain()|;
            && |aad| == n + 72
            && ParseHeader(aad[n..n + 32]) == Success(h)
            && aad[n + 32..n + 64] == v.contextDigest
            && FromBigEndian(aad[n + 64..n + 68]) == index
            && FromBigEndian(aad[n + 68..]) == size
  {
    HeaderRoundTrip(h);
    RangeValues();
    BigEndianRoundTrip(index, 4);
    BigEndianRoundTrip(size, 4);
    hide ParseHeader, Header.Pack, BigEndian, FromBigEndian, Range, AadDomain, Header.Valid;
    var aad, n := ChunkAad(v, h, index, size), |AadDomain()|;
    assert aad[n..n + 32] == h.Pack();
    assert aad[n + 64..n + 68] == BigEndian(index, 4);
    assert aad[n + 68..] == BigEndian(size, 4);
  }

  /** The associated data of a chunk tells the path's digest, every field of the header, the chunk's
      place and its size: whatever differs in one of them has other associated data. */
  lemma {:induction false} AadTellsAll(v: Vault, h: Header, index: nat, size: nat,
                                       v': Vault, h': Header, index': nat, size': nat)
    requires FitsFields(v, h, index, size) && FitsFields(v', h', index', size')
    ensures ChunkAad(v, h, index, size) == ChunkAad(v', h', index', size')
       <==> v.contextDigest == v'.contextDigest && h == h' && index == index' && size == size'
  {
    AadParts(v, h, index, size);
    AadParts(v', h', index', size');
    hide ChunkAad, AadDomain, ParseHeader, FromBigEndian, Header.Valid;
  }

  /** What authentication buys on top of the two laws: this text opens under no other nonce, and with
      no other associated data. No cipher has it for all texts at once, because there are more
      nonces and data than tags; it is asked of the texts in question only. */
  ghost predicate OpensOnlyAs(c: Cipher, n: Bytes, x: Bytes, a: Bytes) {
    forall n': Bytes, a': Bytes :: c.open(n', x, a').Some? ==> n' == n && a' == a
  }

  function WithoutTag(x: Bytes, tag: Bytes): Option<Bytes> {
    if |x| >= TAG_BYTES && x[|x| - TAG_BYTES..] == tag then Some(x[..|x| - TAG_BYTES]) else None
  }

  /** For any text, nonce and data there is a lawful cipher that has it, so it can be asked: one with a
      tag of its own for this nonce and data. */
  lemma {:induction false} BindingIsConsistent(n0: Bytes, p0: Bytes, a0: Bytes) returns (c: Cipher)
    ensures Lawful(c) && OpensOnlyAs(c, n0, c.seal(n0, p0, a0), a0)
  {
    var own: Bytes, other: Bytes := seq(TAG_BYTES, _ => 0), seq(TAG_BYTES, _ => 1);
    c := Cipher(
      (n: Bytes, p: Bytes, a: Bytes) => p + if n == n0 && a == a0 then own else other,
      (n: Bytes, x: Bytes, a: Bytes) => WithoutTag(x, if n == n0 && a == a0 then own else other));
    forall n: Bytes, p: Bytes, a: Bytes
      ensures SealLaw(c, n, p, a)
    {
      TagComesOff(p, if n == n0 && a == a0 then own else other);
    }
    forall n: Bytes, x: Bytes, a: Bytes
      ensures OpenLaw(c, n, x, a)
    {
      if c.open(n, x, a).Some? {
        assert x == x[..|x| - TAG_BYTES] + x[|x| - TAG_BYTES..];
      }
    }
    TagComesOff(p0, own);
    assert c.seal(n0, p0, a0) == p0 + own && WithoutTag(p0 + own, other).None? by {
      assert (p0 + own)[|p0|..] == own && own[0] != other[0];
    }
    forall n: Bytes, a: Bytes | c.open(n, p0 + own, a).Some?
      ensures n == n0 && a == a0
    {
    }
  }

  lemma {:induction false} TagComesOff(p: Bytes, tag: Bytes)
    requires |tag| == TAG_BYTES
    ensures WithoutTag(p + tag, tag) == Some(p)
  {
    assert (p + tag)[..|p|] == p && (p + tag)[|p|..] == tag;
  }

  /** A sealed chunk opens exactly as what it was sealed as: for the same path, under the same header,
      at the same place and in the same length. */
  lemma {:induction false} ForeignChunkFails(v: Vault, h: Header, index: nat, plain: Bytes,
                                             v': Vault, h': Header, index': int)
    requires FitsFields(v, h, index, |plain|)
    requires OpensOnlyAs(v.aead, ChunkNonce(h, index), SealChunk(v, h, index, plain), ChunkAad(v, h, index, |plain|))
    requires h'.Valid() && |v'.contextDigest| == DIGEST_BYTES && v'.aead == v.aead
    ensures DecryptChunk(v', h', index', SealChunk(v, h, index, plain)).Success?
       <==> && v'.contextDigest == v.contextDigest && h' == h && index' == index
            && HasChunk(h, index) && |plain| == PlainChunkSize(h, index)
  {
    var payload := SealChunk(v, h, index, plain);
    if DecryptChunk(v', h', index', payload).Success? {
      IndexFits(h', index');
      AadTellsAll(v, h, index, |plain|, v', h', index', PlainChunkSize(h', index'));
    } else if v'.contextDigest == v.contextDigest && h' == h && index' == index && HasChunk(h, index) {
      DecryptInvertsSeal(v, h, index, payload, plain);
      assert v' == v;
    }
  }

  lemma {:induction false} IndexFits(h: Header, index: nat)
    requires h.Valid() && HasChunk(h, index)
    ensures index < MAX_CHUNKS && PlainChunkSize(h, index) < MAX_CHUNKS
  {
    ChunkCountIs(h);
  }

  // ---- The whole stream ---------------------------------------------------

  /** The plaintext block that chunk `index` carries. */
  function Block(data: Bytes, chunkSize: nat, index: nat): Bytes
    requires index * chunkSize <= |data|
  {
    data[index * chunkSize..Min(index * chunkSize + chunkSize, |data|)]
  }

  lemma {:induction false} BlockStartsInside(size: nat, chunkSize: nat, index: nat)
    requires chunkSize > 0 && index < ChunksIn(size, chunkSize)
    ensures index * chunkSize <= size
  {
    ChunkStartsInside(Header(chunkSize, size, []), index);
  }

  /** The header and the first k sealed chunks. */
  function StreamTo(v: Vault, h: Header, data: Bytes, k: nat): (pieces: seq<Bytes>)
    requires h.Valid() && k <= ChunksIn(|data|, h.chunkSize)
    ensures |pieces| == k + 1
  {
    if k == 0 then [h.Pack()]
    else
      BlockStartsInside(|data|, h.chunkSize, k - 1);
      StreamTo(v, h, data, k - 1) + [SealChunk(v, h, k - 1, Block(data, h.chunkSize, k - 1))]
  }

  function Stream(v: Vault, h: Header, data: Bytes): seq<Bytes>
    requires h.Valid()
  {
    StreamTo(v, h, data, ChunksIn(|data|, h.chunkSize))
  }

  lemma {:induction false} StreamToPrefix(v: Vault, h: Header, data: Bytes, k: nat, n: nat)
    requires h.Valid() && k <= n <= ChunksIn(|data|, h.chunkSize)
    ensures StreamTo(v, h, data, k) <= StreamTo(v, h, data, n)
    decreases n
  {
    hide SealChunk, Block;
    if k < n { StreamToPrefix(v, h, data, k, n - 1); }
  }

  /** The stored file up to chunk k: the emitted pieces, one after another. */
  function FileTo(v: Vault, h: Header, data: Bytes, k: nat): Bytes
    requires h.Valid() && |data| == h.plaintextSize && k <= h.ChunkCount()
  {
    if k == 0 then h.Pack()
    else
      ChunkStartsInside(h, k - 1);
      FileTo(v, h, data, k - 1) + SealChunk(v, h, k - 1, Block(data, h.chunkSize, k - 1))
  }

  lemma {:induction false} BlockLength(h: Header, data: Bytes, index: nat)
    requires h.chunkSize > 0 && |data| == h.plaintextSize && HasChunk(h, index)
    ensures index * h.chunkSize <= |data|
    ensures |Block(data, h.chunkSize, index)| == PlainChunkSize(h, index)
  {
    ChunkStartsInside(h, index);
  }

  lemma {:induction false} FirstRegionStart(h: Header)
    requires h.Valid()
    ensures RegionStart(h, 0) == HEADER_BYTES
  {
    if h.plaintextSize > 0 { PositionHasChunk(h, 0); }
  }

  lemma {:induction false} RegionStep(h: Header, index: nat)
    requires h.Valid() && HasChunk(h, index)
    ensures RegionStart(h, index + 1) == RegionStart(h, index) + PlainChunkSize(h, index) + TAG_BYTES
  {
    hide PlainChunkSize, ChunksIn;
    ChunkRegionsTile(h, index);
  }

  lemma {:induction false} FileToLength(v: Vault, h: Header, data: Bytes, k: nat)
    requires h.Valid() && |data| == h.plaintextSize && k <= h.ChunkCount()
    ensures |FileTo(v, h, data, k)| == RegionStart(h, k)
  {
    FirstRegionStart(h);
    hide RegionStart, SealChunk, Header.Pack, Header.ChunkCount, ChunksIn, Block, PlainChunkSize;
    if k > 0 {
      FileToLength(v, h, data, k - 1);
      BlockLength(h, data, k - 1);
      RegionStep(h, k - 1);
    }
  }

  function StoredFile(v: Vault, h: Header, data: Bytes): Bytes
    requires h.Valid() && |data| == h.plaintextSize
  {
    FileTo(v, h, data, h.ChunkCount())
  }

  lemma {:induction false} StoredLength(v: Vault, h: Header, data: Bytes)
    requires h.Valid() && |data| == h.plaintextSize
    ensures EncryptedSize(h.plaintextSize, h.chunkSize) == Success(|StoredFile(v, h, data)|)
  {
    FileToLength(v, h, data, h.ChunkCount());
  }

  /** The stored file is what a receiver of the emitted stream ends up with. */
  lemma {:induction false} StreamMakesFile(v: Vault, h: Header, data: Bytes)
    requires h.Valid() && |data| == h.plaintextSize
    ensures Joined(Stream(v, h, data)) == StoredFile(v, h, data)
  {
    ChunkCountIs(h);
    hide StreamTo, FileTo, Joined, ChunksIn, Header.ChunkCount;
    StreamToMakesFile(v, h, data, h.ChunkCount());
  }

  lemma {:induction false} StreamToMakesFile(v: Vault, h: Header, data: Bytes, k: nat)
    requires h.Valid() && |data| == h.plaintextSize && k <= h.ChunkCount()
    ensures Joined(StreamTo(v, h, data, k)) == FileTo(v, h, data, k)
  {
    if k == 0 {
      JoinedLast([h.Pack()], [], h.Pack());
    } else {
      hide Joined, Header.Pack, SealChunk;
      StreamToMakesFile(v, h, data, k - 1);
      ChunkStartsInside(h, k - 1);
      JoinedLast(StreamTo(v, h, data, k), StreamTo(v, h, data, k - 1),
                 SealChunk(v, h, k - 1, Block(data, h.chunkSize, k - 1)));
    }
  }

  lemma {:induction false} FileToPrefix(v: Vault, h: Header, data: Bytes, k: nat, n: nat)
    requires h.Valid() && |data| == h.plaintextSize && k <= n <= h.ChunkCount()
    ensures |FileTo(v, h, data, k)| <= |FileTo(v, h, data, n)|
    ensures FileTo(v, h, data, n)[..|FileTo(v, h, data, k)|] == FileTo(v, h, data, k)
    decreases n
  {
    hide SealChunk, Block, Header.Pack;
    if k < n { FileToPrefix(v, h, data, k, n - 1); }
  }

  /** The bytes of a stored file where chunk `index` lies. */
  function Region(h: Header, file: Bytes, index: nat): Bytes
    requires h.chunkSize > 0 && HasChunk(h, index)
    requires ChunkOffset(h, index) + StoredChunkSize(h, index) <= |file|
  {
    file[ChunkOffset(h, index)..ChunkOffset(h, index) + StoredChunkSize(h, index)]
  }

  /** Each region of the stored file lies inside it, and opens to that chunk's block. */
  lemma {:induction false} StoredChunk(v: Vault, h: Header, data: Bytes, index: nat)
    requires h.Valid() && |data| == h.plaintextSize && HasChunk(h, index)
    ensures index * h.chunkSize <= |data|
    ensures ChunkOffset(h, index) + StoredChunkSize(h, index) <= |StoredFile(v, h, data)|
    ensures DecryptChunk(v, h, index, Region(h, StoredFile(v, h, data), index))
         == Success(Block(data, h.chunkSize, index))
  {
    hide SealChunk, Header.Pack, DecryptChunk, ChunksIn;
    ChunkStartsInside(h, index);
    FileToLength(v, h, data, index);
    FileToLength(v, h, data, index + 1);
    FileToPrefix(v, h, data, index + 1, h.ChunkCount());
    ChunkRegionsTile(h, index);
    var plain := Block(data, h.chunkSize, index);
    var sealed := SealChunk(v, h, index, plain);
    var before, file := FileTo(v, h, data, index), StoredFile(v, h, data);
    SliceOfPrefix(before, sealed, FileTo(v, h, data, index + 1), file);
    assert Region(h, file, index) == sealed;
    DecryptInvertsSeal(v, h, index, sealed, plain);
  }

  lemma {:induction false} SliceOfPrefix(before: Bytes, middle: Bytes, through: Bytes, whole: Bytes)
    requires through == before + middle
    requires |through| <= |whole| && whole[..|through|] == through
    ensures whole[|before|..|through|] == middle
  {
    assert whole[|before|..|through|] == through[|before|..|through|];
  }

  lemma {:induction false} StoredHeader(v: Vault, h: Header, data: Bytes)
    requires h.Valid() && |data| == h.plaintextSize
    ensures |StoredFile(v, h, data)| >= HEADER_BYTES
    ensures ParseHeader(StoredFile(v, h, data)[..HEADER_BYTES]) == Success(h)
  {
    FileToPrefix(v, h, data, 0, h.ChunkCount());
    HeaderRoundTrip(h);
  }

  // ---- The streaming encryptor --------------------------------------------

  datatype Outcome = Completed | Overrun | Underrun | Rejected(error: ContainerError)

  /** What the encryptor owes for the plaintext `data`: the whole stream when the size is as
      declared, the stream of what came when bytes are missing, a prefix of it when there are
      too many. */
  ghost predicate EncryptionOf(v: Vault, h: Header, data: Bytes, emitted: seq<Bytes>, outcome: Outcome)
    requires h.Valid()
  {
    && (|data| == h.plaintextSize ==> outcome == Completed && emitted == Stream(v, h, data))
    && (|data| < h.plaintextSize ==> outcome == Underrun && emitted == Stream(v, h, data))
    && (|data| > h.plaintextSize ==> outcome == Overrun && emitted <= Stream(v, h, data))
  }

  lemma {:induction false} MadeAsDeclared(plaintextSize: int, chunkSize: int, nonceBase: Bytes)
    ensures var made := NewHeader(plaintextSize, chunkSize, nonceBase);
            made.Success? ==>
              && made.value.plaintextSize == plaintextSize && made.value.chunkSize > 0
              && |made.value.nonceBase| == 12
  {
  }

  /** Encrypts a plaintext that arrives in pieces of any size, empty ones included. Whether it
      succeeds, and what it then has emitted, depends on the joined plaintext alone. Of a plaintext that
      is too long, how much is emitted before the error depends on the pieces. */
  method EncryptArchiveChunks(v: Vault, sources: seq<Bytes>, plaintextSize: int, chunkSize: int, nonceBase: Bytes)
    returns (emitted: seq<Bytes>, outcome: Outcome)
    ensures match NewHeader(plaintextSize, chunkSize, nonceBase)
            case Failure(e) => emitted == [] && outcome == Rejected(e)
            case Success(h) => EncryptionOf(v, h, Joined(sources), emitted, outcome)
  {
    hide *;
    MadeAsDeclared(plaintextSize, chunkSize, nonceBase);
    var made := NewHeader(plaintextSize, chunkSize, nonceBase);
    if made.Failure? {
      return [], Rejected(made.error);
    }
    var h := made.value;
    emitted := [h.Pack()];
    ghost var data := Joined(sources);
    var pending: Bytes := [];
    var consumed := 0;
    var index := 0;
    StreamingStarts(v, h, data);
    ReceivedNone(sources);
    for i := 0 to |sources|
      invariant consumed == BytesIn(sources, i) <= plaintextSize
      invariant |pending| < h.chunkSize
      invariant Streaming(v, h, data, consumed, index, pending, emitted)
    {
      var source := sources[i];
      Received(sources, i);
      if |source| == 0 {
        continue;
      }
      StreamingAccepts(v, h, data, consumed, index, pending, emitted, source);
      consumed := consumed + |source|;
      if consumed > plaintextSize {
        outcome := Overrun;
        StreamingOverruns(v, h, data, consumed, index, pending + source, emitted);
        return;
      }
      pending := pending + source;
      index, pending, emitted := SealFullChunks(v, h, data, consumed, index, pending, emitted);
    }
    ReceivedAll(sources);
    StreamingEnds(v, h, data, index, pending, emitted);
    if |pending| > 0 {
      emitted := emitted + [SealChunk(v, h, index, pending)];
      index := index + 1;
    }
    if consumed != plaintextSize {
      outcome := Underrun;
      return;
    }
    // CamVault raises here if the chunk count is wrong; it cannot be.
    assert index == h.ChunkCount();
    outcome := Completed;
  }

  /** The inner loop of the encryptor: as long as a full chunk is pending, seal it. */
  method SealFullChunks(
    v: Vault, h: Header, ghost data: Bytes, ghost consumed: nat, from: nat, held: Bytes, sent: seq<Bytes>)
    returns (index: nat, pending: Bytes, emitted: seq<Bytes>)
    requires h.Valid() && Streaming(v, h, data, consumed, from, held, sent)
    ensures Streaming(v, h, data, consumed, index, pending, emitted)
    ensures |pending| < h.chunkSize
  {
    hide Streaming, SealChunk, ChunksIn;
    index, pending, emitted := from, held, sent;
    while |pending| >= h.chunkSize
      invariant Streaming(v, h, data, consumed, index, pending, emitted)
    {
      StreamingSeals(v, h, data, consumed, index, pending, emitted);
      var plaintext := pending[..h.chunkSize];
      emitted := emitted + [SealChunk(v, h, index, plaintext)];
      pending := pending[h.chunkSize..];
      index := index + 1;
    }
  }

  /** Between pieces: `index` full blocks of `data` are out, the rest of what came is pending. */
  ghost predicate Streaming(
    v: Vault, h: Header, data: Bytes, consumed: nat, index: nat, pending: Bytes, emitted: seq<Bytes>)
    requires h.Valid()
  {
    && consumed <= |data|
    && index * h.chunkSize + |pending| == consumed
    && pending == data[index * h.chunkSize..consumed]
    && index <= ChunksIn(|data|, h.chunkSize)
    && emitted == StreamTo(v, h, data, index)
  }

  lemma {:induction false} StreamingStarts(v: Vault, h: Header, data: Bytes)
    requires h.Valid()
    ensures Streaming(v, h, data, 0, 0, [], [h.Pack()])
  {
  }

  lemma {:induction false} StreamingAccepts(
    v: Vault, h: Header, data: Bytes, consumed: nat, index: nat, pending: Bytes, emitted: seq<Bytes>, source: Bytes)
    requires h.Valid() && Streaming(v, h, data, consumed, index, pending, emitted)
    requires consumed + |source| <= |data| && data[consumed..consumed + |source|] == source
    ensures Streaming(v, h, data, consumed + |source|, index, pending + source, emitted)
  {
    hide StreamTo;
  }

  lemma {:induction false} StreamingSeals(
    v: Vault, h: Header, data: Bytes, consumed: nat, index: nat, pending: Bytes, emitted: seq<Bytes>)
    requires h.Valid() && Streaming(v, h, data, consumed, index, pending, emitted)
    requires |pending| >= h.chunkSize
    ensures Streaming(v, h, data, consumed, index + 1, pending[h.chunkSize..],
                      emitted + [SealChunk(v, h, index, pending[..h.chunkSize])])
  {
    hide SealChunk, Header.Pack;
    assert pending[..h.chunkSize] == Block(data, h.chunkSize, index);
    NextChunk(h.chunkSize, index, |data|);
    assert pending[h.chunkSize..] == data[(index + 1) * h.chunkSize..consumed];
  }

  lemma {:induction false} StreamingOverruns(
    v: Vault, h: Header, data: Bytes, consumed: nat, index: nat, pending: Bytes, emitted: seq<Bytes>)
    requires h.Valid() && Streaming(v, h, data, consumed, index, pending, emitted)
    requires consumed > h.plaintextSize
    ensures EncryptionOf(v, h, data, emitted, Overrun)
  {
    StreamToPrefix(v, h, data, index, ChunksIn(|data|, h.chunkSize));
  }

  lemma {:induction false} StreamingEnds(v: Vault, h: Header, data: Bytes, index: nat, pending: Bytes,
                                         emitted: seq<Bytes>)
    requires h.Valid() && Streaming(v, h, data, |data|, index, pending, emitted)
    requires |pending| < h.chunkSize && |data| <= h.plaintextSize
    ensures var sealed := pending != [];
            var all := if sealed then emitted + [SealChunk(v, h, index, pending)] else emitted;
            && EncryptionOf(v, h, data, all, if |data| == h.plaintextSize then Completed else Underrun)
            && (|data| == h.plaintextSize ==> (if sealed then index + 1 else index) == h.ChunkCount())
  {
    hide SealChunk, Header.Pack;
    EmittedCount(h.chunkSize, index, |pending|);
    ChunkCountIs(h);
    if pending != [] {
      assert pending == Block(data, h.chunkSize, index);
    }
  }

  /** The number of bytes in the first k pieces. */
  ghost function BytesIn(sources: seq<Bytes>, k: nat): nat
    requires k <= |sources|
  {
    |Joined(sources[..k])|
  }

  lemma {:induction false} ReceivedNone(sources: seq<Bytes>)
    ensures BytesIn(sources, 0) == 0
  {
  }

  lemma {:induction false} ReceivedAll(sources: seq<Bytes>)
    ensures BytesIn(sources, |sources|) == |Joined(sources)|
  {
    assert sources[..|sources|] == sources;
  }

  /** The next piece continues the joined plaintext where the pieces before it end. */
  lemma {:induction false} Received(sources: seq<Bytes>, i: nat)
    requires i < |sources|
    ensures BytesIn(sources, i + 1) == BytesIn(sources, i) + |sources[i]| <= |Joined(sources)|
    ensures Joined(sources)[BytesIn(sources, i)..BytesIn(sources, i + 1)] == sources[i]
  {
    assert sources[..i + 1] == sources[..i] + [sources[i]];
    JoinedLast(sources[..i + 1], sources[..i], sources[i]);
    JoinedPrefix(sources, i + 1);
  }

  lemma {:induction false} NextChunk(chunkSize: nat, index: nat, size: nat)
    requires chunkSize > 0 && index * chunkSize + chunkSize <= size
    ensures index + 1 <= ChunksIn(size, chunkSize)
    ensures (index + 1) * chunkSize == index * chunkSize + chunkSize
  {
    assert (index + 1) * chunkSize == index * chunkSize + chunkSize;
    EmittedCount(chunkSize, index + 1, size - (index + 1) * chunkSize);
  }

  lemma {:induction false} EmittedCount(chunkSize: nat, index: nat, rest: nat)
    requires chunkSize > 0
    ensures index <= ChunksIn(index * chunkSize + rest, chunkSize)
    ensures rest == 0 ==> ChunksIn(index * chunkSize + rest, chunkSize) == index
    ensures 0 < rest <= chunkSize ==> ChunksIn(index * chunkSize + rest, chunkSize) == index + 1
  {
    var size := index * chunkSize + rest;
    var n := ChunksIn(size, chunkSize);
    assert size + chunkSize - 1 == n * chunkSize + (size + chunkSize - 1) % chunkSize;
    if n < index { MulMonotone(n + 1, index, chunkSize); assert false; }
    if rest == 0 && n > index { MulMonotone(index + 1, n, chunkSize); assert false; }
    if 0 < rest <= chunkSize && n > index + 1 { MulMonotone(index + 2, n, chunkSize); assert false; }
    if 0 < rest <= chunkSize && n == index { assert false; }
  }
}
