/** Reading a byte range of the plaintext out of an encrypted recording, from the remote store
    or from the local outbox. */
module RangeReader {
  import opened Arithmetic
  import opened Wrappers
  import opened Bytes
  import opened Container

  // ---- Which bytes a request asks for -------------------------------------

  /** A Range header after its syntax has been read. */
  datatype RangeSpec =
    | Absent
    | Unreadable
    | FromTo(first: nat, last: nat)
    | From(first: nat)
    | Suffix(length: nat)

  datatype Selection = Selection(status: nat, start: nat, end: nat)

  /** Section 14.1.2 of RFC 9110: does the header ask for position p of a representation? */
  predicate Requests(spec: RangeSpec, size: nat, p: nat) {
    match spec
    case Absent => true
    case Unreadable => false
    case FromTo(first, last) => first <= p <= last
    case From(first) => first <= p
    case Suffix(length) => size <= p + length
  }

  /** The selected interval holds exactly the requested positions; nothing is selected exactly
      when no position is requested. */
  function ResolveByteRange(spec: RangeSpec, size: nat): (r: Option<Selection>)
    ensures r.Some? ==>
              && r.value.start <= r.value.end < size
              && r.value.status == (if spec.Absent? then 200 else 206)
              && forall p: nat :: p < size ==>
                   (Requests(spec, size, p) <==> r.value.start <= p <= r.value.end)
    ensures r.None? <==> forall p: nat :: p < size ==> !Requests(spec, size, p)
  {
    if size == 0 then None
    else
      match spec
      case Absent =>
        assert Requests(spec, size, 0);
        Some(Selection(200, 0, size - 1))
      case Unreadable => None
      case FromTo(first, last) =>
        if first >= size || last < first then None
        else
          assert Requests(spec, size, first);
          Some(Selection(206, first, Min(last, size - 1)))
      case From(first) =>
        if first >= size then None
        else
          assert Requests(spec, size, first);
          Some(Selection(206, first, size - 1))
      case Suffix(length) =>
        if length == 0 then None
        else
          assert Requests(spec, size, size - 1);
          Some(Selection(206, if length <= size then size - length else 0, size - 1))
  }

  // ---- What a reader owes -------------------------------------------------

  datatype Verdict = Complete | Truncated | ChunkRejected | Dropped

  datatype Reading = Reading(output: Bytes, verdict: Verdict)

  /** The part of a block at `offset` of the plaintext that lies in start..end. */
  function CutAt(offset: nat, plain: Bytes, start: nat, end: nat): Bytes {
    var from := if start <= offset then 0 else start - offset;
    var to := Min(|plain|, end - offset + 1);
    if from < to then plain[from..to] else []
  }

  function Cut(h: Header, index: nat, plain: Bytes, start: nat, end: nat): Bytes {
    CutAt(index * h.chunkSize, plain, start, end)
  }

  /** Reading chunks `index` to `last` off a stored file, however the bytes arrive: everything
      that opens, up to the first chunk that is missing or does not open. */
  function Decode(v: Vault, h: Header, file: Bytes, index: nat, last: nat, start: nat, end: nat): Reading
    requires h.Valid() && last < h.ChunkCount()
    decreases last + 1 - index
  {
    if index > last then Reading([], Complete)
    else if |file| < ChunkOffset(h, index) + StoredChunkSize(h, index) then Reading([], Truncated)
    else
      match DecryptChunk(v, h, index, Region(h, file, index))
      case Failure(_) => Reading([], ChunkRejected)
      case Success(plain) =>
        var rest := Decode(v, h, file, index + 1, last, start, end);
        Reading(Cut(h, index, plain, start, end) + rest.output, rest.verdict)
  }

  /** A range that the recording with header h can serve. */
  predicate Wanted(h: Header, start: nat, end: nat) {
    h.Valid() && start <= end < h.plaintextSize
  }

  function ReadRange(v: Vault, h: Header, file: Bytes, start: nat, end: nat): Reading
    requires Wanted(h, start, end)
  {
    var span := EncryptedSpan(h, start, end).value;
    Decode(v, h, file, span.firstChunk, span.lastChunk, start, end)
  }

  /** Prefixing what was already handed out. */
  function After(done: Bytes, r: Reading): Reading {
    Reading(done + r.output, r.verdict)
  }

  // ---- The remote reader --------------------------------------------------

  const BLANK: byte := 0

  /** The file a response stands for: a 200 body is the file, a 206 body starts at the span. */
  function FileBehind(body: Bytes, whole: bool, storedStart: nat): Bytes {
    if whole then body else seq(storedStart, _ => BLANK) + body
  }

  /** Mid-way through the span: the bytes up to position `at` of the file have been accepted,
      the chunks before `index` are handed out, and the rest of what was accepted is pending. */
  ghost predicate Midway(
    v: Vault, h: Header, file: Bytes, start: nat, end: nat, at: nat, index: nat, pending: Bytes, output: Bytes)
    requires Wanted(h, start, end)
  {
    var span := EncryptedSpan(h, start, end).value;
    && span.firstChunk <= index <= span.lastChunk + 1
    && RegionStart(h, index) <= at <= span.storedEnd + 1
    && at <= |file|
    && pending == file[RegionStart(h, index)..at]
    && ReadRange(v, h, file, start, end)
       == After(output, Decode(v, h, file, index, span.lastChunk, start, end))
  }

  lemma {:induction false} SpanIsRegions(h: Header, start: nat, end: nat)
    requires Wanted(h, start, end)
    ensures var span := EncryptedSpan(h, start, end).value;
            && RegionStart(h, span.firstChunk) == span.storedStart
            && RegionStart(h, span.lastChunk + 1) == span.storedEnd + 1
            && span.storedStart <= span.storedEnd
  {
    var span := EncryptedSpan(h, start, end).value;
    ChunkRegionsTile(h, span.lastChunk);
    RegionsIncrease(h, span.firstChunk, span.lastChunk + 1);
  }

  lemma {:induction false} RegionsIncrease(h: Header, i: nat, j: nat)
    requires h.Valid() && i <= j <= h.ChunkCount()
    ensures RegionStart(h, i) + j - i <= RegionStart(h, j)
    decreases j - i
  {
    if i < j {
      RegionStep(h, i);
      hide RegionStart;
      RegionsIncrease(h, i + 1, j);
    }
  }

  lemma {:induction false} MidwayStarts(v: Vault, h: Header, file: Bytes, start: nat, end: nat)
    requires Wanted(h, start, end)
    requires EncryptedSpan(h, start, end).value.storedStart <= |file|
    ensures Midway(v, h, file, start, end, EncryptedSpan(h, start, end).value.storedStart,
                   EncryptedSpan(h, start, end).value.firstChunk, [], [])
  {
    hide Decode, EncryptedSpan;
    SpanIsRegions(h, start, end);
  }

  lemma {:induction false} MidwayAccepts(
    v: Vault, h: Header, file: Bytes, start: nat, end: nat, at: nat, index: nat, pending: Bytes, output: Bytes,
    accepted: Bytes)
    requires Wanted(h, start, end)
    requires Midway(v, h, file, start, end, at, index, pending, output)
    requires at + |accepted| <= |file| && file[at..at + |accepted|] == accepted
    requires at + |accepted| <= EncryptedSpan(h, start, end).value.storedEnd + 1
    ensures Midway(v, h, file, start, end, at + |accepted|, index, pending + accepted, output)
  {
    hide Decode, EncryptedSpan, RegionStart, ReadRange, Header.Valid;
  }

  lemma {:induction false} MidwayOpens(
    v: Vault, h: Header, file: Bytes, start: nat, end: nat, at: nat, index: nat, pending: Bytes, output: Bytes)
    requires Wanted(h, start, end)
    requires Midway(v, h, file, start, end, at, index, pending, output)
    requires index <= EncryptedSpan(h, start, end).value.lastChunk
    requires |pending| >= StoredChunkSize(h, index)
    ensures var size := StoredChunkSize(h, index);
            match DecryptChunk(v, h, index, pending[..size])
            case Failure(_) => ReadRange(v, h, file, start, end) == Reading(output, ChunkRejected)
            case Success(plain) =>
              Midway(v, h, file, start, end, at, index + 1, pending[size..],
                     output + Cut(h, index, plain, start, end))
  {
    hide EncryptedSpan, ReadRange, DecryptChunk, Cut;
    var size := StoredChunkSize(h, index);
    RegionStep(h, index);
    assert RegionStart(h, index) == ChunkOffset(h, index);
    assert pending[..size] == Region(h, file, index);
    SpanIsRegions(h, start, end);
    RegionsIncrease(h, index + 1, EncryptedSpan(h, start, end).value.lastChunk + 1);
    assert pending[size..] == file[RegionStart(h, index + 1)..at];
  }

  /** When the body has been taken in, what is still missing decides the outcome. */
  lemma {:induction false} MidwayEnds(
    v: Vault, h: Header, file: Bytes, start: nat, end: nat, at: nat, index: nat, pending: Bytes, output: Bytes)
    requires Wanted(h, start, end)
    requires Midway(v, h, file, start, end, at, index, pending, output)
    requires var span := EncryptedSpan(h, start, end).value;
             index <= span.lastChunk ==> |pending| < StoredChunkSize(h, index)
    ensures var span := EncryptedSpan(h, start, end).value;
            && (at == span.storedEnd + 1 ==>
                  && index == span.lastChunk + 1
                  && pending == []
                  && ReadRange(v, h, file, start, end) == Reading(output, Complete))
            && (at == |file| <= span.storedEnd ==>
                  ReadRange(v, h, file, start, end) == Reading(output, Truncated))
  {
    hide EncryptedSpan, ReadRange, DecryptChunk, Cut;
    var span := EncryptedSpan(h, start, end).value;
    SpanIsRegions(h, start, end);
    RegionsIncrease(h, index, span.lastChunk + 1);
    if index <= span.lastChunk {
      RegionStep(h, index);
      RegionsIncrease(h, index + 1, span.lastChunk + 1);
      assert RegionStart(h, index) == ChunkOffset(h, index);
    }
    assert output + [] == output;
  }

  ghost function SpanOf(h: Header, start: nat, end: nat): Span
    requires Wanted(h, start, end)
  {
    EncryptedSpan(h, start, end).value
  }

  ghost function BodyFile(h: Header, sources: seq<Bytes>, whole: bool, start: nat, end: nat): Bytes
    requires Wanted(h, start, end)
  {
    FileBehind(Joined(sources), whole, SpanOf(h, start, end).storedStart)
  }

  /** Where piece i of the body starts in the file. */
  ghost function PieceStart(h: Header, sources: seq<Bytes>, i: nat, whole: bool, start: nat, end: nat): nat
    requires Wanted(h, start, end) && i <= |sources|
  {
    (if whole then 0 else SpanOf(h, start, end).storedStart) + BytesIn(sources, i)
  }

  /** Before piece i: either bytes ahead of the span are still being skipped, or all bytes up
      to piece i have been accepted and every chunk that is complete has been handed out. */
  ghost predicate Underway(
    v: Vault, h: Header, sources: seq<Bytes>, i: nat, whole: bool, start: nat, end: nat,
    skip: nat, remaining: nat, index: nat, pending: Bytes, output: Bytes)
    requires Wanted(h, start, end) && i <= |sources|
  {
    var span, at := SpanOf(h, start, end), PieceStart(h, sources, i, whole, start, end);
    if skip > 0 then
      && at + skip == span.storedStart
      && remaining == span.storedEnd + 1 - span.storedStart
      && index == span.firstChunk && pending == [] && output == []
    else
      && at + remaining == span.storedEnd + 1
      && remaining > 0
      && Midway(v, h, BodyFile(h, sources, whole, start, end), start, end, at, index, pending, output)
      && (index <= span.lastChunk ==> |pending| < StoredChunkSize(h, index))
  }

  lemma {:induction false} WantedSpan(h: Header, start: nat, end: nat)
    requires Wanted(h, start, end)
    ensures h.Valid() && EncryptedSpan(h, start, end) == Success(SpanOf(h, start, end))
    ensures SpanOf(h, start, end).storedStart <= SpanOf(h, start, end).storedEnd
    ensures Joined([]) == []
  {
    SpanIsRegions(h, start, end);
  }

  lemma {:induction false} UnderwayStarts(
    v: Vault, h: Header, sources: seq<Bytes>, whole: bool, start: nat, end: nat, skip: nat, remaining: nat)
    requires Wanted(h, start, end)
    requires skip == (if whole then SpanOf(h, start, end).storedStart else 0)
    requires remaining == SpanOf(h, start, end).storedEnd + 1 - SpanOf(h, start, end).storedStart
    ensures Underway(v, h, sources, 0, whole, start, end,
                     skip, remaining, SpanOf(h, start, end).firstChunk, [], [])
  {
    hide Decode, EncryptedSpan, Midway;
    SpanIsRegions(h, start, end);
    ReceivedNone(sources);
    var span := SpanOf(h, start, end);
    assert span.storedStart > 0 by { SpanStartsAfterHeader(h, start, end); }
    if !whole { MidwayStarts(v, h, BodyFile(h, sources, whole, start, end), start, end); }
  }

  lemma {:induction false} SpanStartsAfterHeader(h: Header, start: nat, end: nat)
    requires Wanted(h, start, end)
    ensures SpanOf(h, start, end).storedStart >= HEADER_BYTES
  {
  }

  /** The part of a piece that is not skipped continues the file where accepting stopped. */
  lemma {:induction false} UnderwayTakes(
    v: Vault, h: Header, sources: seq<Bytes>, i: nat, whole: bool, start: nat, end: nat,
    skip: nat, remaining: nat, index: nat, pending: Bytes, output: Bytes)
    requires Wanted(h, start, end) && i < |sources|
    requires Underway(v, h, sources, i, whole, start, end, skip, remaining, index, pending, output)
    requires skip < |sources[i]| || skip == 0
    ensures var file := BodyFile(h, sources, whole, start, end);
            var at := PieceStart(h, sources, i, whole, start, end) + skip;
            var rest := sources[i][skip..];
            && at + |rest| == PieceStart(h, sources, i + 1, whole, start, end) <= |file|
            && file[at..at + |rest|] == rest
            && at + remaining == SpanOf(h, start, end).storedEnd + 1
            && Midway(v, h, file, start, end, at, index, pending, output)
  {
    hide Decode, EncryptedSpan, Midway, Joined, BytesIn;
    PieceOfFile(sources, i, whole, SpanOf(h, start, end).storedStart);
    SpanIsRegions(h, start, end);
    if skip > 0 { MidwayStarts(v, h, BodyFile(h, sources, whole, start, end), start, end); }
  }

  lemma {:induction false} PrefixOfSlice(file: Bytes, at: nat, source: Bytes, accepted: Bytes)
    requires at + |source| <= |file| && file[at..at + |source|] == source
    requires |accepted| <= |source| && accepted == source[..|accepted|]
    ensures file[at..at + |accepted|] == accepted
  {
    assert file[at..at + |source|][..|accepted|] == file[at..at + |accepted|];
  }

  /** Taking the first `count` of those bytes, no more than remain, keeps the reader on course. */
  lemma {:induction false} UnderwayAccepts(
    v: Vault, h: Header, sources: seq<Bytes>, i: nat, whole: bool, start: nat, end: nat,
    skip: nat, remaining: nat, index: nat, pending: Bytes, output: Bytes, count: nat)
    requires Wanted(h, start, end) && i < |sources|
    requires Underway(v, h, sources, i, whole, start, end, skip, remaining, index, pending, output)
    requires skip < |sources[i]| || skip == 0
    requires count <= |sources[i]| - skip && count <= remaining
    ensures var at := PieceStart(h, sources, i, whole, start, end) + skip;
            && at + remaining == SpanOf(h, start, end).storedEnd + 1
            && at + |sources[i]| - skip == PieceStart(h, sources, i + 1, whole, start, end)
            && Midway(v, h, BodyFile(h, sources, whole, start, end), start, end, at + count, index,
                      pending + sources[i][skip..][..count], output)
  {
    hide *;
    WantedSpan(h, start, end);
    UnderwayTakes(v, h, sources, i, whole, start, end, skip, remaining, index, pending, output);
    var file := BodyFile(h, sources, whole, start, end);
    var at: nat := PieceStart(h, sources, i, whole, start, end) + skip;
    var rest := sources[i][skip..];
    PrefixOfSlice(file, at, rest, rest[..count]);
    MidwayAccepts(v, h, file, start, end, at, index, pending, output, rest[..count]);
  }

  lemma {:induction false} UnderwaySkips(
    v: Vault, h: Header, sources: seq<Bytes>, i: nat, whole: bool, start: nat, end: nat,
    skip: nat, remaining: nat, index: nat, pending: Bytes, output: Bytes)
    requires Wanted(h, start, end) && i < |sources|
    requires Underway(v, h, sources, i, whole, start, end, skip, remaining, index, pending, output)
    requires 0 < skip && |sources[i]| <= skip
    ensures Underway(v, h, sources, i + 1, whole, start, end, skip - |sources[i]|, remaining, index, pending, output)
  {
    hide Decode, EncryptedSpan, Midway, Joined, BytesIn;
    PieceOfFile(sources, i, whole, SpanOf(h, start, end).storedStart);
    SpanIsRegions(h, start, end);
    SpanStartsAfterHeader(h, start, end);
    if skip == |sources[i]| {
      MidwayStarts(v, h, BodyFile(h, sources, whole, start, end), start, end);
    }
  }

  lemma {:induction false} UnderwayRunsOut(
    v: Vault, h: Header, sources: seq<Bytes>, whole: bool, start: nat, end: nat,
    skip: nat, remaining: nat, index: nat, pending: Bytes, output: Bytes)
    requires Wanted(h, start, end)
    requires Underway(v, h, sources, |sources|, whole, start, end, skip, remaining, index, pending, output)
    ensures ReadRange(v, h, BodyFile(h, sources, whole, start, end), start, end) == Reading(output, Truncated)
  {
    ReceivedAll(sources);
    var file := BodyFile(h, sources, whole, start, end);
    if skip > 0 {
      SpanIsRegions(h, start, end);
      hide Joined, DecryptChunk;
    } else {
      hide EncryptedSpan, ReadRange, Decode, Midway;
      var at := PieceStart(h, sources, |sources|, whole, start, end);
      MidwayEnds(v, h, file, start, end, at, index, pending, output);
    }
  }

  /** Decrypts a response body that arrives in any pieces. `dropped` says that the connection
      fails after the last piece instead of closing. What comes out depends on the joined body
      alone. */
  method DecryptRemoteRange(
    v: Vault, h: Header, sources: seq<Bytes>, whole: bool, dropped: bool, plainStart: nat, plainEnd: nat)
    returns (pieces: seq<Bytes>, verdict: Verdict)
    requires Wanted(h, plainStart, plainEnd)
    ensures var owed := ReadRange(v, h, BodyFile(h, sources, whole, plainStart, plainEnd), plainStart, plainEnd);
            && Joined(pieces) == owed.output
            && verdict == if owed.verdict == Truncated && dropped then Dropped else owed.verdict
  {
    hide *;
    WantedSpan(h, plainStart, plainEnd);
    var span := EncryptedSpan(h, plainStart, plainEnd).value;
    var sourceSkip: nat := if whole then span.storedStart else 0;
    var remaining: nat := span.storedEnd + 1 - span.storedStart;
    var pending: Bytes := [];
    var chunkIndex: nat := span.firstChunk;
    pieces := [];
    UnderwayStarts(v, h, sources, whole, plainStart, plainEnd, sourceSkip, remaining);
    ghost var file := BodyFile(h, sources, whole, plainStart, plainEnd);
    for i := 0 to |sources|
      invariant Underway(v, h, sources, i, whole, plainStart, plainEnd,
                         sourceSkip, remaining, chunkIndex, pending, Joined(pieces))
    {
      var source := sources[i];
      ghost var skipBefore := sourceSkip;
      if sourceSkip > 0 {
        var skipped := if sourceSkip <= |source| then sourceSkip else |source|;
        sourceSkip := sourceSkip - skipped;
        source := source[skipped..];
        if source == [] {
          UnderwaySkips(v, h, sources, i, whole, plainStart, plainEnd,
                        skipBefore, remaining, chunkIndex, pending, Joined(pieces));
          continue;
        }
      }
      var accepted := source[..if remaining < |source| then remaining else |source|];
      ghost var at := PieceStart(h, sources, i, whole, plainStart, plainEnd) + skipBefore + |accepted|;
      UnderwayAccepts(v, h, sources, i, whole, plainStart, plainEnd,
                      skipBefore, remaining, chunkIndex, pending, Joined(pieces), |accepted|);
      pending := pending + accepted;
      remaining := remaining - |accepted|;
      var rejected: bool;
      chunkIndex, pending, pieces, rejected :=
        OpenReadyChunks(v, h, file, at, span, plainStart, plainEnd, chunkIndex, pending, pieces);
      if rejected {
        verdict := ChunkRejected;
        return;
      }
      if remaining == 0 {
        MidwayEnds(v, h, file, plainStart, plainEnd, at, chunkIndex, pending, Joined(pieces));
        // CamVault checks here that nothing is missing or left over; nothing can be.
        assert sourceSkip == 0 && pending == [] && chunkIndex == span.lastChunk + 1;
        verdict := Complete;
        return;
      }
      UnderwayContinues(v, h, sources, i, whole, plainStart, plainEnd,
                        remaining, chunkIndex, pending, Joined(pieces));
    }
    UnderwayRunsOut(v, h, sources, whole, plainStart, plainEnd,
                    sourceSkip, remaining, chunkIndex, pending, Joined(pieces));
    verdict := if dropped then Dropped else Truncated;
  }

  lemma {:induction false} UnderwayContinues(
    v: Vault, h: Header, sources: seq<Bytes>, i: nat, whole: bool, start: nat, end: nat,
    remaining: nat, index: nat, pending: Bytes, output: Bytes)
    requires Wanted(h, start, end) && i < |sources|
    requires var span, at := SpanOf(h, start, end), PieceStart(h, sources, i + 1, whole, start, end);
             && at + remaining == span.storedEnd + 1
             && remaining > 0
             && Midway(v, h, BodyFile(h, sources, whole, start, end), start, end, at, index, pending, output)
             && (index <= span.lastChunk ==> |pending| < StoredChunkSize(h, index))
    ensures Underway(v, h, sources, i + 1, whole, start, end, 0, remaining, index, pending, output)
  {
  }

  lemma {:induction false} PieceOfFile(sources: seq<Bytes>, i: nat, whole: bool, storedStart: nat)
    requires i < |sources|
    ensures var lead := if whole then 0 else storedStart;
            var file := FileBehind(Joined(sources), whole, storedStart);
            && |file| == lead + |Joined(sources)|
            && BytesIn(sources, i) + |sources[i]| == BytesIn(sources, i + 1) <= |Joined(sources)|
            && file[lead + BytesIn(sources, i)..lead + BytesIn(sources, i + 1)] == sources[i]
  {
    hide Joined;
    Received(sources, i);
    var lead := if whole then 0 else storedStart;
    var file := FileBehind(Joined(sources), whole, storedStart);
    assert file[lead..] == Joined(sources);
  }

  lemma {:induction false} MidwayIndex(
    v: Vault, h: Header, file: Bytes, start: nat, end: nat, at: nat, index: nat, pending: Bytes, output: Bytes)
    requires Wanted(h, start, end)
    requires Midway(v, h, file, start, end, at, index, pending, output)
    ensures h.Valid()
    ensures index <= EncryptedSpan(h, start, end).value.lastChunk + 1 <= h.ChunkCount()
  {
    hide Decode, ReadRange;
  }

  /** The inner loop of the reader: hand out every chunk that has fully arrived. */
  method OpenReadyChunks(
    v: Vault, h: Header, ghost file: Bytes, ghost at: nat, span: Span, start: nat, end: nat,
    first: nat, held: Bytes, sent: seq<Bytes>)
    returns (index: nat, pending: Bytes, pieces: seq<Bytes>, rejected: bool)
    requires Wanted(h, start, end) && EncryptedSpan(h, start, end) == Success(span)
    requires Midway(v, h, file, start, end, at, first, held, Joined(sent))
    ensures rejected ==> ReadRange(v, h, file, start, end) == Reading(Joined(pieces), ChunkRejected)
    ensures !rejected ==>
              && Midway(v, h, file, start, end, at, index, pending, Joined(pieces))
              && (index <= span.lastChunk ==> |pending| < StoredChunkSize(h, index))
  {
    hide *;
    MidwayIndex(v, h, file, start, end, at, first, held, Joined(sent));
    index, pending, pieces, rejected := first, held, sent, false;
    while index <= span.lastChunk
      invariant index <= span.lastChunk + 1
      invariant Midway(v, h, file, start, end, at, index, pending, Joined(pieces))
    {
      HasEarlierChunk(h, index, span.lastChunk);
      var cipherSize := StoredChunkSize(h, index);
      if |pending| < cipherSize {
        break;
      }
      var encryptedChunk := pending[..cipherSize];
      MidwayOpens(v, h, file, start, end, at, index, pending, Joined(pieces));
      var opened' := DecryptChunk(v, h, index, encryptedChunk);
      if opened'.Failure? {
        rejected := true;
        return;
      }
      pending := pending[cipherSize..];
      var selected := Cut(h, index, opened'.value, start, end);
      if selected != [] {
        JoinedLast(pieces + [selected], pieces, selected);
        pieces := pieces + [selected];
      } else {
        assert Joined(pieces) + selected == Joined(pieces);
      }
      index := index + 1;
    }
  }

  // ---- The local reader ---------------------------------------------------

  /** What a read of `count` bytes at `offset` returns: fewer at the end of the file. */
  function ReadAt(file: Bytes, offset: nat, count: nat): Bytes {
    if offset >= |file| then [] else file[offset..Min(offset + count, |file|)]
  }

  /** Decrypts a range of an outbox file. For any file content, damaged or cut short, it hands
      out what the remote reader hands out for the same content, and fails when that fails. */
  method LocalRead(v: Vault, h: Header, file: Bytes, start: nat, end: nat)
    returns (pieces: seq<Bytes>, verdict: Verdict)
    requires Wanted(h, start, end)
    ensures Reading(Joined(pieces), verdict) == ReadRange(v, h, file, start, end)
  {
    hide *;
    DecodeStart(v, h, file, start, end);
    var span := EncryptedSpan(h, start, end).value;
    pieces := [];
    ghost var owed := ReadRange(v, h, file, start, end);
    for index := span.firstChunk to span.lastChunk + 1
      invariant owed == After(Joined(pieces), Decode(v, h, file, index, span.lastChunk, start, end))
    {
      HasEarlierChunk(h, index, span.lastChunk);
      DecodeStep(v, h, file, index, span.lastChunk, start, end, Joined(pieces));
      var cipher := ReadAt(file, ChunkOffset(h, index), StoredChunkSize(h, index));
      if |cipher| != StoredChunkSize(h, index) {
        verdict := Truncated;
        return;
      }
      var plain := DecryptChunk(v, h, index, cipher);
      if plain.Failure? {
        verdict := ChunkRejected;
        return;
      }
      var selected := Cut(h, index, plain.value, start, end);
      JoinedLast(pieces + [selected], pieces, selected);
      pieces := pieces + [selected];
    }
    DecodeEnd(v, h, file, span.lastChunk, start, end, Joined(pieces));
    verdict := Complete;
  }

  const READ_SIZE := 128 * 1024

  /** Copies a range of an unencrypted outbox file. A read may return fewer bytes than it was asked
      for, but none only at the end of the file. */
  method LocalPlainRead(file: Bytes, start: nat, end: nat) returns (pieces: seq<Bytes>, verdict: Verdict)
    requires start <= end
    ensures Joined(pieces) <= file[Min(start, |file|)..]
    ensures end < |file| ==> Joined(pieces) == file[start..end + 1] && verdict == Complete
    ensures |file| <= end ==> Joined(pieces) == file[Min(start, |file|)..] && verdict == Truncated
  {
    hide Joined;
    pieces := [];
    assert Joined([]) == [] by { JoinedNone(); }
    var position: nat, remaining: nat := start, end - start + 1;
    while remaining > 0
      invariant start <= position && position + remaining == end + 1
      invariant position > start ==> position <= |file|
      invariant Joined(pieces) == if position == start then [] else file[start..position]
    {
      var wanted := Min(READ_SIZE, remaining);
      var got: nat := if position >= |file| then 0 else Min(wanted, |file| - position);
      if got > 1 {
        got :| 1 <= got <= Min(wanted, |file| - position);
      }
      if got == 0 {
        return pieces, Truncated;
      }
      var chunk := file[position..position + got];
      JoinedLast(pieces + [chunk], pieces, chunk);
      if position > start {
        SlicesJoin(file, start, position, position + got);
      }
      pieces := pieces + [chunk];
      position, remaining := position + got, remaining - got;
    }
    verdict := Complete;
  }

  lemma {:induction false} JoinedNone()
    ensures Joined([]) == []
  {
  }

  lemma {:induction false} HasEarlierChunk(h: Header, index: nat, last: nat)
    requires h.Valid() && index <= last < h.ChunkCount()
    ensures h.chunkSize > 0 && HasChunk(h, index)
  {
  }

  lemma {:induction false} DecodeStart(v: Vault, h: Header, file: Bytes, start: nat, end: nat)
    requires Wanted(h, start, end)
    ensures h.Valid() && EncryptedSpan(h, start, end).Success?
    ensures var span := EncryptedSpan(h, start, end).value;
            && span.firstChunk <= span.lastChunk < h.ChunkCount()
            && ReadRange(v, h, file, start, end)
               == After(Joined([]), Decode(v, h, file, span.firstChunk, span.lastChunk, start, end))
  {
    hide Decode, EncryptedSpan;
  }

  lemma {:induction false} DecodeStep(
    v: Vault, h: Header, file: Bytes, index: nat, last: nat, start: nat, end: nat, output: Bytes)
    requires h.Valid() && index <= last < h.ChunkCount()
    ensures var cipher := ReadAt(file, ChunkOffset(h, index), StoredChunkSize(h, index));
            var whole := After(output, Decode(v, h, file, index, last, start, end));
            if |cipher| != StoredChunkSize(h, index) then whole == Reading(output, Truncated)
            else if DecryptChunk(v, h, index, cipher).Failure? then whole == Reading(output, ChunkRejected)
            else whole == After(output + Cut(h, index, DecryptChunk(v, h, index, cipher).value, start, end),
                                Decode(v, h, file, index + 1, last, start, end))
  {
    hide DecryptChunk, Cut, PlainChunkSize, ChunksIn;
    var cipher := ReadAt(file, ChunkOffset(h, index), StoredChunkSize(h, index));
    if |cipher| == StoredChunkSize(h, index) { assert cipher == Region(h, file, index); }
    assert output + [] == output;
  }

  lemma {:induction false} DecodeEnd(v: Vault, h: Header, file: Bytes, last: nat, start: nat, end: nat, output: Bytes)
    requires h.Valid() && last < h.ChunkCount()
    ensures After(output, Decode(v, h, file, last + 1, last, start, end)) == Reading(output, Complete)
  {
    hide ChunksIn;
    assert output + [] == output;
  }

  // ---- What a reading means -----------------------------------------------

  /** Wherever `file` has bytes inside the span, they are the stored file's. */
  ghost predicate MatchesStored(v: Vault, h: Header, data: Bytes, file: Bytes, from: nat, to: nat)
    requires h.Valid() && |data| == h.plaintextSize
  {
    var stored := StoredFile(v, h, data);
    to <= |stored| && forall p :: from <= p < to && p < |file| ==> file[p] == stored[p]
  }

  /** The plaintext from position p to the end of the range. */
  function Tail(data: Bytes, p: nat, end: nat): Bytes
    requires end < |data|
  {
    if p <= end then data[p..end + 1] else []
  }

  lemma {:induction false} CutAtIsSlice(data: Bytes, offset: nat, size: nat, start: nat, end: nat)
    requires offset <= end < |data| && start <= end && size > 0 && start < offset + size
    ensures CutAt(offset, data[offset..Min(offset + size, |data|)], start, end) + Tail(data, offset + size, end)
         == Tail(data, Max(offset, start), end)
  {
    hide CutAt;
    var low: nat, next: nat := Max(offset, start), offset + size;
    if next <= end {
      CutIs(data, offset, next, start, end, next);
      SlicesJoin(data, low, next, end + 1);
    } else {
      CutIs(data, offset, Min(next, |data|), start, end, end + 1);
      assert Tail(data, next, end) == [];
    }
  }

  /** The part of the block from `offset` to `next` that is wanted, as a slice of the plaintext. */
  lemma {:induction false} CutIs(data: Bytes, offset: nat, next: nat, start: nat, end: nat, to: nat)
    requires offset <= end < |data| && start <= end && start < next && offset < next <= |data|
    requires to == Min(next, end + 1)
    ensures CutAt(offset, data[offset..next], start, end) == data[Max(offset, start)..to]
  {
    var from := if start <= offset then 0 else start - offset;
    SliceOfSlice(data, offset, next, from, to - offset);
  }

  lemma {:induction false} SliceOfSlice(data: Bytes, low: nat, high: nat, i: nat, j: nat)
    requires low <= high <= |data| && i <= j <= high - low
    ensures data[low..high][i..j] == data[low + i..low + j]
  {
    var slice, direct := data[low..high][i..j], data[low + i..low + j];
    assert forall k :: 0 <= k < j - i ==> slice[k] == data[low..high][i + k] == data[low + i + k] == direct[k];
  }

  lemma {:induction false} SlicesJoin(data: Bytes, a: nat, b: nat, c: nat)
    requires a <= b <= c <= |data|
    ensures data[a..b] + data[b..c] == data[a..c]
  {
  }

  /** Chunk by chunk, a reading of genuine bytes is the wanted slice, or the start of it. */
  lemma {:induction false} DecodeIsSlice(
    v: Vault, h: Header, data: Bytes, file: Bytes, last: nat, index: nat, offset: nat, start: nat, end: nat)
    requires Wanted(h, start, end) && |data| == h.plaintextSize
    requires index <= last + 1 <= h.ChunkCount() && offset == index * h.chunkSize
    requires last * h.chunkSize <= end < last * h.chunkSize + h.chunkSize
    requires index <= last ==> start < offset + h.chunkSize
    requires MatchesStored(v, h, data, file, RegionStart(h, index), RegionStart(h, last + 1))
    ensures var r := Decode(v, h, file, index, last, start, end);
            var wanted := Tail(data, Max(offset, start), end);
            && r.output <= wanted
            && (RegionStart(h, last + 1) <= |file| ==> r == Reading(wanted, Complete))
            && (index <= last && |file| < RegionStart(h, last + 1) ==> r.verdict == Truncated)
    decreases last + 1 - index
  {
    hide EncryptedSpan, DecryptChunk, CutAt, Block, Tail, StoredFile, PlainChunkSize, ChunksIn, Header.Valid;
    NextOffset(index, h.chunkSize);
    if index <= last {
      HasEarlierChunk(h, index, last);
      RegionStep(h, index);
      RegionsIncrease(h, index + 1, last + 1);
      assert RegionStart(h, index) == ChunkOffset(h, index);
      MulMonotone(index, last, h.chunkSize);
      if RegionStart(h, index + 1) <= |file| {
        GenuineRegion(v, h, data, file, index);
        if index < last { MulMonotone(index + 1, last, h.chunkSize); }
        DecodeIsSlice(v, h, data, file, last, index + 1, offset + h.chunkSize, start, end);
        BlockIsSlice(data, index, offset, h.chunkSize);
        CutAtIsSlice(data, offset, h.chunkSize, start, end);
      }
    } else {
      NothingAfter(data, offset, start, end);
    }
  }

  lemma {:induction false} BlockIsSlice(data: Bytes, index: nat, offset: nat, chunkSize: nat)
    requires offset == index * chunkSize <= |data|
    ensures Block(data, chunkSize, index) == data[offset..Min(offset + chunkSize, |data|)]
  {
  }

  lemma {:induction false} NothingAfter(data: Bytes, offset: nat, start: nat, end: nat)
    requires end < |data| && end < offset
    ensures Tail(data, Max(offset, start), end) == []
  {
  }

  lemma {:induction false} GenuineRegion(v: Vault, h: Header, data: Bytes, file: Bytes, index: nat)
    requires h.Valid() && |data| == h.plaintextSize && HasChunk(h, index)
    requires MatchesStored(v, h, data, file, RegionStart(h, index), RegionStart(h, index + 1))
    requires RegionStart(h, index + 1) <= |file|
    ensures index * h.chunkSize <= |data|
    ensures ChunkOffset(h, index) + StoredChunkSize(h, index) == RegionStart(h, index + 1)
    ensures DecryptChunk(v, h, index, Region(h, file, index)) == Success(Block(data, h.chunkSize, index))
  {
    hide StoredFile, DecryptChunk, PlainChunkSize, Block, ChunksIn;
    StoredChunk(v, h, data, index);
    RegionStep(h, index);
    assert RegionStart(h, index) == ChunkOffset(h, index);
    SameSlice(file, StoredFile(v, h, data), RegionStart(h, index), RegionStart(h, index + 1));
  }

  /** For genuine bytes, every reading is a prefix of the wanted slice; it is the whole slice
      exactly when no stored byte of the span is missing, and an error otherwise. */
  lemma {:induction false} ReadRangeIsSlice(v: Vault, h: Header, data: Bytes, file: Bytes, start: nat, end: nat)
    requires Wanted(h, start, end) && |data| == h.plaintextSize
    requires MatchesStored(v, h, data, file, SpanOf(h, start, end).storedStart, SpanOf(h, start, end).storedEnd + 1)
    ensures var r := ReadRange(v, h, file, start, end);
            && r.output <= data[start..end + 1]
            && (SpanOf(h, start, end).storedEnd < |file| ==> r == Reading(data[start..end + 1], Complete))
            && (|file| <= SpanOf(h, start, end).storedEnd ==> r.verdict == Truncated)
  {
    hide *;
    RangeGeometry(h, start, end);
    WholeTail(data, start, end);
    ReadRangeIs(v, h, file, start, end);
    var span := SpanOf(h, start, end);
    DecodeIsSlice(v, h, data, file, span.lastChunk, span.firstChunk, span.firstChunk * h.chunkSize, start, end);
  }

  lemma {:induction false} ReadRangeIs(v: Vault, h: Header, file: Bytes, start: nat, end: nat)
    requires Wanted(h, start, end)
    ensures h.Valid() && SpanOf(h, start, end).lastChunk < h.ChunkCount()
    ensures ReadRange(v, h, file, start, end)
         == Decode(v, h, file, SpanOf(h, start, end).firstChunk, SpanOf(h, start, end).lastChunk, start, end)
  {
    hide Decode, EncryptedSpan;
  }

  lemma {:induction false} WholeTail(data: Bytes, start: nat, end: nat)
    requires start <= end < |data|
    ensures Tail(data, start, end) == data[start..end + 1]
  {
  }

  lemma {:induction false} RangeGeometry(h: Header, start: nat, end: nat)
    requires Wanted(h, start, end)
    ensures start <= end < h.plaintextSize && h.chunkSize > 0
    ensures var span := SpanOf(h, start, end);
            && span.firstChunk <= span.lastChunk < h.ChunkCount()
            && span.lastChunk * h.chunkSize <= end < span.lastChunk * h.chunkSize + h.chunkSize
            && start < span.firstChunk * h.chunkSize + h.chunkSize
            && Max(span.firstChunk * h.chunkSize, start) == start
            && RegionStart(h, span.firstChunk) == span.storedStart
            && RegionStart(h, span.lastChunk + 1) == span.storedEnd + 1
  {
    hide EncryptedSpan, RegionStart, ChunksIn;
    SpanIsRegions(h, start, end);
    var span := SpanOf(h, start, end);
    WantedSpan(h, start, end);
    NextOffset(span.firstChunk, h.chunkSize);
    NextOffset(span.lastChunk, h.chunkSize);
  }

  /** Two files with the same bytes in the span, and cut off at the same point if inside it. */
  ghost predicate SameInside(f: Bytes, g: Bytes, from: nat, to: nat) {
    && Min(|f|, to) == Min(|g|, to)
    && forall p :: from <= p < to && p < |f| ==> f[p] == g[p]
  }

  lemma {:induction false} SameSlice(f: Bytes, g: Bytes, low: nat, high: nat)
    requires low <= high <= |f| && high <= |g|
    requires forall p :: low <= p < high ==> f[p] == g[p]
    ensures f[low..high] == g[low..high]
  {
  }

  lemma {:induction false} DecodeDependsOnSpan(
    v: Vault, h: Header, f: Bytes, g: Bytes, index: nat, last: nat, start: nat, end: nat)
    requires h.Valid() && index <= last + 1 <= h.ChunkCount()
    requires SameInside(f, g, RegionStart(h, index), RegionStart(h, last + 1))
    ensures Decode(v, h, f, index, last, start, end) == Decode(v, h, g, index, last, start, end)
    decreases last + 1 - index
  {
    hide DecryptChunk, Cut, PlainChunkSize, ChunksIn, Header.Valid;
    if index <= last {
      HasEarlierChunk(h, index, last);
      RegionStep(h, index);
      RegionsIncrease(h, index + 1, last + 1);
      assert RegionStart(h, index) == ChunkOffset(h, index);
      if RegionStart(h, index + 1) <= |f| {
        SameSlice(f, g, RegionStart(h, index), RegionStart(h, index + 1));
        DecodeDependsOnSpan(v, h, f, g, index + 1, last, start, end);
      }
    }
  }

  /** The local reader and the remote one agree on any content, damaged or cut short: reading
      the file directly, as a 200 body, or as the 206 body that a server cuts out of it. */
  lemma {:induction false} PartialResponseIsEnough(v: Vault, h: Header, file: Bytes, start: nat, end: nat)
    requires Wanted(h, start, end) && SpanOf(h, start, end).storedStart <= |file|
    ensures var span := SpanOf(h, start, end);
            && span.storedStart <= Min(span.storedEnd + 1, |file|)
            && var body := file[span.storedStart..Min(span.storedEnd + 1, |file|)];
               ReadRange(v, h, file, start, end)
               == ReadRange(v, h, FileBehind(body, false, span.storedStart), start, end)
  {
    hide Decode, ChunksIn;
    var span := SpanOf(h, start, end);
    SpanIsRegions(h, start, end);
    var body := file[span.storedStart..Min(span.storedEnd + 1, |file|)];
    DecodeDependsOnSpan(v, h, file, FileBehind(body, false, span.storedStart), span.firstChunk, span.lastChunk,
          start, end);
  }

  /** The bytes at chunk `index` were sealed as that chunk, under this header and this path. */
  ghost predicate Authentic(v: Vault, h: Header, file: Bytes, index: nat)
    requires h.Valid()
  {
    && HasChunk(h, index)
    && ChunkOffset(h, index) + StoredChunkSize(h, index) <= |file|
    && exists plain: Bytes ::
         |plain| == PlainChunkSize(h, index) && SealChunk(v, h, index, plain) == Region(h, file, index)
  }

  lemma {:induction false} CompleteChunks(
    v: Vault, h: Header, file: Bytes, last: nat, index: nat, start: nat, end: nat)
    requires h.Valid() && last < h.ChunkCount()
    requires Decode(v, h, file, index, last, start, end).verdict == Complete
    ensures forall i :: index <= i <= last ==> Authentic(v, h, file, i)
    decreases last + 1 - index
  {
    hide DecryptChunk, SealChunk, ChunksIn, Authentic, Cut, PlainChunkSize;
    if index <= last {
      OpenedIsAuthentic(v, h, file, index);
      CompleteChunks(v, h, file, last, index + 1, start, end);
    }
  }

  lemma {:induction false} CompleteLength(
    v: Vault, h: Header, file: Bytes, last: nat, index: nat, offset: nat, start: nat, end: nat)
    requires Wanted(h, start, end) && index <= last < h.ChunkCount() && offset == index * h.chunkSize
    requires last * h.chunkSize <= end < last * h.chunkSize + h.chunkSize
    requires start < offset + h.chunkSize
    requires Decode(v, h, file, index, last, start, end).verdict == Complete
    ensures |Decode(v, h, file, index, last, start, end).output| + Max(offset, start) == end + 1
    decreases last - index
  {
    hide DecryptChunk, SealChunk, ChunksIn, Authentic, CutAt, PlainChunkSize, Header.Valid;
    OpenedIsAuthentic(v, h, file, index);
    NextOffset(index, h.chunkSize);
    MulMonotone(index, last, h.chunkSize);
    CutAtLength(offset, h.chunkSize, DecryptChunk(v, h, index, Region(h, file, index)).value, start, end);
    if index < last {
      MulMonotone(index + 1, last, h.chunkSize);
      CompleteLength(v, h, file, last, index + 1, offset + h.chunkSize, start, end);
    }
  }

  lemma {:induction false} NextOffset(index: nat, chunkSize: nat)
    ensures (index + 1) * chunkSize == index * chunkSize + chunkSize
  {
  }

  lemma {:induction false} OpenedIsAuthentic(v: Vault, h: Header, file: Bytes, index: nat)
    requires h.Valid() && HasChunk(h, index) && ChunkOffset(h, index) + StoredChunkSize(h, index) <= |file|
    requires DecryptChunk(v, h, index, Region(h, file, index)).Success?
    ensures Authentic(v, h, file, index)
    ensures |DecryptChunk(v, h, index, Region(h, file, index)).value| == PlainChunkSize(h, index)
  {
    hide DecryptChunk, SealChunk, ChunksIn;
    var plain := DecryptChunk(v, h, index, Region(h, file, index)).value;
    DecryptInvertsSeal(v, h, index, Region(h, file, index), plain);
  }

  /** A chunk of the range gives up the part of the range that it holds. */
  lemma {:induction false} CutAtLength(offset: nat, chunkSize: nat, plain: Bytes, start: nat, end: nat)
    requires 0 < |plain| <= chunkSize && offset <= end && start <= end && start < offset + chunkSize
    requires |plain| < chunkSize ==> end < offset + |plain|
    ensures |CutAt(offset, plain, start, end)| + Max(offset, start) == Min(end + 1, offset + chunkSize)
  {
  }

  /** For any content at all: a reading that completes has as many bytes as were promised, and
      every chunk it drew on is authentic. */
  lemma {:induction false} CompleteIsAuthentic(v: Vault, h: Header, file: Bytes, start: nat, end: nat)
    requires Wanted(h, start, end)
    requires ReadRange(v, h, file, start, end).verdict == Complete
    ensures |ReadRange(v, h, file, start, end).output| == end - start + 1
    ensures forall i :: SpanOf(h, start, end).firstChunk <= i <= SpanOf(h, start, end).lastChunk ==>
              Authentic(v, h, file, i)
  {
    hide Decode, ChunksIn, EncryptedSpan, DecryptChunk, Authentic, SealChunk, Header.Valid;
    WantedSpan(h, start, end);
    var span := SpanOf(h, start, end);
    CompleteChunks(v, h, file, span.lastChunk, span.firstChunk, start, end);
    NextOffset(span.firstChunk, h.chunkSize);
    NextOffset(span.lastChunk, h.chunkSize);
    CompleteLength(v, h, file, span.lastChunk, span.firstChunk, span.firstChunk * h.chunkSize, start, end);
  }

  lemma {:induction false} FirstChunkDecides(v: Vault, h: Header, file: Bytes, start: nat, end: nat)
    requires Wanted(h, start, end)
    requires var first := SpanOf(h, start, end).firstChunk;
             && HasChunk(h, first) && ChunkOffset(h, first) + StoredChunkSize(h, first) <= |file|
             && DecryptChunk(v, h, first, Region(h, file, first)).Failure?
    ensures ReadRange(v, h, file, start, end) == Reading([], ChunkRejected)
  {
    hide EncryptedSpan, DecryptChunk, ChunksIn, Header.Valid;
    WantedSpan(h, start, end);
  }

  /** A recording's stored file gives nothing at all under another path, and nothing if its header was
      exchanged, provided that its chunks open only as what they were sealed as. */
  lemma {:induction false} ForeignFileIsRejected(
    v: Vault, h: Header, file: Bytes, index: nat, plain: Bytes, v': Vault, h': Header, start: nat, end: nat)
    requires FitsFields(v, h, index, |plain|)
    requires OpensOnlyAs(v.aead, ChunkNonce(h, index), SealChunk(v, h, index, plain), ChunkAad(v, h, index, |plain|))
    requires |v'.contextDigest| == DIGEST_BYTES && v'.aead == v.aead && Wanted(h', start, end)
    requires var first := SpanOf(h', start, end).firstChunk;
             && HasChunk(h', first) && ChunkOffset(h', first) + StoredChunkSize(h', first) <= |file|
             && Region(h', file, first) == SealChunk(v, h, index, plain)
    requires v'.contextDigest != v.contextDigest || h' != h || SpanOf(h', start, end).firstChunk != index
    ensures ReadRange(v', h', file, start, end) == Reading([], ChunkRejected)
  {
    ForeignChunkFails(v, h, index, plain, v', h', SpanOf(h', start, end).firstChunk);
    FirstChunkDecides(v', h', file, start, end);
  }
}
