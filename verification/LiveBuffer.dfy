/** The live window of one camera: what it holds, which names it remembers, and the HLS playlist
    that players make of it (RFC 8216). */
module LiveBuffer {
  import opened Arithmetic
  import opened Wrappers
  import opened Bytes
  import opened Segments

  function Names(segments: seq<LiveSegment>): (names: seq<string>)
    ensures |names| == |segments| && forall i :: 0 <= i < |names| ==> names[i] == segments[i].name
  {
    seq(|segments|, i requires 0 <= i < |segments| => segments[i].name)
  }

  predicate Distinct(names: seq<string>) {
    forall i, j :: 0 <= i < j < |names| ==> names[i] != names[j]
  }

  predicate IsSuffix(part: seq<string>, whole: seq<string>) {
    |part| <= |whole| && whole[|whole| - |part|..] == part
  }

  function SetOf(names: seq<string>): set<string> { set name | name in names }

  /** Consecutive sequence numbers, the last one being `next - 1`. */
  predicate Numbered(segments: seq<LiveSegment>, next: nat) {
    |segments| <= next && forall i :: 0 <= i < |segments| ==> segments[i].sequence == next - |segments| + i
  }

  /** The discontinuity number never falls and rises by one at a time, up to `last`. */
  predicate Stepwise(segments: seq<LiveSegment>, last: nat) {
    && (forall i, j :: 0 <= i < j == i + 1 < |segments| ==>
          segments[i].discontinuity <= segments[j].discontinuity <= segments[i].discontinuity + 1)
    && (segments != [] ==> segments[|segments| - 1].discontinuity == last)
  }

  predicate Fits(segments: seq<LiveSegment>, window: nat, maxBytes: nat) {
    |segments| <= window && DataSize(segments) <= maxBytes
  }

  /** As few of the oldest as necessary are dropped. */
  predicate Evicts(before: seq<LiveSegment>, after: seq<LiveSegment>, window: nat, maxBytes: nat) {
    && Fits(after, window, maxBytes)
    && |after| <= |before| && before[|before| - |after|..] == after
    && forall k :: 0 <= k < |before| - |after| ==> !Fits(before[k..], window, maxBytes)
  }

  /** What the window and the remembered names keep. */
  predicate Window(segments: seq<LiveSegment>, next: nat, last: nat, recent: seq<string>) {
    && Numbered(segments, next) && Stepwise(segments, last)
    && Distinct(recent) && IsSuffix(Names(segments), recent)
  }

  /** The remembered names with one more; the oldest is forgotten when there are `memory` of them. */
  function Remembered(recent: seq<string>, name: string, memory: nat): seq<string>
    requires memory > 0
  {
    (if |recent| == memory then recent[1..] else recent) + [name]
  }

  lemma {:induction false} FitsLength(segments: seq<LiveSegment>, window: nat, maxBytes: nat)
    requires Fits(segments, window, maxBytes)
    ensures |segments| <= window
  {
  }

  lemma {:induction false} NextWindow(segments: seq<LiveSegment>, s: LiveSegment, next: nat, was: nat, last: nat,
                                      recent: seq<string>, memory: nat)
    requires Window(segments, next, was, recent) && was <= last <= was + 1
    requires s.sequence == next && s.discontinuity == last && s.name !in recent
    requires |segments| < memory && |recent| <= memory
    ensures Window(segments + [s], next + 1, last, Remembered(recent, s.name, memory))
    ensures Distinct(recent)
  {
    NextNumber(segments, s, next, was, last);
    var now := Remembered(recent, s.name, memory);
    NextName(Names(segments), recent, now, s.name);
    assert Names(segments + [s]) == Names(segments) + [s.name];
    hide Names, Numbered, Stepwise;
  }

  lemma {:induction false} EvictWindow(before: seq<LiveSegment>, after: seq<LiveSegment>, window: nat, maxBytes: nat,
                                       next: nat, last: nat, recent: seq<string>)
    requires Window(before, next, last, recent) && Evicts(before, after, window, maxBytes)
    ensures Window(after, next, last, recent) && Fits(after, window, maxBytes)
  {
    EvictKeeps(before, after, next, last, recent);
  }

  lemma {:induction false} SuffixSize(segments: seq<LiveSegment>, k: nat)
    requires k < |segments|
    ensures DataSize(segments[k..]) == |segments[k].data| + DataSize(segments[k + 1..])
  {
    DataSizeFirst(segments[k..]);
    assert segments[k..][1..] == segments[k + 1..];
  }

  // ---- Playlists that FFmpeg uploads --------------------------------------

  /** A playlist line: `Duration(None)` is an EXTINF that is no number; a URI is given by the last
      part of its path, which may be empty. */
  datatype Line = Blank | Duration(value: Option<real>) | Comment | Uri(name: string)

  datatype Hint = Hint(name: string, duration: real)

  /** The duration that the next URI gets. */
  function Pending(lines: seq<Line>): Option<real> {
    if lines == [] then None
    else
      match lines[|lines| - 1]
      case Blank => Pending(lines[..|lines| - 1])
      case Comment => Pending(lines[..|lines| - 1])
      case Duration(value) => if value.Some? then Some(RealMax(0.001, value.value)) else None
      case Uri(_) => None
  }

  /** What a playlist says about durations: each URI with the EXTINF before it. */
  function Hints(lines: seq<Line>): seq<Hint> {
    if lines == [] then []
    else
      var init, last := lines[..|lines| - 1], lines[|lines| - 1];
      if last.Uri? && last.name != [] && Pending(init).Some?
      then Hints(init) + [Hint(last.name, Pending(init).value)]
      else Hints(init)
  }

  /** The last word on a name. */
  function LastHint(hints: seq<Hint>, name: string): Option<real> {
    if hints == [] then None
    else if hints[|hints| - 1].name == name then Some(hints[|hints| - 1].duration)
    else LastHint(hints[..|hints| - 1], name)
  }

  function Or(value: Option<real>, default: real): real {
    if value.Some? then value.value else default
  }

  /** A hint is what the playlist says last, or else what was known before. */
  ghost predicate HintsFrom(said: seq<Hint>, held: seq<string>, before: map<string, real>, after: map<string, real>) {
    forall n :: n in after && n !in held ==>
      if LastHint(said, n).Some? then after[n] == LastHint(said, n).value else n in before && after[n] == before[n]
  }

  /** The names of the hints with one more, which goes last if it is new; only the latest stay. */
  function Latest(order: seq<string>, name: string, limit: nat): seq<string> {
    var all := if name in order then order else order + [name];
    if |all| <= limit then all else all[|all| - limit..]
  }

  function LatestOf(order: seq<string>, said: seq<Hint>, held: seq<string>, limit: nat): seq<string> {
    if said == [] then order
    else
      var before, name := LatestOf(order, said[..|said| - 1], held, limit), said[|said| - 1].name;
      if name in held then before else Latest(before, name, limit)
  }

  lemma {:induction false} LatestOfOne(order: seq<string>, said: seq<Hint>, hint: Hint, held: seq<string>, limit: nat)
    ensures LatestOf(order, said + [hint], held, limit) ==
              if hint.name in held then LatestOf(order, said, held, limit)
              else Latest(LatestOf(order, said, held, limit), hint.name, limit)
  {
    assert (said + [hint])[..|said|] == said;
  }

  lemma {:induction false} NextLine(lines: seq<Line>, i: nat)
    requires i < |lines|
    ensures var before, after := lines[..i], lines[..i + 1];
            match lines[i]
            case Blank => Pending(after) == Pending(before) && Hints(after) == Hints(before)
            case Comment => Pending(after) == Pending(before) && Hints(after) == Hints(before)
            case Duration(value) =>
              && Pending(after) == (if value.Some? then Some(RealMax(0.001, value.value)) else None)
              && Hints(after) == Hints(before)
            case Uri(name) =>
              && Pending(after) == None
              && Hints(after) == if name != [] && Pending(before).Some?
                                 then Hints(before) + [Hint(name, Pending(before).value)] else Hints(before)
  {
    assert lines[..i + 1][..i] == lines[..i];
  }

  /** The durations of the held segments after what a playlist has said so far. */
  predicate Said(names: seq<string>, was: seq<real>, said: seq<Hint>, now: seq<real>) {
    && |now| == |was| == |names|
    && forall k :: 0 <= k < |now| ==> now[k] == Or(LastHint(said, names[k]), was[k])
  }

  function Durations(segments: seq<LiveSegment>): (r: seq<real>)
    reads segments
    ensures |r| == |segments| && forall k :: 0 <= k < |r| ==> r[k] == segments[k].duration
  {
    seq(|segments|, k requires 0 <= k < |segments| reads segments => segments[k].duration)
  }

  lemma {:induction false} LastHintOf(hints: seq<Hint>, hint: Hint, name: string)
    ensures LastHint(hints + [hint], name) == if name == hint.name then Some(hint.duration) else LastHint(hints, name)
  {
    assert (hints + [hint])[..|hints|] == hints;
  }

  // ---- The playlist for players -------------------------------------------

  datatype Tag =
    | ExtM3u | Version(n: nat) | TargetDuration(seconds: int) | MediaSequence(n: nat) | DiscontinuitySequence(n: nat)
    | Discontinuity | ProgramDateTime(time: int) | ExtInf(millis: int) | Resource(name: string)

  /** `:.3f`, to the even neighbour on a tie. */
  function Millis(duration: real): int {
    var whole := (duration * 1000.0).Floor;
    var rest := duration * 1000.0 - whole as real;
    if rest < 0.5 || (rest == 0.5 && whole % 2 == 0) then whole else whole + 1
  }

  /** The nearest whole number of milliseconds, and the even one of two that are as near. */
  lemma {:induction false} MillisIsNearest(duration: real, n: int)
    ensures var off, other := Millis(duration) as real - duration * 1000.0, n as real - duration * 1000.0;
            && -0.5 <= off <= 0.5
            && (n != Millis(duration) ==> other <= off - 1.0 || other >= off + 1.0)
            && (off == 0.5 || off == -0.5 ==> Millis(duration) % 2 == 0)
  {
  }

  function Ceil(x: real): int { -((-x).Floor) }

  /** What a player knows of a segment it has read: sections 4.3.2.1, 4.3.2.6, 4.3.3.2 and 4.3.3.3 of RFC 8216. */
  datatype Played = Played(sequence: nat, discontinuity: nat, name: string, millis: int, time: int)

  datatype Player = Player(target: int, sequence: nat, discontinuity: nat, millis: int, time: int, played: seq<Played>)

  /** What a line tells a player. */
  function Hears(p: Player, tag: Tag): Player {
    match tag
    case TargetDuration(n) => p.(target := n)
    case MediaSequence(n) => p.(sequence := n)
    case DiscontinuitySequence(n) => p.(discontinuity := n)
    case Discontinuity => p.(discontinuity := p.discontinuity + 1)
    case ProgramDateTime(time) => p.(time := time)
    case ExtInf(millis) => p.(millis := millis)
    case Resource(name) =>
      p.(sequence := p.sequence + 1,
         played := p.played + [Played(p.sequence, p.discontinuity, name, p.millis, p.time)])
    case _ => p
  }

  /** A player reading line by line. The numbers start at zero unless a header says otherwise. */
  function Read(tags: seq<Tag>): Player {
    if tags == [] then Player(0, 0, 0, 0, 0, []) else Hears(Read(tags[..|tags| - 1]), tags[|tags| - 1])
  }

  lemma {:induction false} ReadOne(tags: seq<Tag>, tag: Tag)
    ensures Read(tags + [tag]) == Hears(Read(tags), tag)
  {
    assert (tags + [tag])[..|tags|] == tags;
  }

  /** What the buffer means a player to know. */
  function Meant(segments: seq<LiveSegment>): (r: seq<Played>)
    reads segments
    ensures |r| == |segments|
  {
    seq(|segments|, i requires 0 <= i < |segments| reads segments =>
      Played(segments[i].sequence, segments[i].discontinuity, segments[i].name, Millis(segments[i].duration),
             segments[i].createdAt))
  }

  // ---- The buffer ---------------------------------------------------------

  class Buffer {
    const window: nat
    const maxBytes: nat
    const defaultDuration: real
    var segments: seq<LiveSegment>
    var bytes: nat
    var nextSequence: nat
    var hintOrder: seq<string>
    var hints: map<string, real>
    var recent: seq<string>
    var recentSet: set<string>
    var stream: Option<string>
    var discontinuities: nat

    function Memory(): (m: nat)
      ensures m >= 64 && m >= window * 8 && (m == 64 || m == window * 8)
    {
      Max(64, window * 8)
    }

    predicate HintsValid()
      reads this
    {
      Distinct(hintOrder) && SetOf(hintOrder) == hints.Keys && |hintOrder| <= window * 4
    }

    /** The window respects both bounds, its byte count is exact, its sequence numbers are
        consecutive, its discontinuity numbers rise one by one, and its names are the last ones of
        the remembered names, which are distinct. */
    predicate Valid()
      reads this
    {
      && Fits(segments, window, maxBytes) && bytes == DataSize(segments)
      && Window(segments, nextSequence, discontinuities, recent)
      && |recent| <= Memory() && recentSet == SetOf(recent)
      && HintsValid()
    }

    constructor (window: nat, maxBytes: nat, defaultDuration: real)
      ensures Valid() && segments == [] && recent == []
      ensures this.window == window && this.maxBytes == maxBytes && this.defaultDuration == defaultDuration
    {
      this.window, this.maxBytes, this.defaultDuration := window, maxBytes, defaultDuration;
      segments, bytes, nextSequence := [], 0, 0;
      hintOrder, hints, recent, recentSet := [], map[], [], {};
      stream, discontinuities := None, 0;
    }

    /** Forgets the oldest name when the memory is full. */
    method RememberName(name: string)
      requires Distinct(recent) && |recent| <= Memory() && recentSet == SetOf(recent) && name !in recent
      modifies `recent, `recentSet
      ensures |recent| <= Memory() && recentSet == SetOf(recent)
      ensures recent == Remembered(old(recent), name, Memory())
    {
      if |recent| == Memory() {
        var forgotten := recent[0];
        assert recent == [forgotten] + recent[1..];
        recent := recent[1..];
        recentSet := recentSet - {forgotten};
      }
      recent := recent + [name];
      recentSet := recentSet + {name};
    }

    method Evict()
      requires bytes == DataSize(segments)
      modifies `segments, `bytes
      ensures bytes == DataSize(segments) && Evicts(old(segments), segments, window, maxBytes)
    {
      hide DataSize;
      ghost var before := segments;
      ghost var k := 0;
      while segments != [] && (|segments| > window || bytes > maxBytes)
        invariant k <= |before| && segments == before[k..] && bytes == DataSize(segments)
        invariant forall j :: 0 <= j < k ==> !Fits(before[j..], window, maxBytes)
        decreases |segments|
      {
        SuffixSize(before, k);
        var first := segments[0];
        segments := segments[1..];
        bytes := bytes - |first.data|;
        k := k + 1;
      }
    }

    /** The hint for a new segment, which is used up. */
    method TakeDuration(name: string) returns (duration: real)
      requires HintsValid()
      modifies `hints, `hintOrder
      ensures HintsValid() && hints == old(hints) - {name}
      ensures duration == if name in old(hints) then old(hints)[name] else defaultDuration
    {
      duration := defaultDuration;
      if name in hints {
        duration := hints[name];
        DropHint(name);
      }
    }

    /** The newest segment joins, its name is remembered, and the oldest segments leave. */
    method Append(s: LiveSegment, ghost was: nat)
      requires Fits(segments, window, maxBytes) && bytes == DataSize(segments)
      requires Window(segments, nextSequence, was, recent) && |recent| <= Memory() && recentSet == SetOf(recent)
      requires was <= discontinuities <= was + 1 && s.name !in recent
      requires s.sequence == nextSequence && s.discontinuity == discontinuities
      modifies `segments, `bytes, `nextSequence, `recent, `recentSet
      ensures Fits(segments, window, maxBytes) && bytes == DataSize(segments)
      ensures Window(segments, nextSequence, discontinuities, recent) && |recent| <= Memory()
              && recentSet == SetOf(recent)
      ensures nextSequence == old(nextSequence) + 1 && recent == Remembered(old(recent), s.name, Memory())
      ensures Evicts(old(segments) + [s], segments, window, maxBytes)
    {
      hide Window, DataSize, Distinct, SetOf, Remembered, Names, Evicts, Fits, HintsValid;
      FitsLength(segments, window, maxBytes);
      NextWindow(segments, s, nextSequence, was, discontinuities, recent, Memory());
      DataSizeOne(segments, s);
      nextSequence := nextSequence + 1;
      segments := segments + [s];
      bytes := bytes + |s.data|;
      ghost var longer := segments;
      RememberName(s.name);
      Evict();
      EvictWindow(longer, segments, window, maxBytes, nextSequence, discontinuities, recent);
    }

    /** A name that is held or remembered is refused and nothing changes; any other becomes the
        newest segment, and as few of the oldest as necessary leave. */
    method AddSegment(name: string, data: Bytes, createdAt: int, streamId: Option<string>)
        returns (segment: Option<LiveSegment>)
      requires Valid()
      modifies this
      ensures Valid()
      ensures segment.None? <==> name in old(recent)
      ensures segment.None? ==> segments == old(segments) && recent == old(recent) && nextSequence == old(nextSequence)
                                && hints == old(hints) && discontinuities == old(discontinuities)
                                && stream == old(stream)
      ensures segment.Some? ==>
                var s := segment.value;
                && fresh(s) && s.name == name && s.data == data && s.createdAt == createdAt && s.streamId == streamId
                && s.sequence == old(nextSequence) && nextSequence == old(nextSequence) + 1
                && s.duration == (if name in old(hints) then old(hints)[name] else defaultDuration)
                && hints == old(hints) - {name}
                && s.discontinuity == discontinuities
                && discontinuities == old(discontinuities) +
                     (if streamId.Some? && old(stream).Some? && streamId != old(stream) then 1 else 0)
                && stream == (if streamId.Some? then streamId else old(stream))
                && recent == Remembered(old(recent), name, Memory())
                && Evicts(old(segments) + [s], segments, window, maxBytes)
    {
      WindowNames(segments, nextSequence, discontinuities, recent, recentSet);
      if name in Names(segments) || name in recentSet {
        return None;
      }
      hide Window, Evicts, DataSize, SetOf, Distinct, Remembered, Names, HintsValid;
      ghost var was := discontinuities;
      var duration := TakeDuration(name);
      if streamId.Some? {
        if stream.Some? && streamId != stream {
          discontinuities := discontinuities + 1;
        }
        stream := streamId;
      }
      var s := new LiveSegment(nextSequence, name, data, createdAt, duration, streamId, discontinuities);
      Append(s, was);
      segment := Some(s);
    }

    method DropHint(name: string)
      requires HintsValid() && name in hints
      modifies `hints, `hintOrder
      ensures HintsValid() && hints == old(hints) - {name}
      ensures exists i :: 0 <= i < |old(hintOrder)| && old(hintOrder)[i] == name
                          && hintOrder == old(hintOrder)[..i] + old(hintOrder)[i + 1..]
    {
      var i :| 0 <= i < |hintOrder| && hintOrder[i] == name;
      hintOrder := hintOrder[..i] + hintOrder[i + 1..];
      hints := hints - {name};
    }

    /** The oldest hint goes. */
    method PopHint()
      requires hintOrder != [] && Distinct(hintOrder) && SetOf(hintOrder) == hints.Keys
      modifies `hints, `hintOrder
      ensures Distinct(hintOrder) && SetOf(hintOrder) == hints.Keys
      ensures hintOrder == old(hintOrder)[1..]
      ensures forall n :: n in hints ==> n in old(hints) && hints[n] == old(hints)[n]
    {
      var first := hintOrder[0];
      assert hintOrder == [first] + hintOrder[1..];
      hintOrder := hintOrder[1..];
      hints := hints - {first};
    }

    /** Hints for names that are not held yet are kept in order of arrival, the latest few. */
    method KeepHint(hint: Hint)
      requires HintsValid()
      modifies `hints, `hintOrder
      ensures HintsValid() && hintOrder == Latest(old(hintOrder), hint.name, window * 4)
      ensures forall n :: n in hints ==> n in old(hints)[hint.name := hint.duration]
                                         && hints[n] == old(hints)[hint.name := hint.duration][n]
    {
      if hint.name !in hints {
        assert hint.name !in SetOf(hintOrder);
        hintOrder := hintOrder + [hint.name];
      } else {
        assert hint.name in SetOf(hintOrder);
      }
      hints := hints[hint.name := hint.duration];
      TrimHints();
    }

    /** Only the latest hints stay. */
    method TrimHints()
      requires Distinct(hintOrder) && SetOf(hintOrder) == hints.Keys
      modifies `hints, `hintOrder
      ensures HintsValid()
      ensures hintOrder == old(if |hintOrder| <= window * 4 then hintOrder else hintOrder[|hintOrder| - window * 4..])
      ensures forall n :: n in hints ==> n in old(hints) && hints[n] == old(hints)[n]
    {
      hide SetOf, Distinct;
      ghost var all, order := hints, hintOrder;
      ghost var k := 0;
      while |hintOrder| > window * 4
        invariant Distinct(hintOrder) && SetOf(hintOrder) == hints.Keys
        invariant k <= |order| && hintOrder == order[k..] && (k > 0 ==> |order| - k >= window * 4)
        invariant forall n :: n in hints ==> n in all && hints[n] == all[n]
      {
        PopHint();
        k := k + 1;
      }
    }

    /** A held segment takes the duration; for another name it becomes a hint. */
    method ApplyHint(hint: Hint)
      requires HintsValid() && Distinct(Names(segments))
      modifies `hints, `hintOrder, segments
      ensures HintsValid()
      ensures forall k :: 0 <= k < |segments| ==>
                Durations(segments)[k] == if Names(segments)[k] == hint.name then hint.duration
                      else old(Durations(segments))[k]
      ensures hintOrder == if hint.name in Names(segments) then old(hintOrder)
                           else Latest(old(hintOrder), hint.name, window * 4)
      ensures if hint.name in Names(segments) then hints == old(hints)
              else forall n :: n in hints ==> n in old(hints)[hint.name := hint.duration]
                                              && hints[n] == old(hints)[hint.name := hint.duration][n]
    {
      if k :| 0 <= k < |segments| && segments[k].name == hint.name {
        assert Names(segments)[k] == hint.name;
        assert forall j :: 0 <= j < |segments| && j != k ==> Names(segments)[j] != hint.name;
        hide Names, SetOf, Distinct;
        segments[k].duration := hint.duration;
      } else {
        hide HintsValid, Latest;
        KeepHint(hint);
      }
    }

    /** The next URI of a playlist that has `said` so much already. */
    method ApplyUri(hint: Hint, ghost said: seq<Hint>, ghost held: seq<string>, ghost was: seq<real>,
                    ghost before: map<string, real>, ghost order: seq<string>)
      requires HintsValid() && Distinct(held) && held == Names(segments)
      requires Said(held, was, said, Durations(segments)) && HintsFrom(said, held, before, hints)
      requires hintOrder == LatestOf(order, said, held, window * 4)
      modifies `hints, `hintOrder, segments
      ensures HintsValid()
      ensures Said(held, was, said + [hint], Durations(segments)) && HintsFrom(said + [hint], held, before, hints)
      ensures hintOrder == LatestOf(order, said + [hint], held, window * 4)
    {
      hide HintsValid, Names, Distinct, HintsFrom, Latest, LatestOf, Said, Durations;
      ghost var known, mid := hints, Durations(segments);
      ApplyHint(hint);
      LatestOfOne(order, said, hint, held, window * 4);
      NextHint(said, hint, held, before, known, hints);
      NextSaid(held, was, said, hint, mid, Durations(segments));
    }

    /** A held segment takes the last duration that the playlist gives for its name; the others are
        kept as hints. Nothing else changes, in particular no byte count. */
    method ApplyPlaylist(lines: seq<Line>)
      requires Valid()
      modifies `hints, `hintOrder, segments
      ensures Valid() && segments == old(segments)
      ensures forall i :: 0 <= i < |segments| ==>
                segments[i].duration == Or(LastHint(Hints(lines), segments[i].name), old(segments[i].duration))
      ensures HintsFrom(Hints(lines), Names(segments), old(hints), hints)
      ensures hints.Keys == SetOf(hintOrder)
      ensures hintOrder == LatestOf(old(hintOrder), Hints(lines), Names(segments), window * 4)
    {
      ghost var held, was := Names(segments), Durations(segments);
      DistinctNames(segments, nextSequence, discontinuities, recent);
      hide Window, DataSize, SetOf, Names, Distinct, HintsFrom, Latest, LatestOf, Said, Pending, Hints, Durations;
      hide HintsValid, Or, LastHint, Fits;
      var pending: Option<real> := None;
      NoHints(held, was, hints, hintOrder, window * 4);
      for i := 0 to |lines|
        invariant pending == Pending(lines[..i])
        invariant HintsValid()
        invariant Said(held, was, Hints(lines[..i]), Durations(segments))
        invariant HintsFrom(Hints(lines[..i]), held, old(hints), hints)
        invariant hintOrder == LatestOf(old(hintOrder), Hints(lines[..i]), held, window * 4)
      {
        NextLine(lines, i);
        match lines[i]
        case Blank =>
        case Comment =>
        case Duration(value) =>
          pending := if value.Some? then Some(RealMax(0.001, value.value)) else None;
        case Uri(name) =>
          if pending.Some? && name != [] {
            ApplyUri(Hint(name, pending.value), Hints(lines[..i]), held, was, old(hints), old(hintOrder));
          }
          pending := None;
      }
      AllSaid(lines, held, was, Durations(segments));
    }

    /** The longest duration, rounded up to whole seconds: the least target that covers all. */
    method TargetDuration() returns (target: int)
      requires segments != []
      ensures target >= 1
      ensures forall k :: 0 <= k < |segments| ==>
                segments[k].duration <= target as real && Meant(segments)[k].millis <= 1000 * target
      ensures target > 1 ==> exists k :: 0 <= k < |segments| && segments[k].duration > (target - 1) as real
    {
      hide Millis, Ceil;
      var longest := segments[0].duration;
      ghost var at := 0;
      for i := 1 to |segments|
        invariant forall k :: 0 <= k < i ==> segments[k].duration <= longest
        invariant at < i && segments[at].duration == longest
      {
        if segments[i].duration > longest { at := i; }
        longest := RealMax(longest, segments[i].duration);
      }
      CeilIsLeast(longest);
      target := Max(1, Ceil(longest));
      forall k | 0 <= k < |segments|
        ensures segments[k].duration <= target as real && Millis(segments[k].duration) <= 1000 * target
      {
        MillisWithin(segments[k].duration, longest, target);
      }
    }

    /** The lines of one segment, after those of the one before it. */
    method RenderSegment(before: seq<Tag>, s: LiveSegment, previous: nat) returns (tags: seq<Tag>)
      requires Read(before).discontinuity == previous
      requires previous <= s.discontinuity <= previous + 1
      ensures tags != []
      ensures var p := Read(before);
              var now := Played(p.sequence, s.discontinuity, s.name, Millis(s.duration), s.createdAt);
              Read(tags) == Player(p.target, p.sequence + 1, s.discontinuity, Millis(s.duration), s.createdAt,
                    p.played + [now])
    {
      hide Read, Millis;
      tags := before;
      if s.discontinuity > previous {
        ReadOne(tags, Discontinuity);
        tags := tags + [Discontinuity];
      }
      ReadOne(tags, ProgramDateTime(s.createdAt));
      tags := tags + [ProgramDateTime(s.createdAt)];
      ReadOne(tags, ExtInf(Millis(s.duration)));
      tags := tags + [ExtInf(Millis(s.duration))];
      ReadOne(tags, Resource(s.name));
      tags := tags + [Resource(s.name)];
    }

    /** The lines of all segments, after the header. */
    method RenderSegments(header: seq<Tag>, first: nat) returns (tags: seq<Tag>)
      requires Valid() && segments != [] && header != []
      requires first == segments[0].discontinuity == Read(header).discontinuity
      requires Read(header).sequence == segments[0].sequence && Read(header).played == []
      ensures tags != [] && Read(tags).played == Meant(segments) && Read(tags).target == Read(header).target
    {
      hide Window, DataSize, HintsValid, Read, Distinct, IsSuffix, SetOf, Numbered, Stepwise, Meant, Fits, Names;
      tags := header;
      var previous := first;
      for i := 0 to |segments|
        invariant tags != []
        invariant previous == if i == 0 then first else segments[i - 1].discontinuity
        invariant Read(tags).target == Read(header).target && Read(tags).discontinuity == previous
        invariant Read(tags).sequence == segments[0].sequence + i
        invariant Read(tags).played == Meant(segments)[..i]
      {
        var s := segments[i];
        SegmentAt(segments, nextSequence, discontinuities, recent, i);
        tags := RenderSegment(tags, s, previous);
        previous := s.discontinuity;
      }
      assert Meant(segments)[..|segments|] == Meant(segments);
    }

    /** A player that reads the playlist gets back, for every held segment, its own sequence number
        and its own discontinuity number, its name, its time and its duration to the millisecond, and
        the least target duration, in whole seconds, that none of them exceeds. An empty window has no playlist. */
    method RenderPlaylist() returns (tags: seq<Tag>)
      requires Valid()
      ensures segments == [] <==> tags == []
      ensures Read(tags).played == Meant(segments)
      ensures segments != [] ==> Read(tags).target >= 1
      ensures Read(tags).target > 1 ==>
                exists k :: 0 <= k < |segments| && segments[k].duration > (Read(tags).target - 1) as real
      ensures forall i :: 0 <= i < |segments| ==>
                segments[i].duration <= Read(tags).target as real
                      && Meant(segments)[i].millis <= 1000 * Read(tags).target
    {
      if segments == [] {
        return [];
      }
      hide Read, Meant, Valid;
      var target := TargetDuration();
      var sequence, first := segments[0].sequence, segments[0].discontinuity;
      tags := [Tag.ExtM3u, Tag.Version(3), Tag.TargetDuration(target), Tag.MediaSequence(sequence)];
      if first != 0 {
        tags := tags + [DiscontinuitySequence(first)];
      }
      HeaderRead(tags, target, sequence, first);
      tags := RenderSegments(tags, first);
    }
  }

  lemma {:induction false} SegmentAt(segments: seq<LiveSegment>, next: nat, last: nat, recent: seq<string>, i: nat)
    requires Window(segments, next, last, recent) && i < |segments|
    ensures segments[i].sequence == segments[0].sequence + i
    ensures i > 0 ==> segments[i - 1].discontinuity <= segments[i].discontinuity <= segments[i - 1].discontinuity + 1
    ensures Meant(segments)[..i + 1] == Meant(segments)[..i]
              + [Played(segments[i].sequence, segments[i].discontinuity, segments[i].name, Millis(segments[i].duration),
                        segments[i].createdAt)]
  {
    hide Millis, Distinct, IsSuffix;
  }

  lemma {:induction false} CeilIsLeast(x: real)
    ensures x <= Ceil(x) as real && (Ceil(x) - 1) as real < x
  {
    assert (-x).Floor as real <= -x < ((-x).Floor + 1) as real;
  }

  lemma {:induction false} MillisWithin(duration: real, longest: real, target: int)
    requires duration <= longest && target == Max(1, Ceil(longest))
    ensures duration <= target as real && Millis(duration) <= 1000 * target
  {
    var negated := (-longest).Floor;
    assert negated as real <= -longest;
    assert duration <= target as real;
  }

  lemma {:induction false} HeaderRead(tags: seq<Tag>, target: int, sequence: nat, first: nat)
    requires tags == [ExtM3u, Version(3), TargetDuration(target), MediaSequence(sequence)]
                     + (if first != 0 then [DiscontinuitySequence(first)] else [])
    ensures Read(tags) == Player(target, sequence, first, 0, 0, [])
  {
    hide Read;
    ReadNone();
    var one := [] + [ExtM3u];
    ReadOne([], ExtM3u);
    var two := one + [Version(3)];
    ReadOne(one, Version(3));
    var three := two + [TargetDuration(target)];
    ReadOne(two, TargetDuration(target));
    var four := three + [MediaSequence(sequence)];
    ReadOne(three, MediaSequence(sequence));
    if first != 0 {
      ReadOne(four, DiscontinuitySequence(first));
      assert tags == four + [DiscontinuitySequence(first)];
    } else {
      assert tags == four;
    }
  }

  lemma {:induction false} ReadNone()
    ensures Read([]) == Player(0, 0, 0, 0, 0, [])
  {
  }

  lemma {:induction false} NextSaid(names: seq<string>, was: seq<real>, said: seq<Hint>, hint: Hint,
                                    mid: seq<real>, now: seq<real>)
    requires Said(names, was, said, mid) && |now| == |mid|
    requires forall k :: 0 <= k < |mid| ==> now[k] == if names[k] == hint.name then hint.duration else mid[k]
    ensures Said(names, was, said + [hint], now)
  {
    forall k | 0 <= k < |now|
      ensures now[k] == Or(LastHint(said + [hint], names[k]), was[k])
    {
      LastHintOf(said, hint, names[k]);
    }
  }

  lemma {:induction false} AllSaid(lines: seq<Line>, names: seq<string>, was: seq<real>, now: seq<real>)
    requires Said(names, was, Hints(lines[..|lines|]), now)
    ensures lines[..|lines|] == lines
    ensures forall k :: 0 <= k < |now| ==> now[k] == Or(LastHint(Hints(lines), names[k]), was[k])
    ensures |now| == |was| == |names|
  {
    assert lines[..|lines|] == lines;
  }

  lemma {:induction false} NoHints(held: seq<string>, was: seq<real>, hints: map<string, real>, order: seq<string>,
                                   limit: nat)
    requires |held| == |was|
    ensures HintsFrom([], held, hints, hints) && Said(held, was, [], was) && Hints([]) == [] && Pending([]) == None
    ensures LatestOf(order, [], held, limit) == order
  {
  }

  lemma {:induction false} NextHint(said: seq<Hint>, hint: Hint, held: seq<string>, before: map<string, real>,
                                    mid: map<string, real>, after: map<string, real>)
    requires HintsFrom(said, held, before, mid)
    requires if hint.name in held then after == mid
             else
               var all := mid[hint.name := hint.duration];
               forall n :: n in after ==> n in all && after[n] == all[n]
    ensures HintsFrom(said + [hint], held, before, after)
  {
    forall n ensures LastHint(said + [hint], n) == if n == hint.name then Some(hint.duration) else LastHint(said, n) {
      LastHintOf(said, hint, n);
    }
    hide LastHint;
  }

  /** The check against the held names adds nothing to the check against the remembered ones. */
  lemma {:induction false} WindowNames(segments: seq<LiveSegment>, next: nat, last: nat, recent: seq<string>,
                                       recentSet: set<string>)
    requires Window(segments, next, last, recent) && recentSet == SetOf(recent)
    ensures forall name :: name in Names(segments) ==> name in recent
    ensures forall name :: name in recentSet <==> name in recent
  {
  }

  lemma {:induction false} DistinctNames(segments: seq<LiveSegment>, next: nat, last: nat, recent: seq<string>)
    requires Window(segments, next, last, recent)
    ensures Distinct(Names(segments))
  {
    var k := |recent| - |segments|;
    assert forall i :: 0 <= i < |segments| ==> Names(segments)[i] == recent[k + i];
  }

  lemma {:induction false} NextNumber(segments: seq<LiveSegment>, s: LiveSegment, next: nat, was: nat, last: nat)
    requires Numbered(segments, next) && Stepwise(segments, was) && was <= last <= was + 1
    requires s.sequence == next && s.discontinuity == last
    ensures Numbered(segments + [s], next + 1) && Stepwise(segments + [s], last)
  {
  }

  lemma {:induction false} NextName(names: seq<string>, was: seq<string>, now: seq<string>, name: string)
    requires IsSuffix(names, was) && (now == was + [name] || (|names| < |was| && now == was[1..] + [name]))
    ensures IsSuffix(names + [name], now)
  {
  }

  lemma {:induction false} SuffixNames(before: seq<LiveSegment>, k: nat, recent: seq<string>)
    requires k <= |before| && IsSuffix(Names(before), recent)
    ensures IsSuffix(Names(before[k..]), recent)
  {
    assert Names(before)[k..] == Names(before[k..]);
    assert recent[|recent| - |before|..][k..] == recent[|recent| - |before| + k..];
  }

  lemma {:induction false} SuffixNumbers(before: seq<LiveSegment>, k: nat, next: nat)
    requires k <= |before| && Numbered(before, next)
    ensures Numbered(before[k..], next)
  {
  }

  lemma {:induction false} SuffixSteps(before: seq<LiveSegment>, k: nat, last: nat)
    requires k <= |before| && Stepwise(before, last)
    ensures Stepwise(before[k..], last)
  {
    assert forall i :: 0 <= i < |before| - k ==> before[k..][i] == before[k + i];
  }

  lemma {:induction false} EvictKeeps(before: seq<LiveSegment>, after: seq<LiveSegment>, next: nat, last: nat,
                                      recent: seq<string>)
    requires Numbered(before, next) && Stepwise(before, last) && IsSuffix(Names(before), recent)
    requires |after| <= |before| && before[|before| - |after|..] == after
    ensures Numbered(after, next) && Stepwise(after, last) && IsSuffix(Names(after), recent)
  {
    hide Names, IsSuffix, Numbered, Stepwise;
    var k := |before| - |after|;
    SuffixNames(before, k, recent);
    SuffixNumbers(before, k, next);
    SuffixSteps(before, k, last);
  }
}
