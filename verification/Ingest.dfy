/** One camera's uploads, from the HTTP handler to sealed batches: the live window, the rotation on
    a new stream, and the accumulator, together. */
module Ingest {
  import opened Wrappers
  import opened Bytes
  import opened Segments
  import opened LiveBuffer
  import opened Batching

  /** All segments that carry a stream id carry this one. */
  predicate OneStream(segments: Batch, stream: Option<string>) {
    forall s :: s in segments && s.streamId.Some? ==> s.streamId == stream
  }

  /** No batch mixes two streams. */
  predicate SingleStream(batch: Batch) {
    forall s, t :: s in batch && t in batch && s.streamId.Some? && t.streamId.Some? ==> s.streamId == t.streamId
  }

  /** Every sequence number from zero on, once and in order. */
  predicate Gapless(segments: Batch, next: nat) {
    |segments| == next && forall i :: 0 <= i < |segments| ==> segments[i].sequence == i
  }

  /** What the archive can take: a segment over the memory limit is refused. */
  function Fitting(segments: Batch, cap: nat): Batch {
    if segments == [] then []
    else
      var init, last := segments[..|segments| - 1], segments[|segments| - 1];
      if |last.data| <= cap then Fitting(init, cap) + [last] else Fitting(init, cap)
  }

  lemma {:induction false} FittingOne(segments: Batch, s: LiveSegment, cap: nat)
    ensures Fitting(segments + [s], cap) == if |s.data| <= cap then Fitting(segments, cap) + [s]
          else Fitting(segments, cap)
  {
    assert (segments + [s])[..|segments|] == segments;
  }

  datatype Outcome = Duplicate | Accepted | TooLarge

  class Recorder {
    const buffer: Buffer
    const tuner: Tuner
    const acc: Accumulator
    var lastStream: Option<string>
    /** Every batch sealed so far, in order. */
    ghost var batches: seq<Batch>
    /** Every segment that the live window ever took. */
    ghost var taken: Batch

    /** All that the archive was given, in order. */
    ghost function Archived(): Batch
      reads this, acc
    {
      Flat(batches) + acc.segments
    }

    /** The live window took every sequence number once and in order; the sealed batches and the
        accumulator hold exactly those of its segments that fit, once and in the same order, and none
        of them mixes two streams. */
    ghost predicate Valid()
      reads this, buffer, tuner, acc
    {
      && buffer.Valid() && tuner.Valid() && acc.Valid()
      && acc.bytes <= tuner.config.cap
      && Gapless(taken, buffer.nextSequence)
      && Archived() == Fitting(taken, tuner.config.cap)
      && OneStream(acc.segments, lastStream)
      && forall b :: b in batches ==> SingleStream(b) && b != [] && DataSize(b) <= tuner.config.cap
    }

    constructor (buffer: Buffer, tuner: Tuner, acc: Accumulator)
      requires buffer.Valid() && tuner.Valid() && acc.Valid()
      requires acc.segments == [] && buffer.nextSequence == 0
      ensures Valid() && this.buffer == buffer && this.tuner == tuner && this.acc == acc && batches == [] && taken == []
    {
      this.buffer, this.tuner, this.acc := buffer, tuner, acc;
      lastStream, batches, taken := None, [], [];
    }

    /** A segment of another stream seals the batch of the one before. */
    method Rotate()
      requires Valid()
      modifies this`batches, acc
      ensures Valid() && acc.segments == [] && Archived() == old(Archived())
    {
      hide Buffer.Valid, Tuner.Valid, Flat, DataSize, SumOf, Gapless, Fitting;
      ghost var last, before := acc.segments, batches;
      SingleIfOne(last, lastStream);
      var batch := acc.Pop();
      if batch.Some? {
        FlatOne(before, last);
        batches := before + [last];
        assert Flat(batches) + acc.segments == Flat(before) + last;
      } else {
        assert Flat(before) + last == Flat(before);
      }
    }

    /** The archive's share of an upload: the newest segment of the live window joins the
        accumulator, which may seal batches. A segment over the limit is refused, and nothing
        changes. */
    method Archive(s: LiveSegment, memory: Option<nat>) returns (ok: bool)
      requires buffer.Valid() && tuner.Valid() && acc.Valid() && acc.bytes <= tuner.config.cap
      requires Gapless(taken, s.sequence) && buffer.nextSequence == s.sequence + 1
      requires Archived() == Fitting(taken, tuner.config.cap)
      requires OneStream(acc.segments, lastStream) && (s.streamId.Some? ==> s.streamId == lastStream)
      requires forall b :: b in batches ==> SingleStream(b) && b != [] && DataSize(b) <= tuner.config.cap
      modifies this`batches, this`taken, tuner, acc
      ensures Valid() && taken == old(taken) + [s]
      ensures ok <==> |s.data| <= tuner.config.cap
      ensures Archived() == if ok then old(Archived()) + [s] else old(Archived())
    {
      hide Buffer.Valid, Tuner.Valid, Flat, DataSize, SumOf, Gapless, OneStream, SingleStream, InstantRate, Fitting;
      GaplessOne(taken, s);
      FittingOne(taken, s, tuner.config.cap);
      taken := taken + [s];
      if |s.data| > tuner.config.cap {
        return false;
      }
      ghost var held, before := acc.segments, batches;
      OneMore(held, s, lastStream);
      var sealed := AddSegment(tuner, acc, s, memory);
      Seals(before, held, sealed, acc.segments, s, lastStream);
      batches := before + sealed;
      ok := true;
    }

    /** One uploaded segment. A repeated name is dropped. Any other name gets the next sequence
        number in the live window, and goes to the archive if it fits there. The live window keeps
        one that does not fit; so the archive never gets it, even if it is uploaded again. */
    method Upload(name: string, data: Bytes, createdAt: int, streamId: Option<string>, memory: Option<nat>)
      returns (outcome: Outcome, ghost s: Option<LiveSegment>)
      requires Valid()
      modifies this, buffer, tuner, acc
      ensures Valid()
      ensures outcome == (if name in old(buffer.recent) then Duplicate
                          else if |data| <= tuner.config.cap then Accepted else TooLarge)
      ensures outcome == Duplicate <==> s.None?
      ensures s.Some? ==>
                && s.value.name == name && s.value.data == data && s.value.streamId == streamId
                && name in buffer.recent
      ensures taken == old(taken) + (if s.Some? then [s.value] else [])
      ensures Archived() == old(Archived()) + (if outcome == Accepted then [s.value] else [])
    {
      hide Buffer.Valid, Tuner.Valid, Accumulator.Valid, Flat, DataSize, Gapless, OneStream, SingleStream, Evicts,
            Fitting;
      if streamId.Some? && lastStream.Some? && streamId != lastStream {
        Rotate();
      }
      NewStream(acc.segments, lastStream, streamId);
      var segment := buffer.AddSegment(name, data, createdAt, streamId);
      s := segment;
      if segment.None? {
        return Duplicate, None;
      }
      if streamId.Some? {
        lastStream := streamId;
      }
      var ok := Archive(segment.value, memory);
      outcome := if ok then Accepted else TooLarge;
    }

    /** An uploaded playlist. It changes the durations of held segments in place, and so those of
        segments that the accumulator holds too; its counters stay as they are. What the duration
        counter misses is exactly what this playlist, and those before it, have changed. */
    method Playlist(lines: seq<Line>)
      requires Valid()
      modifies buffer, buffer.segments
      ensures Valid() && batches == old(batches) && taken == old(taken)
      ensures acc.segments == old(acc.segments) && acc.duration == old(acc.duration) && acc.bytes == old(acc.bytes)
      ensures forall i :: 0 <= i < |acc.segments| ==>
                acc.segments[i].duration ==
                  if acc.segments[i] in buffer.segments
                  then Or(LastHint(Hints(lines), acc.segments[i].name), old(acc.segments[i].duration))
                  else old(acc.segments[i].duration)
      ensures SumOf(DurationsNow(acc.segments)) - acc.duration
           == old(SumOf(DurationsNow(acc.segments)) - acc.duration)
              + SumOf(Changes(DurationsNow(acc.segments), old(DurationsNow(acc.segments))))
    {
      hide Buffer.Valid, Tuner.Valid, Accumulator.Valid, Flat, DataSize, Gapless, OneStream, SingleStream, Fitting,
            SumOf, LastHint, Hints;
      buffer.ApplyPlaylist(lines);
      SumOfDifferences(DurationsNow(acc.segments), old(DurationsNow(acc.segments)),
                       Changes(DurationsNow(acc.segments), old(DurationsNow(acc.segments))));
    }
  }

  /** After the rotation the accumulator has room for the new stream. */
  lemma {:induction false} NewStream(segments: Batch, last: Option<string>, stream: Option<string>)
    requires OneStream(segments, last)
    requires stream.Some? && last.Some? && stream != last ==> segments == []
    ensures OneStream(segments, if stream.Some? then stream else last)
  {
  }

  lemma {:induction false} GaplessOne(segments: Batch, s: LiveSegment)
    requires Gapless(segments, s.sequence)
    ensures Gapless(segments + [s], s.sequence + 1)
  {
  }

  lemma {:induction false} SingleIfOne(segments: Batch, stream: Option<string>)
    requires OneStream(segments, stream)
    ensures SingleStream(segments)
  {
  }

  lemma {:induction false} OneMore(segments: Batch, s: LiveSegment, stream: Option<string>)
    requires OneStream(segments, stream) && (s.streamId.Some? ==> s.streamId == stream)
    ensures OneStream(segments + [s], stream)
  {
  }

  lemma {:induction false} FlatAdd(left: seq<Batch>, right: seq<Batch>)
    ensures Flat(left + right) == Flat(left) + Flat(right)
  {
    if right == [] {
      assert left + right == left;
    } else {
      var init, last := right[..|right| - 1], right[|right| - 1];
      assert left + right == (left + init) + [last];
      FlatOne(left + init, last);
      FlatAdd(left, init);
    }
  }

  lemma {:induction false} FlatHolds(batches: seq<Batch>, b: Batch)
    requires b in batches
    ensures forall s :: s in b ==> s in Flat(batches)
  {
    if b != batches[|batches| - 1] {
      FlatHolds(batches[..|batches| - 1], b);
    }
  }

  /** New batches that hold what was accumulated, and one more segment of the same stream. */
  lemma {:induction false} Seals(before: seq<Batch>, held: Batch, sealed: seq<Batch>, rest: Batch, s: LiveSegment,
                                 stream: Option<string>)
    requires Flat(sealed) + rest == held + [s] && OneStream(held + [s], stream)
    ensures Flat(before + sealed) + rest == Flat(before) + held + [s]
    ensures OneStream(rest, stream) && forall b :: b in sealed ==> SingleStream(b)
  {
    FlatAdd(before, sealed);
    assert Flat(before) + Flat(sealed) + rest == Flat(before) + (Flat(sealed) + rest);
    assert Flat(before) + (held + [s]) == Flat(before) + held + [s];
    assert forall x :: x in rest ==> x in Flat(sealed) + rest;
    forall b | b in sealed
      ensures SingleStream(b)
    {
      FlatHolds(sealed, b);
      assert forall x :: x in b ==> x in Flat(sealed) + rest;
      SingleIfOne(b, stream);
    }
  }
}
