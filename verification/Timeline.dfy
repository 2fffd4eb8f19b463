/** The recording ranges of the timeline: records clipped to a window and merged over small gaps. */
module Timeline {
  import opened Arithmetic

  /** A recording, or the part of it inside the window; times in microseconds. */
  datatype Clip = Clip(start: int, end: int, size: nat)

  datatype Range = Range(start: int, end: int, bytes: nat, records: nat)

  predicate Sorted(clips: seq<Clip>) {
    forall i, j :: 0 <= i < j < |clips| ==> clips[i].start <= clips[j].start
  }

  function Clipped(record: Clip, from: int, to: int): Clip {
    record.(start := Max(record.start, from), end := Min(record.end, to))
  }

  /** What is visible of the records. */
  function Visible(records: seq<Clip>, from: int, to: int): seq<Clip> {
    if records == [] then []
    else
      var init, clip := records[..|records| - 1], Clipped(records[|records| - 1], from, to);
      if clip.start < clip.end then Visible(init, from, to) + [clip] else Visible(init, from, to)
  }

  function Bytes(clips: seq<Clip>): nat {
    if clips == [] then 0 else Bytes(clips[..|clips| - 1]) + clips[|clips| - 1].size
  }

  function RangeBytes(ranges: seq<Range>): nat {
    if ranges == [] then 0 else RangeBytes(ranges[..|ranges| - 1]) + ranges[|ranges| - 1].bytes
  }

  function RangeRecords(ranges: seq<Range>): nat {
    if ranges == [] then 0 else RangeRecords(ranges[..|ranges| - 1]) + ranges[|ranges| - 1].records
  }

  // ---- What the ranges should be ------------------------------------------

  predicate Within(clip: Clip, r: Range) { r.start <= clip.start && clip.end <= r.end }

  predicate Overlaps(clip: Clip, from: int, to: int) { clip.start < to && clip.end > from }

  /** In order, not empty, and with more than the tolerance between them. */
  predicate Separated(ranges: seq<Range>, tolerance: nat) {
    && (forall i :: 0 <= i < |ranges| ==> ranges[i].start < ranges[i].end)
    && (forall i, j :: 0 <= i < j < |ranges| ==> ranges[j].start - ranges[i].end > tolerance)
  }

  predicate Covered(clip: Clip, ranges: seq<Range>) {
    exists r :: r in ranges && Within(clip, r)
  }

  predicate Covers(ranges: seq<Range>, clips: seq<Clip>) {
    forall c :: c in clips ==> Covered(c, ranges)
  }

  predicate HasFootage(clips: seq<Clip>, from: int, to: int) {
    exists c :: c in clips && Overlaps(c, from, to)
  }

  /** Any stretch of a range that is longer than the tolerance has footage in it. */
  ghost predicate Solid(r: Range, clips: seq<Clip>, tolerance: nat) {
    forall from, to :: r.start <= from && to <= r.end && to - from > tolerance ==> HasFootage(clips, from, to)
  }

  /** A range begins with footage and ends with footage. */
  predicate Tight(r: Range, clips: seq<Clip>) {
    (exists c :: c in clips && c.start == r.start) && (exists c :: c in clips && c.end == r.end)
  }

  ghost predicate AllFootage(ranges: seq<Range>, clips: seq<Clip>, tolerance: nat) {
    forall r :: r in ranges ==> Solid(r, clips, tolerance) && Tight(r, clips)
  }

  predicate CountsAll(ranges: seq<Range>, clips: seq<Clip>) {
    RangeBytes(ranges) == Bytes(clips) && RangeRecords(ranges) == |clips|
  }

  /** The clips that lie in a range. */
  function Inside(clips: seq<Clip>, r: Range): seq<Clip> {
    if clips == [] then []
    else
      var init, last := clips[..|clips| - 1], clips[|clips| - 1];
      if Within(last, r) then Inside(init, r) + [last] else Inside(init, r)
  }

  predicate CountsEach(ranges: seq<Range>, clips: seq<Clip>) {
    forall r :: r in ranges ==> r.bytes == Bytes(Inside(clips, r)) && r.records == |Inside(clips, r)|
  }

  ghost predicate Merged(clips: seq<Clip>, ranges: seq<Range>, tolerance: nat) {
    && Separated(ranges, tolerance)
    && Covers(ranges, clips)
    && AllFootage(ranges, clips, tolerance)
    && CountsEach(ranges, clips)
    && CountsAll(ranges, clips)
  }

  // ---- One more record ----------------------------------------------------

  function Grown(r: Range, c: Clip): Range {
    Range(r.start, Max(r.end, c.end), r.bytes + c.size, r.records + 1)
  }

  function Single(c: Clip): Range { Range(c.start, c.end, c.size, 1) }

  lemma {:induction false} SumsOfOne(ranges: seq<Range>, r: Range)
    ensures RangeBytes(ranges + [r]) == RangeBytes(ranges) + r.bytes
    ensures RangeRecords(ranges + [r]) == RangeRecords(ranges) + r.records
  {
    assert (ranges + [r])[..|ranges|] == ranges;
  }

  lemma {:induction false} BytesOfOne(clips: seq<Clip>, c: Clip)
    ensures Bytes(clips + [c]) == Bytes(clips) + c.size
  {
    assert (clips + [c])[..|clips|] == clips;
  }

  lemma {:induction false} FootageStays(clips: seq<Clip>, c: Clip, from: int, to: int)
    requires HasFootage(clips, from, to)
    ensures HasFootage(clips + [c], from, to)
  {
    var x :| x in clips && Overlaps(x, from, to);
    assert x in clips + [c];
  }

  lemma {:induction false} SolidStays(r: Range, clips: seq<Clip>, c: Clip, tolerance: nat)
    requires Solid(r, clips, tolerance) && Tight(r, clips)
    ensures Solid(r, clips + [c], tolerance) && Tight(r, clips + [c])
  {
    forall from, to | r.start <= from && to <= r.end && to - from > tolerance
      ensures HasFootage(clips + [c], from, to)
    {
      FootageStays(clips, c, from, to);
    }
    var x :| x in clips && x.start == r.start;
    assert x in clips + [c];
    var y :| y in clips && y.end == r.end;
    assert y in clips + [c];
  }

  /** A record that begins within the tolerance of a solid range's end leaves it solid. */
  lemma {:induction false} SolidGrows(r: Range, clips: seq<Clip>, c: Clip, tolerance: nat)
    requires Solid(r, clips, tolerance) && Tight(r, clips)
    requires forall x :: x in clips ==> x.start < x.end
    requires c.start < c.end && r.start <= c.start <= r.end + tolerance
    ensures Solid(Grown(r, c), clips + [c], tolerance) && Tight(Grown(r, c), clips + [c])
  {
    var grown := Grown(r, c);
    SolidStays(r, clips, c, tolerance);
    var last :| last in clips && last.end == r.end;
    assert last in clips + [c] && c in clips + [c];
    forall from, to | grown.start <= from && to <= grown.end && to - from > tolerance
      ensures HasFootage(clips + [c], from, to)
    {
      if to <= r.end {
        FootageStays(clips, c, from, to);
      } else if from >= r.end {
        assert Overlaps(c, from, to);
      } else {
        assert Overlaps(last, from, to);
      }
    }
  }

  lemma {:induction false} StartsBefore(clips: seq<Clip>, r: Range, c: Clip)
    requires Sorted(clips + [c]) && Tight(r, clips)
    ensures r.start <= c.start
  {
    var x :| x in clips && x.start == r.start;
    var i :| 0 <= i < |clips| && clips[i] == x;
    assert (clips + [c])[i].start <= (clips + [c])[|clips|].start;
  }

  /** `last` may be the new last range after `init` if it takes in all that the old one did. */
  lemma {:induction false} CoverGrows(init: seq<Range>, before: seq<Range>, r: Range, clips: seq<Clip>, c: Clip)
    requires Covers(init + before, clips) && Within(c, r)
    requires forall q, x :: q in before && x in clips && Within(x, q) ==> Within(x, r)
    ensures Covers(init + [r], clips + [c])
  {
    hide Within;
    assert r in init + [r];
    forall x | x in clips + [c]
      ensures Covered(x, init + [r])
    {
      if x in clips {
        assert Covered(x, init + before);
        var q :| q in init + before && Within(x, q);
        if q in init {
          assert q in init + [r];
        }
      }
    }
  }

  lemma {:induction false} FootageGrows(init: seq<Range>, r: Range, clips: seq<Clip>, c: Clip, tolerance: nat)
    requires AllFootage(init, clips, tolerance)
    requires Solid(r, clips + [c], tolerance) && Tight(r, clips + [c])
    ensures AllFootage(init + [r], clips + [c], tolerance)
  {
    forall q | q in init + [r]
      ensures Solid(q, clips + [c], tolerance) && Tight(q, clips + [c])
    {
      if q in init {
        SolidStays(q, clips, c, tolerance);
      }
    }
  }

  lemma {:induction false} SeparatedGrows(init: seq<Range>, r: Range, tolerance: nat)
    requires Separated(init, tolerance) && r.start < r.end
    requires forall q :: q in init ==> r.start - q.end > tolerance
    ensures Separated(init + [r], tolerance)
  {
  }

  lemma {:induction false} InsideOne(clips: seq<Clip>, c: Clip, r: Range)
    ensures Inside(clips + [c], r) == if Within(c, r) then Inside(clips, r) + [c] else Inside(clips, r)
  {
    assert (clips + [c])[..|clips|] == clips;
  }

  lemma {:induction false} InsideSame(clips: seq<Clip>, q: Range, r: Range)
    requires forall x :: x in clips ==> (Within(x, q) <==> Within(x, r))
    ensures Inside(clips, q) == Inside(clips, r)
  {
    if clips != [] {
      var init, last := clips[..|clips| - 1], clips[|clips| - 1];
      assert last in clips;
      InsideSame(init, q, r);
    }
  }

  lemma {:induction false} NoneInside(clips: seq<Clip>, r: Range)
    requires forall x :: x in clips ==> !Within(x, r)
    ensures Inside(clips, r) == []
  {
    if clips != [] {
      assert clips[|clips| - 1] in clips;
      NoneInside(clips[..|clips| - 1], r);
    }
  }

  /** Clips that end before a range begins are not in it, and one that begins later is not in
      those. */
  lemma {:induction false} CountsGrow(init: seq<Range>, r: Range, clips: seq<Clip>, c: Clip)
    requires CountsEach(init, clips) && Within(c, r) && c.start < c.end
    requires forall q :: q in init ==> q.end < c.end
    requires r.bytes == Bytes(Inside(clips, r)) + c.size && r.records == |Inside(clips, r)| + 1
    ensures CountsEach(init + [r], clips + [c])
  {
    InsideOne(clips, c, r);
    BytesOfOne(Inside(clips, r), c);
    forall q | q in init + [r]
      ensures q.bytes == Bytes(Inside(clips + [c], q)) && q.records == |Inside(clips + [c], q)|
    {
      if q in init {
        InsideOne(clips, c, q);
      }
    }
  }

  /** A range that takes over from the last one holds the same of the clips so far. */
  lemma {:induction false} LastHolds(init: seq<Range>, last: Range, clips: seq<Clip>, grown: Range, tolerance: nat)
    requires Covers(init + [last], clips) && (forall x :: x in clips ==> x.start < x.end)
    requires forall q :: q in init ==> last.start - q.end > tolerance
    requires grown.start == last.start && grown.end >= last.end
    ensures Inside(clips, grown) == Inside(clips, last)
  {
    forall x | x in clips
      ensures Within(x, last) <==> Within(x, grown)
    {
      assert Covered(x, init + [last]);
    }
    InsideSame(clips, last, grown);
  }

  /** Nothing so far lies in a range that begins after all others. */
  lemma {:induction false} NewHoldsNone(ranges: seq<Range>, clips: seq<Clip>, r: Range, tolerance: nat)
    requires Covers(ranges, clips) && (forall x :: x in clips ==> x.start < x.end)
    requires forall q :: q in ranges ==> r.start - q.end > tolerance
    ensures Inside(clips, r) == []
  {
    forall x | x in clips
      ensures !Within(x, r)
    {
      assert Covered(x, ranges);
    }
    NoneInside(clips, r);
  }

  lemma {:induction false} Extends(clips: seq<Clip>, init: seq<Range>, last: Range, c: Clip, tolerance: nat)
    requires Merged(clips, init + [last], tolerance) && Sorted(clips + [c])
    requires forall x :: x in clips + [c] ==> x.start < x.end
    requires c.start - last.end <= tolerance
    ensures Merged(clips + [c], init + [Grown(last, c)], tolerance)
  {
    hide Solid, Tight, Covers, RangeBytes, RangeRecords, Bytes, Sorted, Inside;
    var grown := Grown(last, c);
    assert last in init + [last];
    assert forall q :: q in init ==> q in init + [last];
    SumsOfOne(init, last);
    SumsOfOne(init, grown);
    BytesOfOne(clips, c);
    StartsBefore(clips, last, c);
    assert c in clips + [c] && forall x :: x in clips ==> x in clips + [c];
    SolidGrows(last, clips, c, tolerance);
    FootageGrows(init, grown, clips, c, tolerance);
    CoverGrows(init, [last], grown, clips, c);
    LastSeparated(init, last, tolerance);
    SeparatedGrows(init, grown, tolerance);
    LastHolds(init, last, clips, grown, tolerance);
    CountsGrow(init, grown, clips, c);
  }

  lemma {:induction false} LastSeparated(init: seq<Range>, last: Range, tolerance: nat)
    requires Separated(init + [last], tolerance)
    ensures Separated(init, tolerance) && last.start < last.end
    ensures forall q :: q in init ==> last.start - q.end > tolerance
  {
    var all := init + [last];
    assert all[|init|] == last;
    assert forall i :: 0 <= i < |init| ==> all[i] == init[i];
  }

  lemma {:induction false} Begins(clips: seq<Clip>, ranges: seq<Range>, c: Clip, tolerance: nat)
    requires Merged(clips, ranges, tolerance)
    requires forall x :: x in clips + [c] ==> x.start < x.end
    requires ranges != [] ==> c.start - ranges[|ranges| - 1].end > tolerance
    ensures Merged(clips + [c], ranges + [Single(c)], tolerance)
  {
    hide Covers, RangeBytes, RangeRecords, Bytes, Inside;
    SumsOfOne(ranges, Single(c));
    BytesOfOne(clips, c);
    assert c in clips + [c] && forall x :: x in clips ==> x in clips + [c];
    assert forall from, to :: c.start <= from && to <= c.end && to - from > tolerance ==>
          HasFootage(clips + [c], from, to) by {
      forall from, to | c.start <= from && to <= c.end && to - from > tolerance
        ensures HasFootage(clips + [c], from, to)
      {
        assert Overlaps(c, from, to);
      }
    }
    hide Solid, Tight;
    FootageGrows(ranges, Single(c), clips, c, tolerance);
    assert ranges + [] == ranges;
    CoverGrows(ranges, [], Single(c), clips, c);
    BeforeLast(ranges, c.start, tolerance);
    SeparatedGrows(ranges, Single(c), tolerance);
    NewHoldsNone(ranges, clips, Single(c), tolerance);
    NoBytes();
    CountsGrow(ranges, Single(c), clips, c);
  }

  lemma {:induction false} NoBytes()
    ensures Bytes([]) == 0
  {
  }

  lemma {:induction false} BeforeLast(ranges: seq<Range>, start: int, tolerance: nat)
    requires Separated(ranges, tolerance)
    requires ranges != [] ==> start - ranges[|ranges| - 1].end > tolerance
    ensures forall q :: q in ranges ==> start - q.end > tolerance
  {
    if ranges != [] {
      var init, last := ranges[..|ranges| - 1], ranges[|ranges| - 1];
      assert ranges == init + [last];
      LastSeparated(init, last, tolerance);
    }
  }

  // ---- What is visible ----------------------------------------------------

  predicate At(c: Clip, t: int) { c.start <= t < c.end }

  /** Some instant of the record lies in the window. */
  ghost predicate Shows(record: Clip, from: int, to: int) {
    exists t :: At(record, t) && from <= t < to
  }

  /** The records of which something can be seen. */
  ghost function Shown(records: seq<Clip>, from: int, to: int): seq<Clip> {
    if records == [] then []
    else
      var init, last := records[..|records| - 1], records[|records| - 1];
      Shown(init, from, to) + if Shows(last, from, to) then [last] else []
  }

  lemma {:induction false} ClippedIsShown(record: Clip, from: int, to: int)
    ensures var clip := Clipped(record, from, to);
            && (clip.start < clip.end <==> Shows(record, from, to))
            && clip.size == record.size
            && forall t :: At(clip, t) <==> At(record, t) && from <= t < to
  {
    var clip := Clipped(record, from, to);
    if clip.start < clip.end {
      assert At(record, clip.start);
    }
  }

  /** Each visible clip has the size of its record, and of its instants exactly those in the window;
      no record with an instant there is left out. */
  lemma {:induction false} VisibleIsTheWindow(records: seq<Clip>, from: int, to: int)
    ensures var clips, shown := Visible(records, from, to), Shown(records, from, to);
            && |clips| == |shown|
            && forall i :: 0 <= i < |clips| ==>
                 && clips[i].size == shown[i].size
                 && forall t :: At(clips[i], t) <==> At(shown[i], t) && from <= t < to
  {
    hide At, Shows, Clipped;
    if records != [] {
      VisibleIsTheWindow(records[..|records| - 1], from, to);
      ClippedIsShown(records[|records| - 1], from, to);
    }
  }

  // ---- The loop -----------------------------------------------------------

  lemma {:induction false} VisibleOne(records: seq<Clip>, record: Clip, from: int, to: int)
    ensures var clip := Clipped(record, from, to);
            Visible(records + [record], from, to) ==
              if clip.start < clip.end then Visible(records, from, to) + [clip] else Visible(records, from, to)
  {
    assert (records + [record])[..|records|] == records;
  }

  /** What is visible of records that begin no later than `latest`. */
  lemma {:induction false} VisibleIsInside(records: seq<Clip>, from: int, to: int, latest: int)
    requires forall r :: r in records ==> r.start <= latest
    ensures forall c :: c in Visible(records, from, to) ==>
              from <= c.start < c.end <= to && c.start <= Max(latest, from)
  {
    if records != [] {
      var init, last := records[..|records| - 1], records[|records| - 1];
      assert last in records;
      VisibleIsInside(init, from, to, latest);
    }
  }

  lemma {:induction false} SortedGrows(clips: seq<Clip>, c: Clip)
    requires Sorted(clips) && forall x :: x in clips ==> x.start <= c.start
    ensures Sorted(clips + [c])
  {
  }

  lemma {:induction false} LatestStart(records: seq<Clip>)
    requires Sorted(records) && records != []
    ensures forall r :: r in records ==> r.start <= records[|records| - 1].start
  {
  }

  /** Clipping keeps the order; what is visible is not empty, and inside the window. */
  lemma {:induction false} VisibleIsSorted(records: seq<Clip>, from: int, to: int)
    requires Sorted(records)
    ensures Sorted(Visible(records, from, to))
    ensures forall c :: c in Visible(records, from, to) ==> from <= c.start < c.end <= to
  {
    if records != [] {
      var init, last := records[..|records| - 1], records[|records| - 1];
      PrefixSorted(records, |records| - 1);
      VisibleIsSorted(init, from, to);
      LatestStart(records);
      assert forall r :: r in init ==> r in records;
      VisibleIsInside(init, from, to, last.start);
      VisibleIsInside(records, from, to, last.start);
      hide Sorted;
      if Clipped(last, from, to).start < Clipped(last, from, to).end {
        SortedGrows(Visible(init, from, to), Clipped(last, from, to));
      }
    }
  }

  /** The merge loop. The ranges are in order, lie in the window with more than the tolerance between
      them, cover all that is visible of the records, begin and end with footage, have no hole longer
      than the tolerance, and count the records in them and their bytes, each record once. */
  method RecordingRanges(records: seq<Clip>, from: int, to: int, tolerance: nat) returns (ranges: seq<Range>)
    requires Sorted(records)
    ensures Merged(Visible(records, from, to), ranges, tolerance)
    ensures forall r :: r in ranges ==> from <= r.start < r.end <= to
  {
    hide Visible, Merged, Sorted, Clipped;
    ranges := [];
    NothingMerged(records[..0], from, to, tolerance);
    for i := 0 to |records|
      invariant Merged(Visible(records[..i], from, to), ranges, tolerance)
    {
      var clip := Clipped(records[i], from, to);
      ghost var before := Visible(records[..i], from, to);
      assert records[..i + 1] == records[..i] + [records[i]];
      VisibleOne(records[..i], records[i], from, to);
      PrefixSorted(records, i + 1);
      VisibleIsSorted(records[..i + 1], from, to);
      if clip.start >= clip.end {
        continue;
      }
      if ranges != [] && clip.start - ranges[|ranges| - 1].end <= tolerance {
        var n := |ranges| - 1;
        var last := ranges[n];
        assert ranges == ranges[..n] + [last];
        Extends(before, ranges[..n], last, clip, tolerance);
        ranges := ranges[n := Range(last.start, Max(last.end, clip.end), last.bytes + clip.size, last.records + 1)];
        assert ranges == ranges[..n] + [Grown(last, clip)];
      } else {
        Begins(before, ranges, clip, tolerance);
        ranges := ranges + [Range(clip.start, clip.end, clip.size, 1)];
      }
    }
    assert records[..|records|] == records;
    VisibleIsSorted(records, from, to);
    InWindow(Visible(records, from, to), ranges, from, to, tolerance);
  }

  lemma {:induction false} NothingMerged(records: seq<Clip>, from: int, to: int, tolerance: nat)
    requires records == []
    ensures Merged(Visible(records, from, to), [], tolerance)
  {
  }

  lemma {:induction false} PrefixSorted(records: seq<Clip>, i: nat)
    requires Sorted(records) && i <= |records|
    ensures Sorted(records[..i])
  {
  }

  lemma {:induction false} InWindow(clips: seq<Clip>, ranges: seq<Range>, from: int, to: int, tolerance: nat)
    requires Merged(clips, ranges, tolerance)
    requires forall c :: c in clips ==> from <= c.start && c.end <= to
    ensures forall r :: r in ranges ==> from <= r.start < r.end <= to
  {
    hide Solid, Covers, CountsAll, CountsEach;
    forall r | r in ranges
      ensures from <= r.start < r.end <= to
    {
      assert Tight(r, clips);
      var i :| 0 <= i < |ranges| && ranges[i] == r;
      assert ranges[i].start < ranges[i].end;
    }
  }
}
