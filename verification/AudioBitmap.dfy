/** The sound-activity bitmap carried in an archive file name. */
module AudioBitmap {
  import opened Arithmetic

  // Clip durations are in microseconds, the resolution of the playlists they come from; the
  // name carries milliseconds and the bitmap's slots are whole seconds.
  const MICROS := 1_000_000
  const MAX_SLOTS := 128

  /** One media segment: how long it is, whether its sound was measured, and whether it is loud. */
  datatype Clip = Clip(duration: nat, measured: bool, active: bool)

  /** Playlist durations are at least a millisecond. */
  ghost predicate Playable(clips: seq<Clip>) {
    forall k :: 0 <= k < |clips| ==> clips[k].duration >= 1000
  }

  function CeilDiv(a: nat, b: nat): nat
    requires b > 0
  {
    (a + b - 1) / b
  }

  lemma {:induction false} CeilDivIs(a: nat, b: nat, q: nat)
    requires b > 0
    ensures CeilDiv(a, b) <= q <==> a <= q * b
  {
    var c := CeilDiv(a, b);
    assert a + b - 1 == c * b + (a + b - 1) % b;
    if c <= q { MulAtMost(c, q, b); }
    if q < c { MulAtMost(q, c - 1, b); assert (c - 1) * b == c * b - b; }
  }

  lemma {:induction false} MulAtMost(a: int, b: int, c: nat)
    requires a <= b
    ensures a * c <= b * c
  {
  }

  function Total(clips: seq<Clip>): nat {
    if clips == [] then 0 else Total(clips[..|clips| - 1]) + clips[|clips| - 1].duration
  }

  function Offset(clips: seq<Clip>, k: nat): nat
    requires k <= |clips|
  {
    Total(clips[..k])
  }

  lemma {:induction false} OffsetStep(clips: seq<Clip>, k: nat)
    requires k < |clips|
    ensures Offset(clips, k + 1) == Offset(clips, k) + clips[k].duration
  {
    assert clips[..k + 1][..k] == clips[..k];
  }

  lemma {:induction false} OffsetInside(clips: seq<Clip>, k: nat)
    requires k <= |clips|
    ensures Offset(clips, k) <= Total(clips)
    decreases |clips| - k
  {
    if k < |clips| {
      OffsetStep(clips, k);
      OffsetInside(clips, k + 1);
    } else {
      assert clips[..k] == clips;
    }
  }

  // ---- Encoding -----------------------------------------------------------

  /** Seconds per slot. */
  function Step(total: nat): (step: nat)
    ensures step >= 1
  {
    Max(1, CeilDiv(total, MAX_SLOTS * MICROS))
  }

  function SlotCount(total: nat, step: nat): (n: nat)
    requires step >= 1
    ensures n >= 1
  {
    Max(1, CeilDiv(total, step * MICROS))
  }

  /** However long the batch, its bitmap has at most 128 slots, and they span the batch. */
  lemma {:induction false} SlotBound(total: nat)
    ensures SlotCount(total, Step(total)) <= MAX_SLOTS
    ensures total <= SlotCount(total, Step(total)) * (Step(total) * MICROS)
  {
    var step := Step(total);
    CeilDivIs(total, MAX_SLOTS * MICROS, step);
    CeilDivIs(total, step * MICROS, MAX_SLOTS);
    CeilDivIs(total, step * MICROS, SlotCount(total, step));
  }

  /** The step is the least with which 128 slots are enough. */
  lemma {:induction false} StepIsLeast(total: nat, step: nat)
    requires step >= 1
    ensures SlotCount(total, step) <= MAX_SLOTS <==> step >= Step(total)
  {
    CeilDivIs(total, MAX_SLOTS * MICROS, step);
    CeilDivIs(total, step * MICROS, MAX_SLOTS);
    hide CeilDiv;
  }

  /** The active clip k shares time with slot i. */
  predicate Sounds(clips: seq<Clip>, step: nat, k: nat, i: nat)
    requires k < |clips|
  {
    && clips[k].active
    && Offset(clips, k) < (i + 1) * (step * MICROS)
    && i * (step * MICROS) < Offset(clips, k) + clips[k].duration
  }

  predicate Marked(clips: seq<Clip>, step: nat, i: nat, upTo: nat)
    requires upTo <= |clips|
  {
    exists k :: 0 <= k < upTo && Sounds(clips, step, k, i)
  }

  function Marks(clips: seq<Clip>): (marks: seq<bool>)
    ensures |marks| == SlotCount(Total(clips), Step(Total(clips)))
  {
    seq(SlotCount(Total(clips), Step(Total(clips))), i requires 0 <= i => Marked(clips, Step(Total(clips)), i, |clips|))
  }

  /** The slots a clip touches: the interval that the encoder computes by rounding. */
  lemma {:induction false} TouchedSlots(offset: nat, duration: nat, s: nat, i: nat)
    requires s > 0
    ensures offset / s <= i && i < CeilDiv(offset + duration, s)
       <==> offset < (i + 1) * s && i * s < offset + duration
  {
    CeilDivIs(offset + duration, s, i);
    assert offset == offset / s * s + offset % s;
    if offset / s <= i { MulAtMost(offset / s + 1, i + 1, s); assert (offset / s + 1) * s == offset / s * s + s; }
    if i < offset / s { MulAtMost(i + 1, offset / s, s); }
  }

  /** The slots from `first` to before `end` that the encoder marks for clip k. */
  lemma {:induction false} ClipSlots(clips: seq<Clip>, step: nat, k: nat, first: nat, end: nat, slotCount: nat)
    requires step >= 1 && k < |clips| && clips[k].active
    requires first == Offset(clips, k) / (step * MICROS)
    requires end == Min(slotCount, CeilDiv(Offset(clips, k) + clips[k].duration, step * MICROS))
    ensures forall i :: 0 <= i < slotCount ==> (first <= i < end <==> Sounds(clips, step, k, i))
  {
    hide Offset, CeilDiv;
    forall i | 0 <= i < slotCount
      ensures first <= i < end <==> Sounds(clips, step, k, i)
    {
      TouchedSlots(Offset(clips, k), clips[k].duration, step * MICROS, i);
    }
  }

  lemma {:induction false} MarkedStep(clips: seq<Clip>, step: nat, k: nat, slotCount: nat)
    requires k < |clips|
    ensures forall i :: 0 <= i < slotCount ==>
              (Marked(clips, step, i, k + 1) <==> Marked(clips, step, i, k) || Sounds(clips, step, k, i))
  {
    hide Sounds;
  }

  /** Marks exactly the slots that share time with an active clip. */
  method FillSlots(clips: seq<Clip>) returns (step: nat, marks: seq<bool>)
    ensures step == Step(Total(clips)) && marks == Marks(clips)
  {
    hide Total, Offset, CeilDiv, Step, SlotCount, Sounds, Marked, Marks, MarksSoFar;
    var total := Total(clips);
    step := Step(total);
    var slotCount := SlotCount(total, step);
    var active := new bool[slotCount](_ => false);
    var offset := 0;
    NoMarks(clips, step, active[..]);
    for k := 0 to |clips|
      invariant offset == Offset(clips, k)
      invariant MarksSoFar(clips, step, k, active[..])
    {
      OffsetStep(clips, k);
      ghost var before := active[..];
      var first, end := 0, 0;
      if clips[k].active {
        first := offset / (step * MICROS);
        end := Min(slotCount, CeilDiv(offset + clips[k].duration, step * MICROS));
        MarkRange(active, first, end);
      }
      NextMarks(clips, step, k, before, active[..], first, end);
      offset := offset + clips[k].duration;
    }
    marks := active[..];
    AllMarks(clips, marks);
  }

  /** Slot by slot, the marks of the first k clips. */
  ghost predicate MarksSoFar(clips: seq<Clip>, step: nat, k: nat, marks: seq<bool>)
    requires k <= |clips|
  {
    forall i :: 0 <= i < |marks| ==> marks[i] == Marked(clips, step, i, k)
  }

  lemma {:induction false} NextMarks(clips: seq<Clip>, step: nat, k: nat, before: seq<bool>, after: seq<bool>,
                                     first: nat, end: nat)
    requires step >= 1 && k < |clips| && MarksSoFar(clips, step, k, before) && |after| == |before|
    requires forall i :: 0 <= i < |after| ==> after[i] == (before[i] || first <= i < end)
    requires clips[k].active ==>
               && first == Offset(clips, k) / (step * MICROS)
               && end == Min(|before|, CeilDiv(Offset(clips, k) + clips[k].duration, step * MICROS))
    requires !clips[k].active ==> first == end
    ensures MarksSoFar(clips, step, k + 1, after)
  {
    hide Offset, CeilDiv, Sounds, Marked;
    MarkedStep(clips, step, k, |before|);
    if clips[k].active {
      ClipSlots(clips, step, k, first, end, |before|);
    } else {
      SilentClip(clips, step, k);
    }
  }

  lemma {:induction false} AllMarks(clips: seq<Clip>, marks: seq<bool>)
    requires |marks| == SlotCount(Total(clips), Step(Total(clips)))
    requires MarksSoFar(clips, Step(Total(clips)), |clips|, marks)
    ensures marks == Marks(clips)
  {
    hide Total, Step, SlotCount, Marked;
  }

  lemma {:induction false} NoMarks(clips: seq<Clip>, step: nat, marks: seq<bool>)
    requires forall i :: 0 <= i < |marks| ==> !marks[i]
    ensures Offset(clips, 0) == 0
    ensures MarksSoFar(clips, step, 0, marks)
  {
  }

  lemma {:induction false} SilentClip(clips: seq<Clip>, step: nat, k: nat)
    requires k < |clips| && !clips[k].active
    ensures forall i :: !Sounds(clips, step, k, i)
  {
  }

  /** The encoder's inner loop. */
  method MarkRange(active: array<bool>, first: nat, end: nat)
    requires end <= active.Length
    modifies active
    ensures forall j :: 0 <= j < active.Length ==> active[j] == (old(active[j]) || first <= j < end)
  {
    for i := first to Max(first, end)
      invariant forall j :: 0 <= j < active.Length ==> active[j] == (old(active[j]) || first <= j < i)
    {
      active[i] := true;
    }
  }

  // ---- The bitmap as a number ---------------------------------------------

  function BitsValue(bits: seq<bool>): nat {
    if bits == [] then 0 else BitsValue(bits[..|bits| - 1]) * 2 + if bits[|bits| - 1] then 1 else 0
  }

  /** The last n binary digits of v, zero-filled. */
  function BitsOf(v: nat, n: nat): (bits: seq<bool>)
    ensures |bits| == n
  {
    if n == 0 then [] else BitsOf(v / 2, n - 1) + [v % 2 == 1]
  }

  /** Reading back no more digits than were written keeps the last ones. */
  lemma {:induction false} BitsRoundTrip(bits: seq<bool>, n: nat)
    requires n <= |bits|
    ensures BitsOf(BitsValue(bits), n) == bits[|bits| - n..]
  {
    if n > 0 {
      var init := bits[..|bits| - 1];
      BitsRoundTrip(init, n - 1);
      assert BitsValue(bits) / 2 == BitsValue(init);
      assert bits[|bits| - n..] == init[|init| - (n - 1)..] + [bits[|bits| - 1]];
    }
  }

  // ---- Decoding -----------------------------------------------------------

  /** The duration in the name: Python's round, half to even. */
  function RoundMillis(micros: nat): nat {
    var q, r := micros / 1000, micros % 1000;
    if r < 500 then q else if r > 500 then q + 1 else if q % 2 == 0 then q else q + 1
  }

  function DecodedSlotCount(millis: nat, step: nat): nat
    requires step >= 1
  {
    Max(1, CeilDiv(millis, step * 1000))
  }

  /** Rounding the duration loses the last slot exactly when it rounds down to a slot boundary. */
  ghost predicate LosesSlot(total: nat, step: nat) {
    && step >= 1
    && 0 < RoundMillis(total) * 1000 < total
    && RoundMillis(total) % (step * 1000) == 0
  }

  lemma {:induction false} RoundNear(micros: nat)
    ensures micros <= RoundMillis(micros) * 1000 + 500 && RoundMillis(micros) * 1000 <= micros + 500
    ensures micros == RoundMillis(micros) * 1000 + 500 || micros + 500 == RoundMillis(micros) * 1000 ==>
              RoundMillis(micros) % 2 == 0
  {
  }

  /** Slot counts of the exact duration and of the rounded one, for slots of s milliseconds. */
  lemma {:induction false} RoundedCount(total: nat, millis: nat, s: nat)
    requires s > 0 && total <= millis * 1000 + 500 && millis * 1000 <= total + 500
    ensures CeilDiv(total, s * 1000)
         == CeilDiv(millis, s) + if millis * 1000 < total && millis % s == 0 then 1 else 0
  {
    var m := CeilDiv(millis, s);
    CeilDivIs(millis, s, m);
    MultipleOrNot(millis, s, m);
    var bound := m * s;
    assert m * (s * 1000) == bound * 1000 && (m + 1) * (s * 1000) == bound * 1000 + s * 1000;
    CeilDivIs(total, s * 1000, m);
    CeilDivIs(total, s * 1000, m + 1);
    if m > 0 {
      CeilDivIs(millis, s, m - 1);
      assert (m - 1) * s == bound - s && (m - 1) * (s * 1000) == bound * 1000 - s * 1000;
      CeilDivIs(total, s * 1000, m - 1);
    }
  }

  /** The decoder's slot count is the encoder's, but for a slot lost to rounding. */
  lemma {:induction false} SlotCountsAgree(total: nat, step: nat)
    requires step >= 1
    ensures SlotCount(total, step)
         == DecodedSlotCount(RoundMillis(total), step) + if LosesSlot(total, step) then 1 else 0
  {
    var millis, s := RoundMillis(total), step * 1000;
    RoundNear(total);
    assert step * MICROS == s * 1000;
    RoundedCount(total, millis, s);
    CeilDivIs(millis, s, 0);
    hide RoundMillis, CeilDiv;
  }

  lemma {:induction false} MultipleOrNot(a: nat, s: nat, m: nat)
    requires s > 0 && m == CeilDiv(a, s)
    ensures a % s == 0 <==> a == m * s
  {
    assert a == a / s * s + a % s;
    CeilDivIs(a, s, a / s);
    if m > 0 {
      CeilDivIs(a, s, m - 1);
      if a % s == 0 && m < a / s { MulAtMost(m, a / s - 1, s); }
    }
    if a == m * s { assert a % s == 0 by { ModMultiple(m, s); } }
  }

  lemma {:induction false} ModMultiple(m: nat, s: nat)
    requires s > 0
    ensures m * s % s == 0
  {
    var q, r := m * s / s, m * s % s;
    assert r == (m - q) * s;
    if m - q >= 1 { MulAtMost(1, m - q, s); } else { MulAtMost(m - q, 0, s); }
  }

  /** A stretch of sound on the decoded timeline, in milliseconds. */
  datatype Point = Point(offset: nat, length: nat)

  function PointAt(i: nat, step: nat, millis: nat): Point
    requires i * (step * 1000) < millis
  {
    Point(i * (step * 1000), Min(step * 1000, Max(1, millis - i * (step * 1000))))
  }

  predicate Shown(bits: seq<bool>, step: nat, millis: nat, i: nat) {
    i < |bits| && bits[i] && i * (step * 1000) < millis
  }

  function PointsFrom(bits: seq<bool>, step: nat, millis: nat, i: nat): seq<Point>
    decreases |bits| - i
  {
    if i >= |bits| then []
    else (if Shown(bits, step, millis, i) then [PointAt(i, step, millis)] else [])
          + PointsFrom(bits, step, millis, i + 1)
  }

  /** The activity points that a timeline reads out of a name's bitmap. */
  function DecodePoints(value: nat, step: nat, millis: nat): seq<Point>
    requires step >= 1
  {
    PointsFrom(BitsOf(value, DecodedSlotCount(millis, step)), step, millis, 0)
  }

  lemma {:induction false} PointsFromAre(bits: seq<bool>, step: nat, millis: nat, i: nat)
    ensures forall j :: i <= j && Shown(bits, step, millis, j) ==>
              PointAt(j, step, millis) in PointsFrom(bits, step, millis, i)
    ensures forall p :: p in PointsFrom(bits, step, millis, i) ==>
              exists j :: i <= j && Shown(bits, step, millis, j) && p == PointAt(j, step, millis)
    decreases |bits| - i
  {
    if i < |bits| {
      PointsFromAre(bits, step, millis, i + 1);
      hide PointAt;
      var rest := PointsFrom(bits, step, millis, i + 1);
      forall j | i <= j && Shown(bits, step, millis, j)
        ensures PointAt(j, step, millis) in PointsFrom(bits, step, millis, i)
      {
        if j > i { assert PointAt(j, step, millis) in rest; }
      }
    }
  }

  /** Points from `from` on that come in order, do not overlap, and stay inside the recording. */
  predicate Orderly(points: seq<Point>, from: nat, millis: nat) {
    && (forall a :: 0 <= a < |points| ==> from <= points[a].offset && points[a].offset + points[a].length <= millis)
    && (forall a, b :: 0 <= a < b < |points| ==> points[a].offset + points[a].length <= points[b].offset)
  }

  lemma {:induction false} OrderlyCons(p: Point, rest: seq<Point>, from: nat, next: nat, millis: nat)
    requires Orderly(rest, next, millis)
    requires from <= p.offset && p.offset + p.length <= next && p.offset + p.length <= millis
    ensures Orderly([p] + rest, from, millis)
  {
    var points := [p] + rest;
    assert forall a :: 1 <= a < |points| ==> points[a] == rest[a - 1];
  }

  lemma {:induction false} PointsAreOrderly(bits: seq<bool>, step: nat, millis: nat, i: nat)
    requires step >= 1
    ensures Orderly(PointsFrom(bits, step, millis, i), i * (step * 1000), millis)
    decreases |bits| - i
  {
    if i < |bits| {
      hide PointAt;
      PointsAreOrderly(bits, step, millis, i + 1);
      var from, next := i * (step * 1000), (i + 1) * (step * 1000);
      assert next == from + step * 1000;
      var rest := PointsFrom(bits, step, millis, i + 1);
      if Shown(bits, step, millis, i) {
        PointSpan(i, step, millis);
        OrderlyCons(PointAt(i, step, millis), rest, from, next, millis);
      } else {
        assert PointsFrom(bits, step, millis, i) == rest;
      }
    }
  }

  lemma {:induction false} PointSpan(i: nat, step: nat, millis: nat)
    requires step >= 1 && i * (step * 1000) < millis
    ensures var p := PointAt(i, step, millis);
            && i * (step * 1000) <= p.offset
            && p.offset + p.length <= (i + 1) * (step * 1000) && p.offset + p.length <= millis
  {
    assert (i + 1) * (step * 1000) == i * (step * 1000) + step * 1000;
  }

  /** What is decoded from the encoder's bitmap: the marks themselves, or, when rounding loses a
      slot, every mark but the first, one slot too early. */
  lemma {:induction false} BitmapRoundTrip(clips: seq<Clip>)
    ensures var total := Total(clips);
            var n := DecodedSlotCount(RoundMillis(total), Step(total));
            BitsOf(BitsValue(Marks(clips)), n)
            == if LosesSlot(total, Step(total)) then Marks(clips)[1..] else Marks(clips)
  {
    var total := Total(clips);
    SlotCountsAgree(total, Step(total));
    BitsRoundTrip(Marks(clips), DecodedSlotCount(RoundMillis(total), Step(total)));
  }

  ghost function MarkedSlots(bits: seq<bool>): set<nat> {
    set i: nat | i < |bits| && bits[i]
  }

  predicate Silent(clips: seq<Clip>) {
    forall k :: 0 <= k < |clips| ==> !clips[k].active
  }

  /** The decoded slots are the encoded ones exactly when no slot is lost or none is marked; with
      the durations that occur, none is marked exactly when no clip is active. */
  lemma {:induction false} BitmapSurvives(clips: seq<Clip>)
    ensures var total := Total(clips);
            var n := DecodedSlotCount(RoundMillis(total), Step(total));
            MarkedSlots(BitsOf(BitsValue(Marks(clips)), n)) == MarkedSlots(Marks(clips))
            <==> !LosesSlot(total, Step(total)) || MarkedSlots(Marks(clips)) == {}
    ensures Playable(clips) ==> (MarkedSlots(Marks(clips)) == {} <==> Silent(clips))
  {
    var marks := Marks(clips);
    BitmapRoundTrip(clips);
    if Playable(clips) { SilentMarks(clips); }
    hide Marks, BitsOf, LosesSlot, Silent;
    if MarkedSlots(marks[1..]) == MarkedSlots(marks) {
      ShiftErasesAll(marks, 0);
    }
    if MarkedSlots(marks) == {} {
      assert forall i :: 0 <= i < |marks| - 1 ==> marks[1..][i] == marks[i + 1] && i + 1 !in MarkedSlots(marks);
    }
  }

  /** No slot is marked exactly when no clip is active. */
  lemma {:induction false} SilentMarks(clips: seq<Clip>)
    requires Playable(clips)
    ensures MarkedSlots(Marks(clips)) == {} <==> Silent(clips)
  {
    if k :| 0 <= k < |clips| && clips[k].active {
      var i := ActiveSlot(clips, k);
      assert i in MarkedSlots(Marks(clips));
    } else {
      hide Sounds;
      forall i | 0 <= i < |Marks(clips)|
        ensures !Marks(clips)[i]
      {
        forall k | 0 <= k < |clips| ensures !Sounds(clips, Step(Total(clips)), k, i) {
          SilentClip(clips, Step(Total(clips)), k);
        }
      }
    }
  }

  /** The slot in which an active clip begins is marked. */
  lemma {:induction false} ActiveSlot(clips: seq<Clip>, k: nat) returns (i: nat)
    requires Playable(clips) && k < |clips| && clips[k].active
    ensures i < |Marks(clips)| && Marks(clips)[i]
  {
    hide Step, SlotCount, Offset, Total, CeilDiv;
    var total, step := Total(clips), Step(Total(clips));
    i := Offset(clips, k) / (step * MICROS);
    OffsetStep(clips, k);
    OffsetInside(clips, k + 1);
    SlotOfInstant(Offset(clips, k), step * MICROS, i);
    SlotHolds(total, step, Offset(clips, k), i);
    assert Sounds(clips, step, k, i);
    assert Marked(clips, step, i, |clips|);
  }

  lemma {:induction false} ShiftErasesAll(marks: seq<bool>, i: nat)
    requires |marks| >= 1 && MarkedSlots(marks[1..]) == MarkedSlots(marks)
    ensures forall j: nat :: i <= j < |marks| ==> !marks[j]
    decreases |marks| - i
  {
    if i < |marks| {
      ShiftErasesAll(marks, i + 1);
      assert marks[i] ==> i in MarkedSlots(marks);
      assert i in MarkedSlots(marks[1..]) ==> i + 1 in MarkedSlots(marks);
    }
  }

  /** Four and a bit seconds, the last two loud: five slots are encoded, four decoded, and the
      marks move a second early. */
  lemma {:induction false} LostSlotExample()
    ensures var clips := [Clip(2_000_000, true, false), Clip(2_000_400, true, true)];
            && Marks(clips) == [false, false, true, true, true]
            && LosesSlot(Total(clips), Step(Total(clips)))
            && BitsOf(BitsValue(Marks(clips)), DecodedSlotCount(RoundMillis(Total(clips)), Step(Total(clips))))
               == [false, true, true, true]
  {
    var clips := [Clip(2_000_000, true, false), Clip(2_000_400, true, true)];
    ExampleOffsets(clips);
    BitmapRoundTrip(clips);
    var marks := Marks(clips);
    hide Total, Offset, Sounds, Marked, BitsOf, BitsValue;
    assert Step(Total(clips)) == 1 && |marks| == 5;
    forall i | 0 <= i < 5
      ensures Marks(clips)[i] == (2 <= i)
    {
      ExampleMarks(clips, i);
    }
    assert marks == [false, false, true, true, true];
    assert marks[1..] == [false, true, true, true];
  }

  lemma {:induction false} ExampleOffsets(clips: seq<Clip>)
    requires clips == [Clip(2_000_000, true, false), Clip(2_000_400, true, true)]
    ensures Offset(clips, 0) == 0 && Offset(clips, 1) == 2_000_000 && Total(clips) == 4_000_400
  {
    assert clips[..0] == [] && clips[..2] == clips;
    OffsetStep(clips, 0);
    OffsetStep(clips, 1);
  }

  lemma {:induction false} ExampleMarks(clips: seq<Clip>, i: nat)
    requires clips == [Clip(2_000_000, true, false), Clip(2_000_400, true, true)] && i < 5
    ensures Marked(clips, 1, i, 2) <==> 2 <= i
  {
    ExampleOffsets(clips);
    hide Offset, Total;
    assert !Sounds(clips, 1, 0, i);
    assert Sounds(clips, 1, 1, i) <==> 2 <= i;
  }

  // ---- What the decoded timeline says -------------------------------------

  lemma {:induction false} MarksAre(clips: seq<Clip>, i: nat)
    requires i < |Marks(clips)|
    ensures Marks(clips)[i] == Marked(clips, Step(Total(clips)), i, |clips|)
  {
  }

  lemma {:induction false} DecodedMarks(clips: seq<Clip>)
    requires !LosesSlot(Total(clips), Step(Total(clips)))
    ensures var total := Total(clips);
            DecodePoints(BitsValue(Marks(clips)), Step(total), RoundMillis(total))
            == PointsFrom(Marks(clips), Step(total), RoundMillis(total), 0)
  {
    BitmapRoundTrip(clips);
    hide Step, RoundMillis, Marks, LosesSlot, Total, PointsFrom, BitsOf, BitsValue;
  }

  /** Completeness: when no slot is lost, every instant of an active clip, up to the rounded end
      of the recording, lies in a decoded point. Instants are microseconds. */
  lemma {:induction false} ActiveTimeIsShown(clips: seq<Clip>, k: nat, t: nat)
    requires k < |clips| && clips[k].active
    requires Offset(clips, k) <= t < Offset(clips, k) + clips[k].duration
    requires t < RoundMillis(Total(clips)) * 1000
    requires !LosesSlot(Total(clips), Step(Total(clips)))
    ensures var total := Total(clips);
            exists p :: p in DecodePoints(BitsValue(Marks(clips)), Step(total), RoundMillis(total))
                        && p.offset * 1000 <= t < (p.offset + p.length) * 1000
  {
    hide Step, RoundMillis, SlotCount, Marks, DecodePoints, LosesSlot, Offset, Total, PointAt, PointsFrom;
    var total, step, millis := Total(clips), Step(Total(clips)), RoundMillis(Total(clips));
    var i := t / (step * MICROS);
    SlotOfInstant(t, step * MICROS, i);
    OffsetStep(clips, k);
    OffsetInside(clips, k + 1);
    var marks := Marks(clips);
    SlotHolds(total, step, t, i);
    MarksAre(clips, i);
    assert Sounds(clips, step, k, i);
    assert Marked(clips, step, i, |clips|);
    DecodedMarks(clips);
    PointsFromAre(marks, step, millis, 0);
    ShownHolds(i, step, millis, t);
    assert Shown(marks, step, millis, i);
  }

  lemma {:induction false} SlotOfInstant(t: nat, s: nat, i: nat)
    requires s > 0 && i == t / s
    ensures i * s <= t < (i + 1) * s
  {
    assert t == i * s + t % s && (i + 1) * s == i * s + s;
  }

  lemma {:induction false} SlotHolds(total: nat, step: nat, t: nat, i: nat)
    requires step >= 1 && t < total && i * (step * MICROS) <= t
    ensures i < SlotCount(total, step)
  {
    CeilDivIs(total, step * MICROS, i);
  }

  lemma {:induction false} ShownHolds(i: nat, step: nat, millis: nat, t: nat)
    requires step >= 1 && i * (step * MICROS) <= t < (i + 1) * (step * MICROS) && t < millis * 1000
    ensures i * (step * 1000) < millis
    ensures var p := PointAt(i, step, millis); p.offset * 1000 <= t < (p.offset + p.length) * 1000
  {
    assert i * (step * MICROS) == i * (step * 1000) * 1000;
    assert (i + 1) * (step * MICROS) == i * (step * 1000) * 1000 + step * MICROS;
  }

  /** Soundness: when no slot is lost, every decoded point shares time with an active clip. */
  lemma {:induction false} ShownTimeIsActive(clips: seq<Clip>, p: Point)
    requires Playable(clips)
    requires !LosesSlot(Total(clips), Step(Total(clips)))
    requires var total := Total(clips);
             p in DecodePoints(BitsValue(Marks(clips)), Step(total), RoundMillis(total))
    ensures exists k :: && 0 <= k < |clips| && clips[k].active
                        && Offset(clips, k) < (p.offset + p.length) * 1000
                        && p.offset * 1000 < Offset(clips, k) + clips[k].duration
  {
    hide Step, RoundMillis, SlotCount, Marks, DecodePoints, LosesSlot, Offset, Total, PointsFrom, PointAt;
    var total, step, millis := Total(clips), Step(Total(clips)), RoundMillis(Total(clips));
    var marks := Marks(clips);
    DecodedMarks(clips);
    PointsFromAre(marks, step, millis, 0);
    var i :| 0 <= i && Shown(marks, step, millis, i) && p == PointAt(i, step, millis);
    MarksAre(clips, i);
    assert Marked(clips, step, i, |clips|);
    var k :| 0 <= k < |clips| && Sounds(clips, step, k, i);
    OffsetStep(clips, k);
    OffsetInside(clips, k + 1);
    RoundNear(total);
    ShownBounds(i, step, millis, Offset(clips, k), clips[k].duration, total);
  }

  lemma {:induction false} ShownBounds(i: nat, step: nat, millis: nat, offset: nat, duration: nat, total: nat)
    requires i * (step * 1000) < millis
    requires offset < (i + 1) * (step * MICROS) && i * (step * MICROS) < offset + duration
    requires offset + 1000 <= total <= millis * 1000 + 500
    ensures var p := PointAt(i, step, millis);
            offset < (p.offset + p.length) * 1000 && p.offset * 1000 < offset + duration
  {
    assert i * (step * MICROS) == i * (step * 1000) * 1000;
    assert (i + 1) * (step * MICROS) == i * (step * 1000) * 1000 + step * MICROS;
  }
}
