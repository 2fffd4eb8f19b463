/** The bounded archive pipeline of one camera: ingest under a lock, an accumulator, a queue for one
    batch, a retrying worker, a byte budget that holds ingest back, and the two ways to shut down.
    Every event is what one task does between two suspension points. */
module Pipeline {
  import opened Arithmetic
  import opened Wrappers

  datatype Segment = Segment(id: nat, size: nat)

  function Size(segments: seq<Segment>): (r: nat)
    ensures segments == [] ==> r == 0
  {
    if segments == [] then 0 else Size(segments[..|segments| - 1]) + segments[|segments| - 1].size
  }

  datatype Item = Work(batch: seq<Segment>) | Sentinel

  /** The task that holds the ingest lock: none, one that is putting a sealed batch (and then goes
      on with `next`), or one that waits for the budget. */
  datatype Ingest = Free | Putting(batch: seq<Segment>, next: Option<Segment>) | Reserving(segment: Segment)

  /** `Releasing`: the batch is written, its bytes are not yet given back. */
  datatype Worker = Idle | Writing(batch: seq<Segment>) | Releasing(batch: seq<Segment>) | Exited

  datatype Stage = Running | Flushing | Joining | Signalled | Stopped | Aborting | Aborted

  /** `accepted` and `written` are history. */
  datatype Camera = Camera(
    stage: Stage, closing: bool, acc: seq<Segment>, ingest: Ingest, queue: seq<Item>, worker: Worker,
    retained: int, unwritten: nat, accepted: seq<Segment>, written: seq<Segment>)

  const START := Camera(Running, false, [], Free, [], Idle, 0, 0, [], [])

  datatype Event =
    | Add(segment: Segment, retuned: bool) // `retuned`: the new targets seal the accumulator first
    | Put
    | Accept(full: bool)                   // `full`: the accumulator reached a target
    | Reject
    | Rotate
    | Get
    | WriteOk
    | WriteFails
    | Release
    | StopBegins | StopFlushes | StopSignals | StopEnds
    | AbortBegins | Cancelled(wrote: bool, released: bool) | AbortEnds

  /** The check that comes right before `_reserve`. */
  function CapCheck(cap: nat, c: Camera, segment: Segment): Camera {
    if Size(c.acc) > 0 && Size(c.acc) + segment.size > cap
    then c.(ingest := Putting(c.acc, Some(segment)), acc := [])
    else c.(ingest := Reserving(segment))
  }

  predicate Halted(c: Camera) { c.stage == Aborting || c.stage == Aborted }

  // `stop` wakes no one who waits for the budget: such an `add` sees that the manager is closing at the
  // next release. `Reject` is not tied to a release here, and so may come earlier than it can in the code.
  predicate Enabled(cap: nat, ev: Event, c: Camera) {
    match ev
    case Add(segment, retuned) => c.ingest.Free? && !c.closing && segment.size <= cap && (retuned ==> c.acc != [])
    case Put => c.ingest.Putting? && |c.queue| < 1
    case Accept(_) => c.ingest.Reserving? && !c.closing && c.retained + c.ingest.segment.size <= cap
    case Reject => c.ingest.Reserving? && c.closing
    case Rotate => c.ingest.Free? && c.acc != []
    case Get => c.worker.Idle? && c.queue != [] && !Halted(c)
    case WriteOk => c.worker.Writing? && !Halted(c)
    case WriteFails => c.worker.Writing? && !Halted(c)
    case Release => c.worker.Releasing? && !Halted(c)
    case StopBegins => c.stage == Running
    case StopFlushes => c.stage == Flushing && c.ingest.Free?
    case StopSignals => c.stage == Joining && c.ingest.Free? && c.queue == [] && c.worker.Idle?
    case StopEnds => c.stage == Signalled && c.worker.Exited?
    case AbortBegins => true
    case Cancelled(_, _) => c.stage == Aborting && !c.worker.Exited?
    case AbortEnds => c.stage == Aborting && c.worker.Exited?
  }

  function Apply(cap: nat, ev: Event, c: Camera): Camera {
    match ev
    case Add(segment, retuned) =>
      if retuned then c.(ingest := Putting(c.acc, Some(segment)), acc := []) else CapCheck(cap, c, segment)
    case Put =>
      if !c.ingest.Putting? then c
      else
        var c' := c.(queue := c.queue + [Work(c.ingest.batch)]);
        if c.ingest.next.Some? then CapCheck(cap, c', c.ingest.next.value) else c'.(ingest := Free)
    case Accept(full) =>
      if !c.ingest.Reserving? then c
      else
        var segment := c.ingest.segment;
        var c' := c.(retained := c.retained + segment.size, accepted := c.accepted + [segment]);
        if full then c'.(ingest := Putting(c.acc + [segment], None), acc := [])
        else c'.(ingest := Free, acc := c.acc + [segment])
    case Reject => c.(ingest := Free)
    case Rotate => c.(ingest := Putting(c.acc, None), acc := [])
    case Get =>
      if c.queue == [] then c
      else if c.queue[0].Work? then c.(worker := Writing(c.queue[0].batch), queue := c.queue[1..])
      else c.(worker := Exited, queue := c.queue[1..])
    case WriteOk =>
      if !c.worker.Writing? then c
      else c.(worker := Releasing(c.worker.batch), written := c.written + c.worker.batch)
    case WriteFails => c
    case Release =>
      if !c.worker.Releasing? then c
      else c.(worker := Idle, retained := Max(0, c.retained - Size(c.worker.batch)))
    case StopBegins => c.(closing := true, stage := Flushing)
    case StopFlushes =>
      if c.acc == [] then c.(stage := Joining)
      else c.(stage := Joining, ingest := Putting(c.acc, None), acc := [])
    case StopSignals => c.(stage := Signalled, queue := c.queue + [Sentinel])
    case StopEnds => c.(stage := Stopped)
    case AbortBegins => c.(closing := true, stage := Aborting, unwritten := c.unwritten + Max(0, c.retained))
    case Cancelled(wrote, released) =>
      var held := if c.worker.Writing? || c.worker.Releasing? then c.worker.batch else [];
      c.(worker := Exited,
         written := if c.worker.Writing? && wrote then c.written + held else c.written,
         retained := if c.worker.Writing? || released then Max(0, c.retained - Size(held)) else c.retained)
    case AbortEnds => c.(stage := Aborted, queue := [], acc := [], retained := Max(0, c.retained - c.retained))
  }

  // ---- Where the segments are ---------------------------------------------

  function Blocked(c: Camera): seq<Segment> { if c.ingest.Putting? then c.ingest.batch else [] }

  function Queued(c: Camera): seq<Segment> {
    if c.queue != [] && c.queue[0].Work? then c.queue[0].batch else []
  }

  function InFlight(c: Camera): seq<Segment> { if c.worker.Writing? then c.worker.batch else [] }

  /** Bytes that are written and not given back yet. */
  function Unreleased(c: Camera): nat { if c.worker.Releasing? then Size(c.worker.batch) else 0 }

  function Outstanding(c: Camera): nat {
    Size(InFlight(c)) + Size(Queued(c)) + Size(Blocked(c)) + Size(c.acc)
  }

  /** Nothing lost, doubled or reordered. */
  predicate Conserved(c: Camera) {
    c.written + InFlight(c) + Queued(c) + Blocked(c) + c.acc == c.accepted
  }

  predicate Shape(cap: nat, c: Camera) {
    && |c.queue| <= 1
    && c.retained >= 0
    && (c.closing <==> c.stage != Running)
    && (c.ingest.Reserving? ==>
          c.ingest.segment.size <= cap && (c.acc != [] ==> Size(c.acc) + c.ingest.segment.size <= cap))
    && (c.ingest.Putting? ==> c.acc == [] && (c.ingest.next.Some? ==> c.ingest.next.value.size <= cap))
    && (Sentinel in c.queue ==> c.stage == Signalled || Halted(c))
    && (c.worker.Exited? ==> c.stage == Signalled || c.stage == Stopped || Halted(c))
    && (c.stage == Joining ==> c.acc == [] && !c.ingest.Reserving? && (c.ingest.Putting? ==> c.ingest.next.None?))
    && (c.stage == Signalled || c.stage == Stopped ==> c.acc == [] && c.ingest.Free?)
    && (c.stage == Signalled ==> if c.worker.Exited? then c.queue == [] else c.worker.Idle? && c.queue == [Sentinel])
    && (c.stage == Stopped ==> c.queue == [] && c.worker.Exited?)
    && (c.stage == Aborted ==> c.worker.Exited? && c.acc == [] && c.retained == 0)
  }

  predicate Accounts(cap: nat, c: Camera) {
    && c.retained == Outstanding(c) + Unreleased(c)
    && c.retained <= cap
    && Conserved(c)
    && c.unwritten == 0
  }

  predicate Inv(cap: nat, c: Camera) {
    && Shape(cap, c)
    && (!Halted(c) ==> Accounts(cap, c))
    && (Halted(c) ==> Size(c.accepted) <= Size(c.written) + c.unwritten)
  }

  lemma {:induction false} SizeAdd(left: seq<Segment>, right: seq<Segment>)
    ensures Size(left + right) == Size(left) + Size(right)
  {
    if right == [] {
      assert left + right == left;
    } else {
      assert (left + right)[..|left + right| - 1] == left + right[..|right| - 1];
      SizeAdd(left, right[..|right| - 1]);
    }
  }

  lemma {:induction false} SizeOne(segment: Segment)
    ensures Size([segment]) == segment.size
  {
    assert [segment][..0] == [];
  }

  /** All accepted bytes are written or outstanding. */
  lemma {:induction false} BytesConserved(c: Camera)
    requires Conserved(c)
    ensures Size(c.accepted) == Size(c.written) + Outstanding(c)
  {
    SizeAdd(c.written, InFlight(c));
    SizeAdd(c.written + InFlight(c), Queued(c));
    SizeAdd(c.written + InFlight(c) + Queued(c), Blocked(c));
    SizeAdd(c.written + InFlight(c) + Queued(c) + Blocked(c), c.acc);
  }

  // ---- Every event keeps it -----------------------------------------------

  predicate IsIngest(ev: Event) { ev.Add? || ev.Put? || ev.Accept? || ev.Reject? || ev.Rotate? }

  predicate IsWorker(ev: Event) { ev.Get? || ev.WriteOk? || ev.WriteFails? || ev.Release? }

  predicate IsAbort(ev: Event) { ev.AbortBegins? || ev.Cancelled? || ev.AbortEnds? }

  lemma {:induction false} IngestKeepsShape(cap: nat, ev: Event, c: Camera)
    requires Shape(cap, c) && Enabled(cap, ev, c) && IsIngest(ev)
    requires Halted(c) || Accounts(cap, c)
    ensures Shape(cap, Apply(cap, ev, c))
  {
    hide Size, Conserved;
    if ev.Accept? {
      SizeAdd(c.acc, [c.ingest.segment]);
    }
  }

  lemma {:induction false} CapCheckMoves(cap: nat, c: Camera, segment: Segment)
    requires c.ingest.Free? || c.acc == []
    ensures var c' := CapCheck(cap, c, segment);
            && c' == c.(ingest := c'.ingest, acc := c'.acc)
            && Blocked(c') + c'.acc == c.acc && Size(Blocked(c')) + Size(c'.acc) == Size(c.acc)
            && InFlight(c') == InFlight(c) && Queued(c') == Queued(c) && Unreleased(c') == Unreleased(c)
  {
    hide Size;
  }

  /** The same segments in the same order, and as many bytes, in perhaps other places. */
  predicate Moved(c: Camera, c': Camera) {
    && c'.accepted == c.accepted && c'.retained == c.retained && c'.unwritten == c.unwritten
    && c'.written + InFlight(c') + Queued(c') + Blocked(c') + c'.acc
       == c.written + InFlight(c) + Queued(c) + Blocked(c) + c.acc
    && Outstanding(c') + Unreleased(c') == Outstanding(c) + Unreleased(c)
  }

  lemma {:induction false} MovedAccounts(cap: nat, c: Camera, c': Camera)
    requires Accounts(cap, c) && Moved(c, c')
    ensures Accounts(cap, c')
  {
    hide Size, Outstanding;
  }

  lemma {:induction false} AddMoves(cap: nat, ev: Event, c: Camera)
    requires Shape(cap, c) && Enabled(cap, ev, c) && ev.Add?
    ensures Moved(c, Apply(cap, ev, c))
  {
    hide Size, CapCheck, Shape;
    if !ev.retuned {
      CapCheckMoves(cap, c, ev.segment);
    }
  }

  lemma {:induction false} PutMoves(cap: nat, ev: Event, c: Camera)
    requires Shape(cap, c) && Enabled(cap, ev, c) && ev.Put?
    ensures Moved(c, Apply(cap, ev, c))
  {
    hide Size, CapCheck;
    var mid := c.(queue := [Work(c.ingest.batch)]);
    assert c.queue + [Work(c.ingest.batch)] == mid.queue;
    assert Moved(c, mid.(ingest := Free));
    if c.ingest.next.Some? {
      CapCheckMoves(cap, mid, c.ingest.next.value);
      assert Apply(cap, ev, c) == CapCheck(cap, mid, c.ingest.next.value);
    }
  }

  lemma {:induction false} AcceptAccounts(cap: nat, ev: Event, c: Camera)
    requires Shape(cap, c) && Accounts(cap, c) && Enabled(cap, ev, c) && ev.Accept?
    ensures Accounts(cap, Apply(cap, ev, c))
  {
    hide Size, Shape;
    var c', segment := Apply(cap, ev, c), c.ingest.segment;
    SizeAdd(c.acc, [segment]);
    SizeOne(segment);
    assert c'.written + InFlight(c') + Queued(c') + Blocked(c') + c'.acc
        == c.written + InFlight(c) + Queued(c) + Blocked(c) + c.acc + [segment];
  }

  lemma {:induction false} IngestAccounts(cap: nat, ev: Event, c: Camera)
    requires Shape(cap, c) && Accounts(cap, c) && Enabled(cap, ev, c) && IsIngest(ev)
    ensures Accounts(cap, Apply(cap, ev, c))
  {
    if ev.Accept? {
      AcceptAccounts(cap, ev, c);
    } else {
      if ev.Add? {
        AddMoves(cap, ev, c);
      } else if ev.Put? {
        PutMoves(cap, ev, c);
      } else {
        hide Size, Shape, Accounts;
        assert Moved(c, Apply(cap, ev, c));
      }
      hide *;
      MovedAccounts(cap, c, Apply(cap, ev, c));
    }
  }

  lemma {:induction false} WorkerKeepsShape(cap: nat, ev: Event, c: Camera)
    requires Shape(cap, c) && Enabled(cap, ev, c) && IsWorker(ev)
    ensures Shape(cap, Apply(cap, ev, c))
  {
    hide Size;
  }

  lemma {:induction false} WorkerAccounts(cap: nat, ev: Event, c: Camera)
    requires Shape(cap, c) && Accounts(cap, c) && Enabled(cap, ev, c) && IsWorker(ev)
    ensures Accounts(cap, Apply(cap, ev, c))
  {
    if ev.Release? {
      hide Size;
    } else {
      WorkerMoves(cap, ev, c);
      hide *;
      MovedAccounts(cap, c, Apply(cap, ev, c));
    }
  }

  lemma {:induction false} WorkerMoves(cap: nat, ev: Event, c: Camera)
    requires Shape(cap, c) && Enabled(cap, ev, c) && IsWorker(ev) && !ev.Release?
    ensures Moved(c, Apply(cap, ev, c))
  {
    hide Size;
    if ev.Get? {
      GetMoves(cap, c);
    } else if ev.WriteOk? {
      hide Shape;
      var c' := Apply(cap, ev, c);
      assert InFlight(c') == [] && Queued(c') == Queued(c) && Blocked(c') == Blocked(c);
      assert c'.written + InFlight(c') == c.written + InFlight(c);
    }
  }

  lemma {:induction false} GetMoves(cap: nat, c: Camera)
    requires Shape(cap, c) && Enabled(cap, Get, c)
    ensures Moved(c, Apply(cap, Get, c))
  {
    var c' := Apply(cap, Get, c);
    assert c'.queue == [] && InFlight(c) == [] && InFlight(c') == Queued(c) && Queued(c') == [];
    hide Size, Shape;
    assert c'.written + InFlight(c') + Queued(c') == c.written + InFlight(c) + Queued(c);
  }

  predicate IsStop(ev: Event) { ev.StopBegins? || ev.StopFlushes? || ev.StopSignals? || ev.StopEnds? }

  lemma {:induction false} StopKeepsShape(cap: nat, ev: Event, c: Camera)
    requires Shape(cap, c) && Enabled(cap, ev, c) && IsStop(ev)
    ensures Shape(cap, Apply(cap, ev, c))
  {
    hide Size;
  }

  lemma {:induction false} StopAccounts(cap: nat, ev: Event, c: Camera)
    requires Shape(cap, c) && Accounts(cap, c) && Enabled(cap, ev, c) && IsStop(ev)
    ensures Accounts(cap, Apply(cap, ev, c))
  {
    StopMoves(cap, ev, c);
    hide *;
    MovedAccounts(cap, c, Apply(cap, ev, c));
  }

  lemma {:induction false} StopMoves(cap: nat, ev: Event, c: Camera)
    requires Shape(cap, c) && Enabled(cap, ev, c) && IsStop(ev)
    ensures Moved(c, Apply(cap, ev, c))
  {
    hide Size;
  }

  lemma {:induction false} AbortBeginsKeeps(cap: nat, c: Camera)
    requires Inv(cap, c)
    ensures Inv(cap, Apply(cap, AbortBegins, c))
  {
    if !Halted(c) {
      BytesConserved(c);
    }
    hide Size, Conserved, Outstanding;
  }

  lemma {:induction false} CancelledKeeps(cap: nat, ev: Event, c: Camera)
    requires Inv(cap, c) && Enabled(cap, ev, c) && ev.Cancelled?
    ensures Inv(cap, Apply(cap, ev, c))
  {
    if c.worker.Writing? {
      SizeAdd(c.written, c.worker.batch);
    }
    hide Size, Accounts;
  }

  lemma {:induction false} AbortKeeps(cap: nat, ev: Event, c: Camera)
    requires Inv(cap, c) && Enabled(cap, ev, c) && (IsAbort(ev) || (Halted(c) && IsIngest(ev)))
    ensures Inv(cap, Apply(cap, ev, c))
  {
    if ev.AbortBegins? {
      AbortBeginsKeeps(cap, c);
    } else if ev.Cancelled? {
      CancelledKeeps(cap, ev, c);
    } else if IsIngest(ev) {
      IngestKeepsShape(cap, ev, c);
      hide Size, Shape, Accounts, CapCheck;
    } else {
      hide Size, Accounts;
    }
  }

  lemma {:induction false} EventKeeps(cap: nat, ev: Event, c: Camera)
    requires Inv(cap, c) && Enabled(cap, ev, c)
    ensures Inv(cap, Apply(cap, ev, c))
  {
    HaltsOnlyByAbort(cap, ev, c);
    hide Size, Shape, Accounts, Enabled, Apply, IsAbort, IsIngest, IsWorker, IsStop, Halted;
    if IsAbort(ev) || (Halted(c) && IsIngest(ev)) {
      AbortKeeps(cap, ev, c);
    } else if IsIngest(ev) {
      IngestKeepsShape(cap, ev, c);
      IngestAccounts(cap, ev, c);
    } else if IsWorker(ev) {
      WorkerKeepsShape(cap, ev, c);
      WorkerAccounts(cap, ev, c);
    } else {
      StopKeepsShape(cap, ev, c);
      StopAccounts(cap, ev, c);
    }
  }

  lemma {:induction false} HaltsOnlyByAbort(cap: nat, ev: Event, c: Camera)
    requires Enabled(cap, ev, c)
    ensures IsAbort(ev) || IsIngest(ev) || IsWorker(ev) || IsStop(ev)
    ensures !IsAbort(ev) ==> Halted(Apply(cap, ev, c)) == Halted(c)
    ensures Halted(c) ==> IsAbort(ev) || IsIngest(ev)
  {
    hide Size;
  }

  // ---- Runs ---------------------------------------------------------------

  predicate Run(cap: nat, states: seq<Camera>, events: seq<Event>) {
    && |states| == |events| + 1
    && forall i :: 0 <= i < |events| ==>
         Enabled(cap, events[i], states[i]) && states[i + 1] == Apply(cap, events[i], states[i])
  }

  lemma {:induction false} RunKeeps(cap: nat, states: seq<Camera>, events: seq<Event>)
    requires Run(cap, states, events) && Inv(cap, states[0])
    ensures Inv(cap, states[|events|])
    decreases |events|
  {
    hide Inv, Enabled, Apply;
    if |events| > 0 {
      var n := |events| - 1;
      RunKeeps(cap, states[..n + 1], events[..n]);
      EventKeeps(cap, events[n], states[n]);
    }
  }

  ghost predicate Reachable(cap: nat, c: Camera) {
    exists states, events :: Run(cap, states, events) && states[0] == START && states[|events|] == c
  }

  /** Nothing has happened yet. */
  lemma {:induction false} StartInv(cap: nat, c: Camera)
    requires c.stage == Running && !c.closing && c.ingest == Free && c.worker == Idle && c.retained == 0
          && c.unwritten == 0
    requires c.acc == [] && c.queue == [] && c.accepted == [] && c.written == []
    ensures Inv(cap, c)
  {
    hide Size;
    assert InFlight(c) == [] && Queued(c) == [] && Blocked(c) == [];
  }

  lemma {:induction false} ReachableInv(cap: nat, c: Camera)
    requires Reachable(cap, c)
    ensures Inv(cap, c)
  {
    StartInv(cap, START);
    hide Inv;
    var states, events :| Run(cap, states, events) && states[0] == START && states[|events|] == c;
    RunKeeps(cap, states, events);
  }

  /** Every batch that is sealed and not yet given back. */
  predicate HoldsBatch(c: Camera, batch: seq<Segment>) {
    || (c.ingest.Putting? && c.ingest.batch == batch)
    || Work(batch) in c.queue
    || (c.worker.Writing? && c.worker.batch == batch)
    || (c.worker.Releasing? && c.worker.batch == batch)
  }

  /** Under every interleaving: what was accepted is, in order, what was written, what is in
      flight, what is queued, what waits for the queue, and the accumulator; the retained bytes
      are exactly the bytes of these, and within the cap; so is every sealed batch. */
  lemma {:induction false} NothingLostOrReordered(cap: nat, c: Camera)
    requires Reachable(cap, c) && !Halted(c)
    ensures Conserved(c)
    ensures c.retained == Outstanding(c) + Unreleased(c)
    ensures 0 <= c.retained <= cap
    ensures forall batch :: HoldsBatch(c, batch) ==> Size(batch) <= cap
  {
    ReachableInv(cap, c);
    hide Reachable, Size, Conserved;
  }

  /** The clamp of `_release` never acts: what is given back was retained. */
  lemma {:induction false} ClampIsIdle(cap: nat, c: Camera)
    requires Inv(cap, c) && Enabled(cap, Release, c)
    ensures Apply(cap, Release, c).retained == c.retained - Size(c.worker.batch)
  {
    hide Size;
  }

  // ---- Backpressure -------------------------------------------------------

  /** An `add` or a rotation that cannot go on. */
  predicate Waits(cap: nat, c: Camera) {
    || (c.ingest.Putting? && !Enabled(cap, Put, c))
    || (c.ingest.Reserving? && !Enabled(cap, Accept(false), c) && !Enabled(cap, Reject, c))
  }

  /** What the worker does next if writing succeeds. */
  function NextWork(c: Camera): Event {
    match c.worker
    case Writing(_) => WriteOk
    case Releasing(_) => Release
    case _ => Get
  }

  /** Worker events until the queue and the worker are empty. */
  function Backlog(c: Camera): nat {
    3 * |c.queue| + match c.worker case Writing(_) => 2 case Releasing(_) => 1 case _ => 0
  }

  /** Backpressure never deadlocks: while ingest waits, the worker has an event to go on with, and
      each success brings it nearer to an empty backlog, with which nothing waits. */
  lemma {:induction false} WorkerUnblocks(cap: nat, c: Camera)
    requires Inv(cap, c) && !Halted(c) && Waits(cap, c)
    ensures Enabled(cap, NextWork(c), c)
    ensures Backlog(Apply(cap, NextWork(c), c)) < Backlog(c)
    ensures Apply(cap, NextWork(c), c).ingest == c.ingest
  {
    hide Size;
  }

  /** So a waiting ingest gets through after at most `Backlog(c)` successful worker events. */
  lemma {:induction false} IngestGetsThrough(cap: nat, c: Camera) returns (states: seq<Camera>, events: seq<Event>)
    requires Inv(cap, c) && !Halted(c)
    ensures Run(cap, states, events) && states[0] == c && |events| <= Backlog(c)
    ensures forall ev :: ev in events ==> IsWorker(ev)
    ensures states[|events|].ingest == c.ingest && !Waits(cap, states[|events|])
    decreases Backlog(c)
  {
    hide Inv, Enabled, Apply, Backlog;
    if Waits(cap, c) {
      WorkerUnblocks(cap, c);
      var ev := NextWork(c);
      var c' := Apply(cap, ev, c);
      EventKeeps(cap, ev, c);
      StaysUp(cap, c);
      var rest, later := IngestGetsThrough(cap, c');
      states, events := [c] + rest, [ev] + later;
    } else {
      states, events := [c], [];
    }
  }

  lemma {:induction false} StaysUp(cap: nat, c: Camera)
    requires !Halted(c) && Enabled(cap, NextWork(c), c)
    ensures !Halted(Apply(cap, NextWork(c), c)) && IsWorker(NextWork(c))
  {
  }

  // ---- Throughput ---------------------------------------------------------

  /** A segment that an `add` has brought and the accumulator has not got yet. */
  function Owed(c: Camera): seq<Segment> {
    match c.ingest
    case Putting(_, next) => if next.Some? then [next.value] else []
    case Reserving(segment) => [segment]
    case Free => []
  }

  predicate Drained(c: Camera) { c.ingest.Free? && c.acc == [] && c.queue == [] && c.worker.Idle? }

  /** What happens next on the way to an empty pipeline, if writing succeeds. */
  function NextToDrain(c: Camera): Event {
    if !c.worker.Idle? || c.queue != [] then NextWork(c)
    else if c.ingest.Putting? then Put
    else if c.ingest.Reserving? then Accept(true)
    else Rotate
  }

  function ToDrain(c: Camera): nat {
    Backlog(c)
    + (match c.ingest case Putting(_, next) => (if next.Some? then 9 else 4) case Reserving(_) => 5 case Free => 0)
    + (if c.ingest.Free? && c.acc != [] then 5 else 0)
  }

  lemma {:induction false} DrainAdvances(cap: nat, c: Camera)
    requires Inv(cap, c) && c.stage == Running && !Drained(c)
    ensures var ev := NextToDrain(c);
            && Enabled(cap, ev, c) && ToDrain(Apply(cap, ev, c)) < ToDrain(c)
            && Apply(cap, ev, c).stage == Running
            && Apply(cap, ev, c).accepted + Owed(Apply(cap, ev, c)) == c.accepted + Owed(c)
  {
    hide Size;
    if c.worker.Idle? && c.queue == [] && c.ingest.Reserving? {
      var c' := Apply(cap, Accept(true), c);
      assert c'.accepted + Owed(c') == c.accepted + Owed(c);
    }
  }

  /** A running pipeline can be emptied: then all that was accepted is written, with the segment that
      an `add` was waiting with. */
  lemma {:induction false} Drains(cap: nat, c: Camera) returns (states: seq<Camera>, events: seq<Event>)
    requires Inv(cap, c) && c.stage == Running
    ensures Run(cap, states, events) && states[0] == c
    ensures var c' := states[|events|];
            && Inv(cap, c') && c'.stage == Running && Drained(c')
            && c'.written == c'.accepted == c.accepted + Owed(c) && c'.retained == 0
    decreases ToDrain(c)
  {
    hide Enabled, Apply, ToDrain, NextToDrain, Shape, Size;
    if Drained(c) {
      states, events := [c], [];
      DrainedIsWritten(cap, c);
    } else {
      DrainAdvances(cap, c);
      hide Inv;
      var ev := NextToDrain(c);
      EventKeeps(cap, ev, c);
      var rest, later := Drains(cap, Apply(cap, ev, c));
      states, events := [c] + rest, [ev] + later;
    }
  }

  lemma {:induction false} DrainedIsWritten(cap: nat, c: Camera)
    requires Inv(cap, c) && c.stage == Running && Drained(c)
    ensures c.written == c.accepted == c.accepted + Owed(c) && c.retained == 0
  {
  }

  lemma {:induction false} RunsOn(cap: nat, states: seq<Camera>, events: seq<Event>, later: seq<Camera>,
                                  laterEvents: seq<Event>)
    requires Run(cap, states, events) && Run(cap, later, laterEvents) && later[0] == states[|events|]
    ensures Run(cap, states[..|events|] + later, events + laterEvents)
  {
    hide Enabled, Apply;
    var all := states[..|events|] + later;
    assert forall i :: 0 <= i <= |events| ==> all[i] == states[i];
    assert forall i :: 0 <= i <= |laterEvents| ==> all[|events| + i] == later[i];
  }

  /** Whatever a running pipeline is doing, it can take any segment that fits, and write it after
      all that came before. */
  lemma {:induction false} SegmentGetsWritten(cap: nat, c: Camera, segment: Segment)
    returns (states: seq<Camera>, events: seq<Event>)
    requires Inv(cap, c) && c.stage == Running && segment.size <= cap
    ensures Run(cap, states, events) && states[0] == c
    ensures states[|events|].written == c.accepted + Owed(c) + [segment]
    ensures Add(segment, false) in events
  {
    hide Inv, Size, Conserved, Drained, Run, Enabled, Apply;
    var drained, draining := Drains(cap, c);
    RunLength(cap, drained, draining);
    var mid := drained[|draining|];
    AddIsTaken(cap, mid, segment);
    EventKeeps(cap, Add(segment, false), mid);
    var later, writing := Drains(cap, Apply(cap, Add(segment, false), mid));
    BeginsWith(cap, mid, Add(segment, false), later, writing);
    RunsOn(cap, drained, draining, [mid] + later, [Add(segment, false)] + writing);
    states, events := drained[..|draining|] + ([mid] + later), draining + ([Add(segment, false)] + writing);
    assert ([Add(segment, false)] + writing)[0] == Add(segment, false);
    assert events[|draining|] == Add(segment, false);
    RunLength(cap, later, writing);
  }

  lemma {:induction false} RunLength(cap: nat, states: seq<Camera>, events: seq<Event>)
    requires Run(cap, states, events)
    ensures |states| == |events| + 1
  {
  }

  lemma {:induction false} BeginsWith(cap: nat, c: Camera, ev: Event, later: seq<Camera>, laterEvents: seq<Event>)
    requires Enabled(cap, ev, c) && Run(cap, later, laterEvents) && later[0] == Apply(cap, ev, c)
    ensures Run(cap, [c] + later, [ev] + laterEvents)
  {
    hide Enabled, Apply;
  }

  /** Unless new targets have sealed it, the accumulator gives way to a segment exactly if both together
      would pass the cap. */
  lemma {:induction false} SealsAtNeed(cap: nat, c: Camera, segment: Segment)
    requires Enabled(cap, Add(segment, false), c)
    ensures Apply(cap, Add(segment, false), c).acc == c.acc <==>
              Size(c.acc) == 0 || Size(c.acc + [segment]) <= cap
  {
    SizeAdd(c.acc, [segment]);
    SizeOne(segment);
  }

  lemma {:induction false} AddIsTaken(cap: nat, c: Camera, segment: Segment)
    requires Inv(cap, c) && c.stage == Running && Drained(c) && segment.size <= cap
    ensures Enabled(cap, Add(segment, false), c)
    ensures var c' := Apply(cap, Add(segment, false), c);
            c'.stage == Running && c'.accepted == c.accepted && Owed(c') == [segment]
  {
    hide Conserved;
  }

  // ---- Shutdown -----------------------------------------------------------

  /** An orderly stop ends with everything written, nothing retained and nothing to report. */
  lemma {:induction false} StopWritesEverything(cap: nat, c: Camera)
    requires Reachable(cap, c) && c.stage == Stopped
    ensures c.written == c.accepted && c.retained == 0 && c.unwritten == 0 && c.worker.Exited?
  {
    ReachableInv(cap, c);
    hide Reachable, Size;
  }

  /** The stages before the end of a stop. */
  predicate Stopping(c: Camera) {
    c.stage == Running || c.stage == Flushing || c.stage == Joining || c.stage == Signalled
  }

  /** What happens next if writing succeeds: the stop begins, the worker goes on as long as it can, then
      the task that holds the ingest lock, then the stop itself. */
  function NextToStop(c: Camera): Event {
    if c.stage == Running then StopBegins
    else if c.worker.Writing? then WriteOk
    else if c.worker.Releasing? then Release
    else if c.worker.Idle? && c.queue != [] then Get
    else if c.ingest.Putting? then Put
    else if c.ingest.Reserving? then Reject
    else if c.stage == Flushing then StopFlushes
    else if c.stage == Joining then StopSignals
    else StopEnds
  }

  /** An upper bound on the events before the stop is over. */
  function ToStop(c: Camera): nat {
    Backlog(c)
    + (match c.ingest case Putting(_, next) => (if next.Some? then 6 else 4) case Reserving(_) => 1 case Free => 0)
    + (match c.stage case Running => 11 case Flushing => 10 case Joining => 5 case Signalled => 1 case _ => 0)
  }

  lemma {:induction false} StopAdvances(cap: nat, c: Camera)
    requires Inv(cap, c) && Stopping(c)
    ensures var ev := NextToStop(c);
            && Enabled(cap, ev, c) && ToStop(Apply(cap, ev, c)) < ToStop(c)
            && (Stopping(Apply(cap, ev, c)) || Apply(cap, ev, c).stage == Stopped)
  {
    hide Size, Accounts;
  }

  /** A stop comes to its end: from every state in which one is under way or can begin, at most `ToStop(c)`
      events, which are never more than 22, lead to the orderly end, with every write succeeding. */
  lemma {:induction false} StopGetsThrough(cap: nat, c: Camera) returns (states: seq<Camera>, events: seq<Event>)
    requires Inv(cap, c) && (Stopping(c) || c.stage == Stopped)
    ensures Run(cap, states, events) && states[0] == c && |events| <= ToStop(c) <= 22
    ensures WriteFails !in events && states[|events|].stage == Stopped
    decreases ToStop(c)
  {
    hide Inv, Enabled, Apply, ToStop, NextToStop, Stopping;
    StopIsBounded(cap, c);
    if c.stage == Stopped {
      states, events := [c], [];
    } else {
      StopAdvances(cap, c);
      NextSucceeds(c);
      var ev := NextToStop(c);
      EventKeeps(cap, ev, c);
      var rest, later := StopGetsThrough(cap, Apply(cap, ev, c));
      states, events := [c] + rest, [ev] + later;
    }
  }

  lemma {:induction false} StopIsBounded(cap: nat, c: Camera)
    requires Inv(cap, c)
    ensures ToStop(c) <= 22
  {
    hide Size, Accounts;
  }

  lemma {:induction false} NextSucceeds(c: Camera)
    ensures NextToStop(c) != WriteFails
  {
  }

  /** However a run ends in `abort`, it never reports less than what is missing, and retains
      nothing. */
  lemma {:induction false} AbortNeverUnderReports(cap: nat, c: Camera)
    requires Reachable(cap, c) && c.stage == Aborted
    ensures Size(c.accepted) - Size(c.written) <= c.unwritten
    ensures c.retained == 0 && c.worker.Exited? && c.acc == []
  {
    ReachableInv(cap, c);
    hide Reachable, Size, Accounts;
  }

  /** What `abort` reports when it begins: exactly the missing bytes, and those of a batch that is
      written but not given back yet. */
  lemma {:induction false} AbortReport(cap: nat, c: Camera)
    requires Inv(cap, c) && !Halted(c)
    ensures Apply(cap, AbortBegins, c).unwritten == Size(c.accepted) - Size(c.written) + Unreleased(c)
  {
    BytesConserved(c);
    hide Size, Conserved;
  }

  /** The service always aborts at the end of its own stop. After an orderly stop that changes nothing:
      no byte is reported, and the pipeline is down at once. */
  lemma {:induction false} AbortAfterStop(cap: nat, c: Camera)
    requires Reachable(cap, c) && c.stage == Stopped
    ensures Enabled(cap, AbortBegins, c) && Enabled(cap, AbortEnds, Apply(cap, AbortBegins, c))
    ensures var c' := Apply(cap, AbortEnds, Apply(cap, AbortBegins, c));
            AfterAbort(c') && c'.unwritten == 0 && c'.written == c'.accepted
  {
    StopWritesEverything(cap, c);
    hide Reachable, Size;
  }

  /** An abort comes to its end from every state, wherever the worker is cancelled. */
  lemma {:induction false} AbortGetsThrough(cap: nat, c: Camera, wrote: bool, released: bool)
    returns (states: seq<Camera>, events: seq<Event>)
    ensures Run(cap, states, events) && states[0] == c && states[|events|].stage == Aborted
    ensures forall ev :: ev in events ==> ev in {AbortBegins, Cancelled(wrote, released), AbortEnds}
  {
    hide Size;
    var begun := Apply(cap, AbortBegins, c);
    if c.worker.Exited? {
      states, events := [c, begun, Apply(cap, AbortEnds, begun)], [AbortBegins, AbortEnds];
    } else {
      var cancelled := Apply(cap, Cancelled(wrote, released), begun);
      states := [c, begun, cancelled, Apply(cap, AbortEnds, cancelled)];
      events := [AbortBegins, Cancelled(wrote, released), AbortEnds];
    }
  }

  predicate AfterAbort(c: Camera) { Halted(c) && c.closing && c.worker.Exited? && c.retained == 0 }

  /** After an abort has ended, no later event of any kind reports, retains, accepts or writes
      anything: repeating `abort` adds nothing. */
  lemma {:induction false} AbortIsFinal(cap: nat, states: seq<Camera>, events: seq<Event>)
    requires Run(cap, states, events) && Inv(cap, states[0]) && states[0].stage == Aborted
    ensures var c, c' := states[0], states[|events|];
            && AfterAbort(c') && c'.unwritten == c.unwritten
            && c'.accepted == c.accepted && c'.written == c.written
    decreases |events|
  {
    hide Size;
    if |events| > 0 {
      var n := |events| - 1;
      AbortIsFinal(cap, states[..n + 1], events[..n]);
      StaysAborted(cap, events[n], states[n]);
    }
  }

  lemma {:induction false} StaysAborted(cap: nat, ev: Event, c: Camera)
    requires AfterAbort(c) && Enabled(cap, ev, c)
    ensures var c' := Apply(cap, ev, c);
            AfterAbort(c') && c'.unwritten == c.unwritten && c'.accepted == c.accepted && c'.written == c.written
  {
    hide Size;
  }
}
