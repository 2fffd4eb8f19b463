/** What `_open` makes of a spool directory, however often the scan is interrupted. */
module OutboxRecovery {
  import opened Wrappers
  import opened SpoolDisk
  import opened Outbox

  /** What recovery should do with a directory: remove it, register it, or leave it alone. */
  datatype Outcome = Absent | Saved(dir: Dir) | Damaged(name: Name, dir: Dir)

  function OutcomeOf(s: Slot): Outcome {
    if s.name == Nowhere || s.name == Committed then Absent
    else if Loads(s.dir) then Saved(s.dir)
    else Damaged(s.name, s.dir)
  }

  function PendingOf(o: Outcome): Option<Manifest> {
    if o.Saved? && o.dir.manifest.File? && o.dir.manifest.content.Text?
    then Some(o.dir.manifest.content.manifest) else None
  }

  predicate FirmOrMissing<T>(f: File<T>) { f.Missing? || Firm(f) }

  /** No power loss can change what is seen now. */
  predicate Stable(s: Slot) {
    && Settled(s)
    && (s.name != Nowhere ==>
          s.dir.listed && FirmOrMissing(s.dir.media) && FirmOrMissing(s.dir.metadata) && FirmOrMissing(s.dir.manifest))
  }

  /** The process is down: nothing is in memory. */
  predicate Asleep(e: Entry) { e == Forgotten(e) }

  /** What `_open` does to a directory, and the kernel to what it has changed. */
  predicate IsOpenAction(a: Action) { IsSweepAction(a) || IsScanAction(a) || a.WriteBack? }

  predicate IsRecovery(ev: Event) {
    || ev.StartOpen? || ev.OpenDone? || ev.OpenFails? || ev.Kill? || ev.PowerLoss?
    || (ev.Act? && IsOpenAction(ev.action))
  }

  /** A run in which only `_open` works on the directory. If it loses power, the directory was
      durable to begin with. */
  ghost predicate RecoveryRun(states: seq<State>, events: seq<Event>) {
    && Run(states, events)
    && states[0].phase == Down
    && (forall k :: k in states[0].entries ==> Asleep(states[0].entries[k]))
    && (forall i :: 0 <= i < |events| ==> IsRecovery(events[i]))
    && (PowerLoss in events ==> forall k :: k in states[0].entries ==> Stable(states[0].entries[k].slot))
  }

  const GONE := {Nowhere, Committed}
  const HERE := {Partial, Final}

  /** Only names that mean the same to recovery can come back. */
  predicate Firmed(first: Slot, s: Slot) {
    if first.name in GONE
    then s.names <= GONE && forall w :: w in s.wrecks ==> w.names <= GONE
    else s.names <= HERE && s.wrecks == {} && Stable(Settle(s)) && (OutcomeOf(first).Damaged? ==> s.names == {s.name})
  }

  predicate SlotFollows(stable: bool, first: Slot, s: Slot) {
    && OutcomeOf(s) == OutcomeOf(first)
    && s.name in s.names
    && (stable ==> Firmed(first, s))
  }

  predicate Follows(stable: bool, first: Slot, phase: Phase, e: Entry) {
    && SlotFollows(stable, first, e.slot)
    && e.writer.NoBatch? && e.courier.Idle?
    && (phase != Opening ==> e.scan == Scanned)
    && (phase == Down ==> e.pending.None?)
    && (e.scan != Scanned ==> e.pending.None?)
    && (e.scan == Swept ==> e.slot.name == Nowhere)
    && (e.scan == Promoted ==> e.slot.name == Final && Loads(e.slot.dir))
    && (e.scan == Scanned && phase != Down ==>
          && e.pending == PendingOf(OutcomeOf(first))
          && e.slot.name != Committed
          && (OutcomeOf(first).Saved? ==> e.slot.name == Final))
  }

  lemma {:induction false} DropFollows(a: Action, stable: bool, first: Slot, phase: Phase, e: Entry)
    requires Follows(stable, first, phase, e) && Enabled(a, phase, e) && IsSweepAction(a)
    ensures Follows(stable, first, phase, Apply(a, e))
  {
    hide Loads, Full, PairStep;
  }

  lemma {:induction false} ScanFollows(a: Action, stable: bool, first: Slot, phase: Phase, e: Entry)
    requires Follows(stable, first, phase, e) && Enabled(a, phase, e) && IsScanAction(a)
    ensures Follows(stable, first, phase, Apply(a, e))
  {
    hide PairStep, Full;
  }

  lemma {:induction false} ActionFollows(a: Action, stable: bool, first: Slot, phase: Phase, e: Entry)
    requires Follows(stable, first, phase, e) && Enabled(a, phase, e) && IsOpenAction(a)
    ensures Follows(stable, first, phase, Apply(a, e))
  {
    if !a.WriteBack? {
      hide Follows, Enabled, Apply;
      if IsSweepAction(a) {
        DropFollows(a, stable, first, phase, e);
      } else {
        ScanFollows(a, stable, first, phase, e);
      }
    }
  }

  lemma {:induction false} RebootFollows(stable: bool, first: Slot, phase: Phase, e: Entry)
    requires Follows(stable, first, phase, e)
    ensures Follows(stable, first, Down, Forgotten(e))
  {
  }

  lemma {:induction false} LossFollows(first: Slot, phase: Phase, e: Entry, e': Entry)
    requires Follows(true, first, phase, e) && PowerLost(e, e')
    ensures Follows(true, first, Down, e')
  {
    var s, s' := e.slot, e'.slot;
    if first.name !in GONE {
      assert CameBack(s.dir, s.names, s');
      assert s'.dir == s.dir;
    }
  }

  lemma {:induction false} OpenFollows(stable: bool, first: Slot, e: Entry)
    requires Follows(stable, first, Down, e)
    ensures Follows(stable, first, Opening, Unscanned(e))
  {
  }

  ghost predicate AllFollow(stable: bool, s0: State, s: State) {
    && s.entries.Keys == s0.entries.Keys
    && forall k :: k in s.entries ==> Follows(stable, s0.entries[k].slot, s.phase, s.entries[k])
  }

  lemma {:induction false} EventFollows(ev: Event, stable: bool, s0: State, s: State, s': State)
    requires AllFollow(stable, s0, s) && Happens(ev, s, s') && IsRecovery(ev)
    requires ev == PowerLoss ==> stable
    ensures AllFollow(stable, s0, s')
  {
    hide Enabled, Apply, NewEntry, Forgotten, PowerLost, Unscanned, SlotFollows, OutcomeOf, PendingOf;
    forall k | k in s'.entries
      ensures Follows(stable, s0.entries[k].slot, s'.phase, s'.entries[k])
    {
      var first := s0.entries[k].slot;
      match ev
      case Act(path, a) =>
        if k == path { ActionFollows(a, stable, first, s.phase, s.entries[k]); }
      case StartOpen => OpenFollows(stable, first, s.entries[k]);
      case OpenDone =>
      case OpenFails => RebootFollows(stable, first, s.phase, s.entries[k]);
      case Kill => RebootFollows(stable, first, s.phase, s.entries[k]);
      case PowerLoss => LossFollows(first, s.phase, s.entries[k], s'.entries[k]);
    }
  }

  lemma {:induction false} RunFollows(states: seq<State>, events: seq<Event>, stable: bool, n: nat)
    requires RecoveryRun(states, events) && n <= |events|
    requires stable <==> forall k :: k in states[0].entries ==> Stable(states[0].entries[k].slot)
    requires forall k :: k in states[0].entries ==> states[0].entries[k].slot.name in states[0].entries[k].slot.names
    ensures AllFollow(stable, states[0], states[n])
  {
    hide Enabled, Apply, PowerLost, Unscanned, OutcomeOf, PendingOf;
    if n > 0 {
      RunFollows(states, events, stable, n - 1);
      assert PowerLoss in events || events[n - 1] != PowerLoss;
      EventFollows(events[n - 1], stable, states[0], states[n - 1], states[n]);
    }
  }

  /** After a power loss there is nothing unsettled left, so recovery from it may lose power again. */
  lemma {:induction false} PowerLossStabilizes(e: Entry, e': Entry)
    requires PowerLost(e, e')
    ensures Stable(e'.slot) && Asleep(e')
  {
  }

  ghost predicate Named(s: State) {
    forall k :: k in s.entries ==> s.entries[k].slot.name in s.entries[k].slot.names
  }

  /** However often the scan was cut short, by a failure, a kill or a power loss, once it has run
      through the result is a function of the directories that were there at first: the committed
      ones are gone, every complete one is pending under its final name with the same files, and
      every incomplete one is untouched and not pending. */
  lemma {:induction false} RecoveryIsIdempotent(states: seq<State>, events: seq<Event>, path: string)
    requires RecoveryRun(states, events) && Named(states[0]) && path in states[0].entries
    requires states[|events|].phase == Up
    ensures path in states[|events|].entries
    ensures var o, e := OutcomeOf(states[0].entries[path].slot), states[|events|].entries[path];
            match o
            case Absent => e.slot.name == Nowhere && e.pending.None?
            case Saved(d) => e.slot.name == Final && e.slot.dir == d && e.pending == Some(d.manifest.content.manifest)
            case Damaged(name, d) => e.slot.name == name && e.slot.dir == d && e.pending.None?
  {
    var stable := forall k :: k in states[0].entries ==> Stable(states[0].entries[k].slot);
    RunFollows(states, events, stable, |events|);
    assert Follows(stable, states[0].entries[path].slot, Up, states[|events|].entries[path]);
  }

  /** An interrupted recovery and an uninterrupted one end alike. */
  lemma {:induction false} RecoveriesAgree(one: seq<State>, onesEvents: seq<Event>,
                                           other: seq<State>, othersEvents: seq<Event>, path: string)
    requires RecoveryRun(one, onesEvents) && RecoveryRun(other, othersEvents) && one[0] == other[0] && Named(one[0])
    requires path in one[0].entries
    requires one[|onesEvents|].phase == Up && other[|othersEvents|].phase == Up
    ensures path in one[|onesEvents|].entries && path in other[|othersEvents|].entries
    ensures var e, f := one[|onesEvents|].entries[path], other[|othersEvents|].entries[path];
            e.pending == f.pending && e.slot.name == f.slot.name
                  && (e.slot.name != Nowhere ==> e.slot.dir == f.slot.dir)
  {
    hide Run, RecoveryRun, OutcomeOf;
    RecoveryIsIdempotent(one, onesEvents, path);
    RecoveryIsIdempotent(other, othersEvents, path);
  }
}
