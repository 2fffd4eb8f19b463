/** `_open` comes to its end from every state it can be in, and so no state of the system is a dead end
    for an acknowledged batch. */
module OutboxProgress {
  import opened Wrappers
  import opened SpoolDisk
  import opened RemoteCommit
  import opened Outbox
  import opened OutboxRuns
  import opened OutboxRecovery
  import opened OutboxDelivery

  predicate AllOpen(actions: seq<Action>) {
    forall i :: 0 <= i < |actions| ==> IsOpenAction(actions[i])
  }

  /** What a scan leaves alone: all that the program remembers only as history, and the remote store. */
  predicate SameFate(e: Entry, e': Entry) {
    e'.acked == e.acked && e'.sent == e.sent && e'.remote == e.remote && e'.made == e.made && e'.expired == e.expired
  }

  ghost predicate Opens(e: Entry, actions: seq<Action>, last: Entry) {
    Does(Opening, e, actions, last) && AllOpen(actions) && SameFate(e, last)
  }

  lemma {:induction false} ThenOpens(e: Entry, actions: seq<Action>, mid: Entry, a: Action)
    returns (actions': seq<Action>, last: Entry)
    requires Opens(e, actions, mid) && Enabled(a, Opening, mid) && IsOpenAction(a)
    ensures actions' == actions + [a] && last == Apply(a, mid) && Opens(e, actions', last)
  {
    hide Does, Enabled;
    actions', last := Then(Opening, e, actions, mid, a);
  }

  lemma {:induction false} OpensNothing(e: Entry)
    ensures Opens(e, [], e)
  {
    hide Does;
    DoesNothing(Opening, e);
  }

  /** A transaction directory that loads gets its final name, and is registered. */
  lemma {:induction false} Promotes(e: Entry) returns (actions: seq<Action>, last: Entry)
    requires e.scan == Todo && e.slot.name == Partial && Loads(e.slot.dir)
    ensures Opens(e, actions, last) && last.scan == Scanned
  {
    hide Opens, Loads;
    OpensNothing(e);
    actions, last := ThenOpens(e, [], e, Promote);
    actions, last := ThenOpens(e, actions, last, WriteBack);
    actions, last := ThenOpens(e, actions, last, Register);
  }

  lemma {:induction false} EmptiesIt(e: Entry) returns (actions: seq<Action>, last: Entry)
    requires e.scan == Todo && e.slot.name == Committed
    ensures Opens(e, actions, last) && last == WithDir(e, Emptied(e.slot.dir))
  {
    hide Opens, Loads, Full, PairStep;
    OpensNothing(e);
    actions, last := ThenOpens(e, [], e, DropMedia);
    actions, last := ThenOpens(e, actions, last, DropMetadata);
    actions, last := ThenOpens(e, actions, last, DropManifest);
  }

  /** A committed directory is emptied and removed, and the removal made durable. */
  lemma {:induction false} SweepsAway(e: Entry) returns (actions: seq<Action>, last: Entry)
    requires e.scan == Todo && e.slot.name == Committed && e.courier.Idle?
    ensures Opens(e, actions, last) && last.scan == Scanned
  {
    hide Opens, Loads, Full, PairStep;
    actions, last := EmptiesIt(e);
    actions, last := ThenOpens(e, actions, last, DropDir);
    actions, last := ThenOpens(e, actions, last, WriteBack);
    actions, last := ThenOpens(e, actions, last, SweptClean);
  }

  /** The directory is dealt with in one step, or after the kernel has written back the last one. */
  lemma {:induction false} FinishesAt(e: Entry) returns (actions: seq<Action>, last: Entry)
    requires ScanInv(Opening, e) && e.scan != Scanned
    requires e.scan == Todo ==> e.slot.name == Final || (e.slot.name == Partial && !Loads(e.slot.dir))
    ensures Opens(e, actions, last) && last.scan == Scanned
  {
    hide Opens, Loads;
    OpensNothing(e);
    if e.scan == Todo {
      actions, last := ThenOpens(e, [], e, if Loads(e.slot.dir) then Register else Orphan);
    } else {
      actions, last := ThenOpens(e, [], e, WriteBack);
      actions, last := ThenOpens(e, actions, last, if e.scan == Promoted then Register else SweptClean);
    }
  }

  /** Wherever the scan is with a directory, it can finish with it: it promotes, registers, retains or
      sweeps it, and nothing else is needed but that the kernel writes back what was changed. */
  lemma {:induction false} ScanEnds(e: Entry) returns (actions: seq<Action>, last: Entry)
    requires EntryInv(Opening, e)
    ensures Opens(e, actions, last) && last.scan == Scanned
  {
    hide Opens, Loads, WriterInv, SlotInv, CommittedInv, CourierInv, AckedInv;
    if e.scan == Scanned {
      OpensNothing(e);
      actions, last := [], e;
    } else if e.scan == Todo && e.slot.name == Partial && Loads(e.slot.dir) {
      actions, last := Promotes(e);
    } else if e.scan == Todo && e.slot.name == Committed {
      actions, last := SweepsAway(e);
    } else {
      actions, last := FinishesAt(e);
    }
  }

  // ---- The whole scan -----------------------------------------------------

  predicate IsOpenEvent(ev: Event) { ev.Act? && IsOpenAction(ev.action) }

  predicate AllOpenEvents(events: seq<Event>) {
    forall i :: 0 <= i < |events| ==> IsOpenEvent(events[i])
  }

  ghost predicate SameFates(s: State, s': State) {
    s'.entries.Keys == s.entries.Keys && forall k :: k in s.entries ==> SameFate(s.entries[k], s'.entries[k])
  }

  function Waiting(s: State): set<string> { set k | k in s.entries && s.entries[k].scan != Scanned }

  /** One directory is finished, and the others stay as they are. */
  lemma {:induction false} ScansOne(s: State, path: string) returns (events: seq<Event>, s': State)
    requires Inv(s) && s.phase == Opening && path in Waiting(s)
    ensures Leads(s, events, s') && AllOpenEvents(events) && s'.phase == Opening && SameFates(s, s')
    ensures Waiting(s') == Waiting(s) - {path}
  {
    hide Does, Leads, EntryInv, IsOpenAction;
    var actions, last := ScanEnds(s.entries[path]);
    events, s' := ActsOn(path, actions), With(s, path, last);
    DoesInSystem(s, path, actions, last);
  }

  lemma {:induction false} ScansAll(s: State) returns (events: seq<Event>, s': State)
    requires Inv(s) && s.phase == Opening
    ensures Leads(s, events, s') && AllOpenEvents(events) && s'.phase == Opening && SameFates(s, s')
    ensures Waiting(s') == {}
    decreases |Waiting(s)|
  {
    hide Leads, Inv, IsOpenEvent;
    if Waiting(s) == {} {
      LeadsNowhere(s);
      events, s' := [], s;
    } else {
      var path :| path in Waiting(s);
      var first, mid := ScansOne(s, path);
      LeadsKeeps(s, first, mid);
      assert Waiting(mid) < Waiting(s);
      var rest, last := ScansAll(mid);
      LeadsOn(s, first, mid, rest, last);
      events, s' := first + rest, last;
    }
  }

  /** From every state that the scan can be in, it can come to its end, by steps of its own and the
      kernel's alone; and then the service is up. */
  lemma {:induction false} OpenSucceeds(s: State) returns (scan: seq<Event>, s': State)
    requires Inv(s) && s.phase == Opening
    ensures Leads(s, scan + [OpenDone], s') && AllOpenEvents(scan) && s'.phase == Up && SameFates(s, s')
  {
    hide Leads, EntryInv;
    var events, mid := ScansAll(s);
    scan, s' := events, mid.(phase := Up);
    assert forall k :: k in mid.entries && mid.entries[k].scan != Scanned ==> k in Waiting(mid);
    LeadsAtOnce(mid, OpenDone, s');
    LeadsOn(s, scan, mid, [OpenDone], s');
  }

  function Woken(s: State): State {
    State(Opening, map k | k in s.entries :: Unscanned(s.entries[k]))
  }

  /** The same from the start of the process on. */
  lemma {:induction false} StartSucceeds(s: State) returns (scan: seq<Event>, s': State)
    requires Inv(s) && s.phase == Down
    ensures Leads(s, [StartOpen] + scan + [OpenDone], s') && AllOpenEvents(scan) && s'.phase == Up && SameFates(s, s')
  {
    hide Leads, Inv, AllOpenEvents;
    LeadsAtOnce(s, StartOpen, Woken(s));
    LeadsKeeps(s, [StartOpen], Woken(s));
    scan, s' := OpenSucceeds(Woken(s));
    LeadsOn(s, [StartOpen], Woken(s), scan + [OpenDone], s');
    assert [StartOpen] + scan + [OpenDone] == [StartOpen] + (scan + [OpenDone]);
  }

  /** A start that is not interrupted is a recovery, and so ends as every recovery does. */
  lemma {:induction false} RecoveryGetsThrough(s: State)
    returns (states: seq<State>, events: seq<Event>)
    requires Inv(s) && s.phase == Down
    ensures RecoveryRun(states, events) && states[0] == s && states[|events|].phase == Up
    ensures Named(s)
  {
    hide Happens, EntryInv;
    var scan, s' := StartSucceeds(s);
    events := [StartOpen] + scan + [OpenDone];
    states :| Through(s, events, s', states);
    forall k | k in s.entries
      ensures Asleep(s.entries[k]) && s.entries[k].slot.name in s.entries[k].slot.names
    {
      AsleepWhenDown(s.entries[k]);
    }
  }

  lemma {:induction false} AsleepWhenDown(e: Entry)
    requires EntryInv(Down, e)
    ensures Asleep(e) && e.slot.name in e.slot.names
  {
  }

  // ---- No dead end --------------------------------------------------------

  function Killed(s: State): State {
    State(Down, map k | k in s.entries :: Forgotten(s.entries[k]))
  }

  /** From every state in which an acknowledged batch has not been given up, whatever is going on there, a
      restart and a delivery bring it to the remote store exactly, and off the disk. */
  lemma {:induction false} DeliveryIsAlwaysPossible(s: State, path: string, a: Sealed)
    returns (events: seq<Event>, s': State)
    requires Inv(s) && path in s.entries && s.entries[path].acked == Some(a) && s.entries[path].sent.None?
    ensures Leads(s, events, s') && path in s'.entries
    ensures var e := s'.entries[path]; RemoteHas(e.remote, a) && e.slot.name == Nowhere && e.pending.None?
  {
    hide Leads, EntryInv, Does, AllOpenEvents;
    var down := Killed(s);
    LeadsAtOnce(s, Kill, down);
    LeadsKeeps(s, [Kill], down);
    var scan, up := StartSucceeds(down);
    events := [StartOpen] + scan + [OpenDone];
    LeadsOn(s, [Kill], down, events, up);
    LeadsKeeps(down, events, up);
    assert EntryInv(Up, up.entries[path]);
    var actions, last := DeliverySucceeds(up.entries[path], a);
    DoesInSystem(up, path, actions, last);
    LeadsOn(s, [Kill] + events, up, ActsOn(path, actions), With(up, path, last));
    events, s' := [Kill] + events + ActsOn(path, actions), With(up, path, last);
  }

  /** A new batch of a path can be taken and acknowledged whenever the service is up. */
  lemma {:induction false} NewBatchSucceeds(s: State, path: string, a: Sealed)
    returns (events: seq<Event>, s': State)
    requires Inv(s) && s.phase == Up && path !in s.entries && ValidSealed(a)
    ensures Leads(s, events, s') && path in s'.entries
    ensures s'.entries[path].acked == Some(a) && s'.entries[path].sent.None?
  {
    hide Leads, EntryInv, Does;
    var e := Entry(Slot(Nowhere, FreshDir(a), {Nowhere}, {}), NOTHING, Held, Idle, Scanned, None, UNLISTED, {}, None,
                   None, false);
    var accepted := With(s, path, e);
    LeadsAtOnce(s, Accept(path), accepted);
    LeadsKeeps(s, [Accept(path)], accepted);
    var actions, last := PersistSucceeds(e, a);
    DoesInSystem(accepted, path, actions, last);
    LeadsOn(s, [Accept(path)], accepted, ActsOn(path, actions), With(accepted, path, last));
    events, s' := [Accept(path)] + ActsOn(path, actions), With(accepted, path, last);
  }
}
