/** What the outbox has to live with: every failure that its theorems allow for can really happen. */
module OutboxFailures {
  import opened Wrappers
  import opened Bytes
  import opened SpoolDisk
  import opened RemoteCommit
  import opened Outbox
  import opened OutboxRuns

  // ---- Power loss ---------------------------------------------------------

  function Ruined<T>(f: File<T>, garbage: T, listed: bool): File<T> {
    if EntryLost(f, listed) then Missing else File(if f.synced then f.content else garbage, true, true)
  }

  /** A directory after the worst power loss: files whose directory entry was not fsynced are gone, and
      the bytes of those that were not fsynced themselves are garbage. */
  function RuinedDir(d: Dir, garbage: Bytes): Dir {
    Dir(d.of, Ruined(d.media, garbage, d.listed), Ruined(d.metadata, garbage, d.listed),
        Ruined(d.manifest, Garbage, d.listed), true)
  }

  function RuinedSlot(s: Slot, name: Name, garbage: Bytes): Slot {
    Slot(name, if name == Nowhere then s.dir else RuinedDir(s.dir, garbage), {name}, {})
  }

  function RuinedEntry(e: Entry, name: Name, garbage: Bytes): Entry {
    var slot := RuinedSlot(e.slot, name, garbage);
    Forgotten(e).(slot := slot, sent := if WillLoad(slot) then None else e.sent)
  }

  lemma {:induction false} RuinIsPossible(e: Entry, name: Name, garbage: Bytes)
    requires name in e.slot.names
    ensures PowerLost(e, RuinedEntry(e, name, garbage))
  {
    hide Loads;
    assert CameBack(e.slot.dir, e.slot.names, RuinedSlot(e.slot, name, garbage));
  }

  function NameAfter(path: string, name: Name, k: string, e: Entry): Name {
    if k == path then name else e.slot.name
  }

  /** The power may go in any state. Any rename or removal whose parent directory was not fsynced since
      may then be undone, and any unsynced content be lost. */
  lemma {:induction false} PowerLossMayRuin(s: State, path: string, name: Name, garbage: Bytes) returns (s': State)
    requires Inv(s) && path in s.entries && name in s.entries[path].slot.names
    ensures Happens(PowerLoss, s, s') && s'.entries[path].slot == RuinedSlot(s.entries[path].slot, name, garbage)
  {
    hide PowerLost;
    s' := State(Down, map k | k in s.entries ::
                        RuinedEntry(s.entries[k], NameAfter(path, name, k, s.entries[k]), garbage));
    forall k | k in s.entries
      ensures PowerLost(s.entries[k], s'.entries[k])
    {
      NamedNow(s.phase, s.entries[k]);
      RuinIsPossible(s.entries[k], NameAfter(path, name, k, s.entries[k]), garbage);
    }
  }

  lemma {:induction false} NamedNow(phase: Phase, e: Entry)
    requires EntryInv(phase, e)
    ensures e.slot.name in e.slot.names
  {
  }

  /** The program says that a batch is safe, empties a directory that it gave up, and finishes with one
      that it promoted or removed, only when no power loss can take the rename or removal back. */
  lemma {:induction false} NothingIsTakenBack(a: Action, phase: Phase, e: Entry, e': Entry)
    requires EntryInv(phase, e) && Enabled(a, phase, e) && PowerLost(Apply(a, e), e')
    requires a.Acknowledge? || a.AcknowledgeAdopted? || a.RetireSynced? || a.SweptClean?
          || (a.Register? && e.scan == Promoted)
    ensures e'.slot.name == e.slot.name
    ensures e.slot.name == (if a.RetireSynced? then Committed else if a.SweptClean? then Nowhere else Final)
  {
    hide Full, Filling, PairStep, SoundDir, DirAfterLoss;
  }

  // ---- Failing calls ------------------------------------------------------

  /** While a batch is in RAM, its attempt may fail at any point; the batch stays in RAM. */
  lemma {:induction false} AttemptMayFail(e: Entry) returns (a: Action)
    requires !e.writer.NoBatch?
    ensures Enabled(a, Up, e) && Apply(a, e) == e.(writer := Held)
  {
    a := GiveUp;
  }

  /** A replay may fail at any point as well. Before its directory is given up the entry stays pending, to
      be tried again; after that it is forgotten, and left to the next start. */
  lemma {:induction false} ReplayMayFail(e: Entry) returns (a: Action)
    requires e.courier.Sending? || e.courier.Retired? || e.courier.Cleaning?
    ensures Enabled(a, Up, e)
    ensures Apply(a, e) == e.(courier := Idle, pending := if e.courier.Sending? then e.pending else None)
  {
    a := if e.courier.Sending? then SendFails else Pop;
  }

  /** So may a scan; then the process is down again. */
  lemma {:induction false} ScanMayFail(s: State) returns (s': State)
    requires s.phase == Opening
    ensures Happens(OpenFails, s, s') && s'.phase == Down
  {
    s' := State(Down, map k | k in s.entries :: Forgotten(s.entries[k]));
  }

  // ---- Retention ----------------------------------------------------------

  /** The policy may delete a finished record whenever it likes, both objects or one of them. */
  lemma {:induction false} RecordMayExpire(e: Entry, a: Sealed)
    returns (both: seq<Action>, last: Entry, half: seq<Action>, sidecarOnly: Entry)
    requires RemoteHas(e.remote, a)
    ensures Does(Up, e, both, last) && last.remote == NOTHING
    ensures Does(Up, e, half, sidecarOnly) && sidecarOnly.remote == Pair(None, Some(a.metadata))
    ensures last.slot == e.slot == sidecarOnly.slot
  {
    hide Does, PairStep, Loads, Full;
    DoesNothing(Up, e);
    half, sidecarOnly := Then(Up, e, [], e, Choose);
    half, sidecarOnly := Then(Up, e, half, sidecarOnly, ExpireMedia);
    both, last := Then(Up, e, half, sidecarOnly, ExpireSidecar);
  }
}
