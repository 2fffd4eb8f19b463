/** The durable outbox: persist, replay to the remote store, remove, and recover, with the process
    killed or the power lost at any point. Every recording has its own `Entry`; recordings share
    no file and no remote name, so a run interleaves the actions of all entries freely. */
module Outbox {
  import opened Wrappers
  import opened Bytes
  import opened SpoolDisk
  import opened RemoteCommit

  /** The two finished names of a recording on the remote store. */
  datatype Pair = Pair(media: Option<Bytes>, sidecar: Option<Bytes>)

  const NOTHING := Pair(None, None)

  predicate RemoteHas(r: Pair, s: Sealed) { r == Pair(Some(s.media), Some(s.metadata)) }

  /** Where `_persist` is with the batch that the archive worker still holds in RAM. */
  datatype Writer =
    | NoBatch
    | Held
    | Ready(s: Sealed)
    | Writing(s: Sealed)
    | Written(s: Sealed)
    | Published(s: Sealed)
    | Clearing
    | Adopting

  /** Where `_replay` is with this entry. `p` is what the upload has concluded, `told` what the server
      has answered, or is bound to answer to a call that is under way. */
  datatype Courier = Idle | Sending(s: Sealed, p: Progress, told: Progress) | Retired | Cleaning | Blocked

  /** Where the scan of `_open` is with this directory. */
  datatype Scan = Scanned | Todo | Promoted | Swept

  datatype Phase = Down | Opening | Up

  /** What a retention run has found in its listing: media without a sidecar, or a finished record
      that the policy will delete. It acts on what it found, not on what is there later; and it may be
      another process than the one that uploads. */
  datatype Listing = Listing(orphan: bool, chosen: bool)

  const UNLISTED := Listing(false, false)

  /** `made`: every sealing prepared of this batch. `acked`: what was on disk when `write_batch`
      returned. `sent`: what the last upload committed before its directory was given up. `expired`:
      since the last upload began, the policy has deleted objects of a record that it had listed as
      finished. These four are history. */
  datatype Entry = Entry(
    slot: Slot, remote: Pair, writer: Writer, courier: Courier, scan: Scan, pending: Option<Manifest>, listing: Listing,
    made: set<Sealed>, acked: Option<Sealed>, sent: Option<Sealed>, expired: bool)

  /** A batch that the worker has just taken from its queue. */
  predicate NewEntry(e: Entry) {
    && e.slot.name == Nowhere && Settled(e.slot) && SoundSlot(e.slot)
    && e == Entry(e.slot, NOTHING, Held, Idle, Scanned, None, UNLISTED, {}, None, None, false)
  }

  // ---- Actions ------------------------------------------------------------

  datatype Action =
    // write_batch
    | Seal(s: Sealed) | MakeDir | BeginMedia(b: Bytes) | SyncMedia | BeginMetadata(b: Bytes) | SyncMetadata
    | BeginManifest(t: Text) | SyncManifest | SyncDir | Publish | Acknowledge
    | Adopt | AcknowledgeAdopted
    | Abandon | ClearManifest | ClearMetadata | ClearMedia | ClearDir | GiveUp
    // _replay
    | Pick | Send(p: Progress, told: Progress, r: Pair) | SendFails | Retire | RetireSynced | Pop
    // .id.committed directories, in _replay and in _open
    | DropMedia | DropMetadata | DropManifest | DropDir
    // _open
    | Promote | Register | Orphan | SweptClean
    // the world
    | WriteBack | Look | Reap | Choose | ExpireMedia | ExpireSidecar

  /** One step of `write_prepared`, as it shows at the two finished names. A rename lands, and the
      server is bound to answer so or not; a comparison begins on an object with the right bytes, and is
      bound to end well whatever happens to the name meanwhile; or the client hears such an answer. */
  predicate PairStep(s: Sealed, p: Progress, t: Progress, r: Pair, p': Progress, t': Progress, r': Pair) {
    || (p' == p && t' == t && r' == r)
    || (p' == p && (t' == t || t' == t.(media := true)) && r.media.None? && r' == r.(media := Some(s.media)))
    || (p' == p && (t' == t || t' == t.(sidecar := true)) && p.media && r.sidecar.None?
        && r' == r.(sidecar := Some(s.metadata)))
    || (p' == p && t' == t.(media := true) && r' == r && r.media == Some(s.media))
    || (p' == p && t' == t.(sidecar := true) && p.media && r' == r && r.sidecar == Some(s.metadata))
    || (p' == p.(media := true) && t' == t && r' == r && t.media)
    || (p' == p.(sidecar := true) && t' == t && r' == r && p.media && t.sidecar)
  }

  /** The upload has heard, or is bound to hear, that its media is in place. */
  predicate InWindow(c: Courier) { c.Sending? && c.told.media }

  /** What the old-orphan cleanup of a retention run looks for. */
  predicate Reapable(e: Entry) { e.remote.media.Some? && e.remote.sidecar.None? }

  /** When the cleanup may delete what it listed. Nothing in the program sees to it. */
  predicate MayReap(e: Entry) { e.sent.None? && !InWindow(e.courier) }

  predicate Sweeping(phase: Phase, e: Entry) {
    e.slot.name == Committed && (e.courier.Cleaning? || (phase == Opening && e.scan == Todo))
  }

  predicate Enabled(a: Action, phase: Phase, e: Entry) {
    var w, d := e.writer, e.slot.dir;
    match a
    case Seal(s) => phase == Up && w.Held? && ValidSealed(s)
    case MakeDir => w.Ready? && e.slot.name == Nowhere
    case BeginMedia(_) => w.Writing? && d.media.Missing?
    case SyncMedia => w.Writing? && d.media.File? && !d.media.synced
    case BeginMetadata(_) => w.Writing? && Firm(d.media) && d.metadata.Missing?
    case SyncMetadata => w.Writing? && d.metadata.File? && !d.metadata.synced
    case BeginManifest(t) =>
      w.Writing? && Firm(d.metadata) && d.manifest.Missing? && (t == Garbage || t == Text(ManifestOf(w.s)))
    case SyncManifest => w.Writing? && d.manifest.File? && !d.manifest.synced
    case SyncDir => w.Writing? && Firm(d.manifest)
    case Publish => w.Written?
    case Acknowledge => w.Published? && Settled(e.slot)
    case Adopt => w.Ready? && e.slot.name == Final
    case AcknowledgeAdopted => w.Adopting? && Settled(e.slot) && Loads(d)
    case Abandon => w.Writing? || w.Written?
    case ClearManifest => w.Clearing?
    case ClearMetadata => w.Clearing? && !Visible(d.manifest)
    case ClearMedia => w.Clearing? && !Visible(d.manifest) && !Visible(d.metadata)
    case ClearDir => w.Clearing? && !Visible(d.manifest) && !Visible(d.metadata) && !Visible(d.media)
    case GiveUp => !w.NoBatch?
    case Pick => phase == Up && e.pending.Some? && e.courier.Idle? && e.slot.name == Final && Readable(d)
    case Send(p, t, r) =>
      e.courier.Sending? && PairStep(e.courier.s, e.courier.p, e.courier.told, e.remote, p, t, r)
    case SendFails => e.courier.Sending?
    case Retire => e.courier.Sending? && e.courier.p == CONFIRMED && e.slot.name == Final
    case RetireSynced => e.courier.Retired? && Settled(e.slot)
    case Pop => e.courier.Retired? || e.courier.Cleaning?
    case DropMedia => Sweeping(phase, e)
    case DropMetadata => Sweeping(phase, e) && !Visible(d.media)
    case DropManifest => Sweeping(phase, e) && !Visible(d.media) && !Visible(d.metadata)
    case DropDir => Sweeping(phase, e) && !Visible(d.media) && !Visible(d.metadata) && !Visible(d.manifest)
    case Promote => phase == Opening && e.scan == Todo && e.slot.name == Partial && Loads(d)
    case Register =>
      && phase == Opening && e.slot.name == Final && Loads(d)
      && (e.scan == Todo || (e.scan == Promoted && Settled(e.slot)))
    case Orphan => phase == Opening && e.scan == Todo && e.slot.name in {Partial, Final} && !Loads(d)
    case SweptClean => phase == Opening && e.scan == Swept && Settled(e.slot)
    case WriteBack => true
    case Look => Reapable(e)
    case Reap => e.listing.orphan && MayReap(e)
    case Choose => e.remote.media.Some? && e.remote.sidecar.Some?
    case ExpireMedia => e.listing.chosen
    case ExpireSidecar => e.listing.chosen
  }

  function WithDir(e: Entry, d: Dir): Entry { e.(slot := e.slot.(dir := d)) }

  function Apply(a: Action, e: Entry): Entry {
    var d := e.slot.dir;
    match a
    case Seal(s) => e.(writer := Ready(s), made := e.made + {s})
    case MakeDir =>
      if !e.writer.Ready? then e
      else e.(writer := Writing(e.writer.s),
              slot := TakesName(e.slot, Partial).(dir := FreshDir(e.writer.s)))
    case BeginMedia(b) => WithDir(e, d.(media := File(b, false, true)))
    case SyncMedia => WithDir(e, d.(media := File(d.of.media, true, true)))
    case BeginMetadata(b) => WithDir(e, d.(metadata := File(b, false, true)))
    case SyncMetadata => WithDir(e, d.(metadata := File(d.of.metadata, true, true)))
    case BeginManifest(t) => WithDir(e, d.(manifest := File(t, false, true)))
    case SyncManifest => WithDir(e, d.(manifest := File(Text(ManifestOf(d.of)), true, true)))
    case SyncDir => WithDir(e, d.(listed := true)).(writer := Written(d.of))
    case Publish => e.(slot := TakesName(e.slot, Final), writer := Published(d.of))
    case Acknowledge => e.(writer := NoBatch, acked := Some(d.of), pending := Some(ManifestOf(d.of)))
    case Adopt => WithDir(e, d.(listed := true)).(writer := Adopting)
    case AcknowledgeAdopted =>
      if !Loads(d) then e
      else e.(writer := NoBatch, acked := Some(Contents(d)), pending := Some(d.manifest.content.manifest))
    case Abandon => e.(writer := Clearing)
    case ClearManifest => WithDir(e, d.(manifest := Unlinked(d.manifest), listed := false))
    case ClearMetadata => WithDir(e, d.(metadata := Unlinked(d.metadata), listed := false))
    case ClearMedia => WithDir(e, d.(media := Unlinked(d.media), listed := false))
    case ClearDir => e.(slot := RemovedDir(e.slot), writer := Held)
    case GiveUp => e.(writer := Held)
    case Pick =>
      if e.pending.None? || !Readable(d) then e
      else
        var matches := DigestsMatch(e.pending.value, d);
        e.(courier := if matches then Sending(Contents(d), UNCONFIRMED, UNCONFIRMED) else Blocked,
           expired := false)
    case Send(p, t, r) =>
      if !e.courier.Sending? then e else e.(courier := Sending(e.courier.s, p, t), remote := r)
    case SendFails => e.(courier := Idle)
    case Retire =>
      if !e.courier.Sending? then e
      else e.(slot := TakesName(e.slot, Committed), courier := Retired, sent := Some(e.courier.s))
    case RetireSynced => e.(courier := Cleaning)
    case Pop => e.(courier := Idle, pending := None)
    case DropMedia => WithDir(e, d.(media := Unlinked(d.media), listed := false))
    case DropMetadata => WithDir(e, d.(metadata := Unlinked(d.metadata), listed := false))
    case DropManifest => WithDir(e, d.(manifest := Unlinked(d.manifest), listed := false))
    case DropDir =>
      if e.courier.Cleaning? then e.(slot := RemovedDir(e.slot), courier := Idle, pending := None)
      else e.(slot := RemovedDir(e.slot), scan := Swept)
    case Promote => e.(slot := TakesName(e.slot, Final), scan := Promoted)
    case Register => if !Loads(d) then e else e.(pending := Some(d.manifest.content.manifest), scan := Scanned)
    case Orphan => e.(scan := Scanned)
    case SweptClean => e.(scan := Scanned)
    case WriteBack => e.(slot := Settle(e.slot))
    case Look => e.(listing := e.listing.(orphan := true))
    case Reap => e.(remote := e.remote.(media := None))
    case Choose => e.(listing := e.listing.(chosen := true))
    case ExpireMedia => e.(remote := e.remote.(media := None), expired := true)
    case ExpireSidecar => e.(remote := e.remote.(sidecar := None), expired := true)
  }

  /** Everything the process knew is gone. */
  function Forgotten(e: Entry): Entry {
    e.(writer := NoBatch, courier := Idle, scan := Scanned, pending := None)
  }

  /** A directory that recovery will register. */
  predicate WillLoad(s: Slot) { (s.name == Partial || s.name == Final) && Loads(s.dir) }

  /** If the power loss brings a directory back that had been given up, it has not been. */
  predicate PowerLost(e: Entry, e': Entry) {
    && SlotAfterLoss(e.slot, e'.slot)
    && e' == Forgotten(e).(slot := e'.slot, sent := if WillLoad(e'.slot) then None else e.sent)
  }

  // ---- Runs ---------------------------------------------------------------

  datatype State = State(phase: Phase, entries: map<string, Entry>)

  datatype Event =
    | Accept(path: string)
    | Act(path: string, action: Action)
    | StartOpen | OpenDone | OpenFails | Kill | PowerLoss

  /** `iterdir` has every directory there is still to come. */
  function Unscanned(e: Entry): Entry {
    e.(scan := if e.slot.name == Nowhere then Scanned else Todo)
  }

  ghost predicate Happens(ev: Event, s: State, s': State) {
    match ev
    case Accept(path) =>
      && s.phase == Up && s'.phase == Up && path !in s.entries
      && path in s'.entries && NewEntry(s'.entries[path]) && s'.entries == s.entries[path := s'.entries[path]]
    case Act(path, a) =>
      && path in s.entries && Enabled(a, s.phase, s.entries[path])
      && s' == s.(entries := s.entries[path := Apply(a, s.entries[path])])
    case StartOpen =>
      && s.phase == Down && s'.phase == Opening
      && s'.entries.Keys == s.entries.Keys && forall k :: k in s.entries ==> s'.entries[k] == Unscanned(s.entries[k])
    case OpenDone =>
      s.phase == Opening && s' == s.(phase := Up) && forall k :: k in s.entries ==> s.entries[k].scan == Scanned
    case OpenFails =>
      && s.phase == Opening && s'.phase == Down
      && s'.entries.Keys == s.entries.Keys && forall k :: k in s.entries ==> s'.entries[k] == Forgotten(s.entries[k])
    case Kill =>
      && s'.phase == Down
      && s'.entries.Keys == s.entries.Keys && forall k :: k in s.entries ==> s'.entries[k] == Forgotten(s.entries[k])
    case PowerLoss =>
      && s'.phase == Down
      && s'.entries.Keys == s.entries.Keys && forall k :: k in s.entries ==> PowerLost(s.entries[k], s'.entries[k])
  }

  ghost predicate Run(states: seq<State>, events: seq<Event>) {
    && |states| == |events| + 1
    && forall i :: 0 <= i < |events| ==> Happens(events[i], states[i], states[i + 1])
  }

  const START := State(Down, map[])

  // ---- The invariant of one entry -----------------------------------------

  predicate Among(r: Pair, s: Sealed) {
    && (r.media.None? || r.media == Some(s.media))
    && (r.sidecar.None? || r.sidecar == Some(s.metadata))
  }

  /** While the batch is still in RAM nothing of it is acknowledged, pending or remote. */
  predicate WriterInv(e: Entry) {
    var w, s := e.writer, e.slot;
    !w.NoBatch? ==>
      && e.acked.None? && e.sent.None? && e.pending.None? && e.courier.Idle? && e.scan == Scanned && e.remote == NOTHING
      && (s.name == Final ==> Full(s.dir))
      && (w.Ready? ==> w.s in e.made && ValidSealed(w.s))
      && (w.Writing? ==> s.name == Partial && s.dir.of == w.s && Filling(s.dir))
      && (w.Written? ==> s.name == Partial && s.dir.of == w.s && Full(s.dir))
      && (w.Published? ==> s.name == Final && s.dir.of == w.s)
      && (w.Clearing? ==> s.name == Partial)
      && (w.Adopting? ==> s.name == Final)
  }

  predicate SlotInv(e: Entry) {
    && SoundSlot(e.slot)
    && e.slot.name in e.slot.names
    && (e.slot.name != Nowhere ==> e.slot.dir.of in e.made)
    && (e.slot.name == Nowhere ==> e.slot.names == {Nowhere})
    && (forall w :: w in e.slot.wrecks ==> w.dir.of in e.made)
  }

  /** A directory is renamed to `.id.committed`, and so given up, only after its pair was confirmed. */
  predicate CommittedInv(e: Entry) {
    && (Committed in e.slot.names ==> e.sent.Some?)
    && (forall w :: w in e.slot.wrecks && Committed in w.names ==> e.sent.Some?)
    && (e.sent.Some? ==> !WillLoad(e.slot) && (e.expired || RemoteHas(e.remote, e.sent.value)))
  }

  predicate CourierInv(e: Entry) {
    var c, s := e.courier, e.slot;
    && !c.Blocked?
    && (!c.Idle? ==> e.pending.Some?)
    && (e.pending.Some? && (c.Idle? || c.Sending?) ==>
          s.name == Final && Loads(s.dir) && e.pending == Some(s.dir.manifest.content.manifest))
    && (c.Retired? || c.Cleaning? ==> s.name == Committed)
    && (c.Sending? ==>
          && c.s == s.dir.of
          && (c.p.media ==> c.told.media) && (c.p.sidecar ==> c.told.sidecar) && (c.told.sidecar ==> c.p.media)
          && (c.told.media ==> e.expired || e.remote.media == Some(c.s.media))
          && (c.told.sidecar ==> e.expired || e.remote.sidecar == Some(c.s.metadata)))
  }

  predicate ScanInv(phase: Phase, e: Entry) {
    && (phase != Up ==> e.writer.NoBatch? && e.courier.Idle?)
    && (phase == Down ==> e.pending.None?)
    && (e.scan != Scanned ==> phase == Opening && e.pending.None?)
    && (e.scan == Promoted ==> e.slot.name == Final && Loads(e.slot.dir))
    && (e.scan == Swept ==> e.slot.name == Nowhere)
    && (e.scan == Todo ==> e.slot.name != Nowhere)
  }

  /** No power loss takes the directory back to before its rename. */
  predicate NeverPartial(s: Slot) {
    Partial !in s.names && forall w :: w in s.wrecks ==> Partial !in w.names
  }

  /** The promise that `write_batch` makes by returning. */
  predicate AckedInv(phase: Phase, e: Entry) {
    e.acked.Some? ==>
      var a := e.acked.value;
      && a in e.made && OnlyOf(e.slot, a) && Among(e.remote, a)
      && NeverPartial(e.slot)
      && (e.sent.Some? ==> e.sent.value == a)
      && (e.sent.None? ==> Durable(e.slot, a) && (phase == Down || e.scan != Scanned || e.pending.Some?))
  }

  predicate EntryInv(phase: Phase, e: Entry) {
    && WriterInv(e) && SlotInv(e) && CommittedInv(e) && CourierInv(e) && ScanInv(phase, e) && AckedInv(phase, e)
  }

  // ---- Every action keeps it ----------------------------------------------

  predicate IsFillAction(a: Action) {
    || a.BeginMedia? || a.SyncMedia? || a.BeginMetadata? || a.SyncMetadata? || a.BeginManifest? || a.SyncManifest?
    || a.SyncDir?
  }

  predicate IsCommitAction(a: Action) {
    a.Seal? || a.MakeDir? || a.Publish? || a.Acknowledge? || a.Adopt? || a.AcknowledgeAdopted?
  }

  predicate IsClearAction(a: Action) {
    a.Abandon? || a.ClearManifest? || a.ClearMetadata? || a.ClearMedia? || a.ClearDir? || a.GiveUp?
  }

  predicate IsCourierAction(a: Action) {
    a.Pick? || a.Send? || a.SendFails? || a.Retire? || a.RetireSynced? || a.Pop?
  }

  predicate IsSweepAction(a: Action) { a.DropMedia? || a.DropMetadata? || a.DropManifest? || a.DropDir? }

  predicate IsScanAction(a: Action) { a.Promote? || a.Register? || a.Orphan? || a.SweptClean? }

  predicate IsWorldAction(a: Action) {
    a.WriteBack? || a.Look? || a.Reap? || a.Choose? || a.ExpireMedia? || a.ExpireSidecar?
  }

  lemma {:induction false} FillKeeps(a: Action, phase: Phase, e: Entry)
    requires EntryInv(phase, e) && Enabled(a, phase, e) && IsFillAction(a)
    ensures EntryInv(phase, Apply(a, e))
  {
  }

  lemma {:induction false} CommitKeeps(a: Action, phase: Phase, e: Entry)
    requires EntryInv(phase, e) && Enabled(a, phase, e) && IsCommitAction(a)
    ensures EntryInv(phase, Apply(a, e))
  {
  }

  lemma {:induction false} ClearKeeps(a: Action, phase: Phase, e: Entry)
    requires EntryInv(phase, e) && Enabled(a, phase, e) && IsClearAction(a)
    ensures EntryInv(phase, Apply(a, e))
  {
  }

  lemma {:induction false} SendKeeps(a: Action, phase: Phase, e: Entry)
    requires EntryInv(phase, e) && Enabled(a, phase, e) && a.Send?
    ensures EntryInv(phase, Apply(a, e))
  {
    hide Loads, Full, Filling, SoundSlot, Settled, Durable, NeverPartial, WillLoad;
  }

  lemma {:induction false} CourierKeeps(a: Action, phase: Phase, e: Entry)
    requires EntryInv(phase, e) && Enabled(a, phase, e) && IsCourierAction(a)
    ensures EntryInv(phase, Apply(a, e))
  {
    if a.Send? {
      SendKeeps(a, phase, e);
    } else {
      hide PairStep, Filling;
    }
  }

  lemma {:induction false} DropDirKeeps(phase: Phase, e: Entry)
    requires EntryInv(phase, e) && Enabled(DropDir, phase, e)
    ensures EntryInv(phase, Apply(DropDir, e))
  {
    hide Loads, Full, Filling, SoundDir;
  }

  lemma {:induction false} SweepKeeps(a: Action, phase: Phase, e: Entry)
    requires EntryInv(phase, e) && Enabled(a, phase, e) && IsSweepAction(a)
    ensures EntryInv(phase, Apply(a, e))
  {
    if a.DropDir? {
      DropDirKeeps(phase, e);
    } else {
      hide Full, Filling, PairStep;
    }
  }

  lemma {:induction false} ScanKeeps(a: Action, phase: Phase, e: Entry)
    requires EntryInv(phase, e) && Enabled(a, phase, e) && IsScanAction(a)
    ensures EntryInv(phase, Apply(a, e))
  {
  }

  lemma {:induction false} WriteBackKeeps(phase: Phase, e: Entry)
    requires EntryInv(phase, e)
    ensures EntryInv(phase, Apply(WriteBack, e))
  {
    hide Loads, Full, Filling, SoundDir, RemoteHas, Among;
  }

  /** The listing of a retention run changes nothing by itself. */
  lemma {:induction false} ListingKeeps(phase: Phase, e: Entry, listing: Listing)
    requires EntryInv(phase, e)
    ensures EntryInv(phase, e.(listing := listing))
  {
    hide Loads, SoundSlot, Settled, Durable, OnlyOf, NeverPartial, WillLoad, Filling, RemoteHas, Among;
  }

  lemma {:induction false} DeletionKeeps(a: Action, phase: Phase, e: Entry)
    requires EntryInv(phase, e) && Enabled(a, phase, e) && (a.Reap? || a.ExpireMedia? || a.ExpireSidecar?)
    ensures EntryInv(phase, Apply(a, e))
  {
    hide Loads, Full, Filling, SoundSlot, Settled, Durable, OnlyOf, NeverPartial, WillLoad;
  }

  function Looked(a: Action, e: Entry): Listing {
    if a.Look? then e.listing.(orphan := true) else e.listing.(chosen := true)
  }

  lemma {:induction false} WorldKeeps(a: Action, phase: Phase, e: Entry)
    requires EntryInv(phase, e) && Enabled(a, phase, e) && IsWorldAction(a)
    ensures EntryInv(phase, Apply(a, e))
  {
    hide EntryInv, Enabled;
    if a.WriteBack? {
      WriteBackKeeps(phase, e);
    } else if a.Look? || a.Choose? {
      ListingKeeps(phase, e, Looked(a, e));
    } else {
      DeletionKeeps(a, phase, e);
    }
  }

  lemma {:induction false} ActionKeeps(a: Action, phase: Phase, e: Entry)
    requires EntryInv(phase, e) && Enabled(a, phase, e)
    ensures EntryInv(phase, Apply(a, e))
  {
    hide EntryInv, Enabled, Apply;
    if IsFillAction(a) {
      FillKeeps(a, phase, e);
    } else if IsCommitAction(a) {
      CommitKeeps(a, phase, e);
    } else if IsClearAction(a) {
      ClearKeeps(a, phase, e);
    } else if IsCourierAction(a) {
      CourierKeeps(a, phase, e);
    } else if IsSweepAction(a) {
      SweepKeeps(a, phase, e);
    } else if IsScanAction(a) {
      ScanKeeps(a, phase, e);
    } else {
      WorldKeeps(a, phase, e);
    }
  }

  lemma {:induction false} RebootKeeps(phase: Phase, e: Entry)
    requires EntryInv(phase, e)
    ensures EntryInv(Down, Forgotten(e))
  {
  }

  lemma {:induction false} PowerLossKeeps(phase: Phase, e: Entry, e': Entry)
    requires EntryInv(phase, e) && PowerLost(e, e')
    ensures EntryInv(Down, e')
  {
    LossKeepsSound(e.slot, e'.slot);
    if e.acked.Some? && e.sent.None? {
      LossKeepsDurable(e.slot, e'.slot, e.acked.value);
    }
    hide Durable, DirAfterLoss, Full, Filling, Loads;
  }

  lemma {:induction false} OpenKeeps(e: Entry)
    requires EntryInv(Down, e)
    ensures EntryInv(Opening, Unscanned(e))
  {
  }

  ghost predicate Inv(s: State) {
    forall k :: k in s.entries ==> EntryInv(s.phase, s.entries[k])
  }

  lemma {:induction false} NewEntryInv(e: Entry)
    requires NewEntry(e)
    ensures EntryInv(Up, e)
  {
  }

  lemma {:induction false} UpKeeps(e: Entry)
    requires EntryInv(Opening, e) && e.scan == Scanned
    ensures EntryInv(Up, e)
  {
  }

  lemma {:induction false} EventKeeps(ev: Event, s: State, s': State)
    requires Inv(s) && Happens(ev, s, s')
    ensures Inv(s')
  {
    hide EntryInv, Enabled, Apply, NewEntry, Forgotten, PowerLost, Unscanned;
    forall k | k in s'.entries
      ensures EntryInv(s'.phase, s'.entries[k])
    {
      match ev
      case Accept(path) =>
        if k == path { NewEntryInv(s'.entries[k]); }
      case Act(path, a) =>
        if k == path { ActionKeeps(a, s.phase, s.entries[k]); }
      case StartOpen => OpenKeeps(s.entries[k]);
      case OpenDone => UpKeeps(s.entries[k]);
      case OpenFails => RebootKeeps(s.phase, s.entries[k]);
      case Kill => RebootKeeps(s.phase, s.entries[k]);
      case PowerLoss => PowerLossKeeps(s.phase, s.entries[k], s'.entries[k]);
    }
  }

  lemma {:induction false} RunKeeps(states: seq<State>, events: seq<Event>, n: nat)
    requires Run(states, events) && Inv(states[0]) && n <= |events|
    ensures Inv(states[n])
  {
    hide Inv, Happens;
    if n > 0 {
      RunKeeps(states, events, n - 1);
      EventKeeps(events[n - 1], states[n - 1], states[n]);
    }
  }

  lemma {:induction false} StartInv()
    ensures Inv(START)
  {
  }

  // ---- What it means ------------------------------------------------------

  /** Complete and durable in the spool, or byte for byte at both remote names, or removed there
      by the retention policy after it had been. */
  predicate Kept(e: Entry, a: Sealed) {
    Durable(e.slot, a) || RemoteHas(e.remote, a) || e.expired
  }

  /** No sealed footage is ever lost: at every moment of every run, with any number of crashes and
      power losses, a batch whose `write_batch` returned is still there, in the bytes of one of
      its own sealings; and a directory is called committed only if its remote pair is in place. */
  lemma {:induction false} NoFootageIsLost(states: seq<State>, events: seq<Event>, path: string)
    requires Run(states, events) && states[0] == START
    requires path in states[|events|].entries
    ensures var e := states[|events|].entries[path];
            && (e.acked.Some? ==> e.acked.value in e.made && Kept(e, e.acked.value))
            && (e.slot.name == Committed ==>
                  e.sent.Some? && (RemoteHas(e.remote, e.sent.value) || e.expired))
  {
    StartInv();
    RunKeeps(states, events, |events|);
    hide Run;
    assert EntryInv(states[|events|].phase, states[|events|].entries[path]);
  }

  /** Once the service is up, every acknowledged batch that has not been uploaded is pending, and
      what the upload will stream are exactly the acknowledged bytes: no digest mismatch and no
      conflict with an object already in place can ever stop it. */
  lemma {:induction false} NothingIsForgotten(states: seq<State>, events: seq<Event>, path: string)
    requires Run(states, events) && states[0] == START
    requires var s := states[|events|]; path in s.entries && s.phase == Up
    ensures var e := states[|events|].entries[path];
            && e.courier != Blocked
            && (e.acked.Some? && e.sent.None? ==>
                  && e.pending == Some(ManifestOf(e.acked.value))
                  && Readable(e.slot.dir) && Contents(e.slot.dir) == e.acked.value
                  && DigestsMatch(e.pending.value, e.slot.dir)
                  && Among(e.remote, e.acked.value))
  {
    StartInv();
    RunKeeps(states, events, |events|);
    hide Run;
    assert EntryInv(Up, states[|events|].entries[path]);
  }
}
