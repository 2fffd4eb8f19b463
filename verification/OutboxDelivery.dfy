/** From the outbox to the remote store: its upload steps are those of `RemoteCommit`, a batch can
    always be persisted and delivered, and what one unlucky cleanup does. */
module OutboxDelivery {
  import opened Wrappers
  import opened Bytes
  import opened RemoteNames
  import opened RemoteCommit
  import opened SpoolDisk
  import opened Outbox
  import opened OutboxRuns

  // ---- The upload seen at the finished names ------------------------------

  function At(o: Objects, name: string): Option<Bytes> {
    if name in o then Some(o[name]) else None
  }

  function View(o: Objects, path: string): Pair
    requires IsRecording(path)
  {
    Pair(At(o, path), At(o, SidecarPath(path)))
  }

  lemma {:induction false} OwnersDiffer(name: string, other: string)
    requires OwnerOf(name) != OwnerOf(other)
    ensures name != other
  {
  }

  lemma {:induction false} OthersNames(path: string, other: string)
    requires IsRecording(path) && IsRecording(other) && path != other
    ensures other != path && other != SidecarPath(path)
    ensures other != PartialName(path) && other != PartialName(SidecarPath(path))
    ensures SidecarPath(other) != path && SidecarPath(other) != SidecarPath(path)
    ensures SidecarPath(other) != PartialName(path) && SidecarPath(other) != PartialName(SidecarPath(path))
  {
    hide RoleOf, OwnerOf, SidecarPath, PartialName, IsRecording;
    NamesTellOwner(path);
    NamesTellOwner(other);
    OwnersDiffer(other, SidecarPath(path));
    OwnersDiffer(other, PartialName(path));
    OwnersDiffer(other, PartialName(SidecarPath(path)));
    OwnersDiffer(SidecarPath(other), path);
    OwnersDiffer(SidecarPath(other), SidecarPath(path));
    OwnersDiffer(SidecarPath(other), PartialName(path));
    OwnersDiffer(SidecarPath(other), PartialName(SidecarPath(path)));
  }

  /** Each server call of an attempt is one `PairStep` of its own entry and none of any other. */
  lemma {:induction false} SendRefines(job: Job, m: Moment, m': Moment, other: string)
    requires ValidJob(job) && SendStep(job, m, m')
    requires IsRecording(other) && other != job.path
    ensures PairStep(Sealed(job.media, job.metadata), m.progress, m.told, View(m.objects, job.path),
                     m'.progress, m'.told, View(m'.objects, job.path))
    ensures View(m'.objects, other) == View(m.objects, other)
  {
    NamesDiffer(job);
    OthersNames(job.path, other);
    hide SidecarPath, PartialName, IsRecording;
    var o, o' := m.objects, m'.objects;
    if o' != o {
      var except :=
        if LandsMedia(job, o, o') then job.path
        else if LandsSidecar(job, m.progress, o, o') then SidecarPath(job.path)
        else PartialName(job.path);
      assert SameBut(job, o, o', except);
      assert job.path != except ==> SameAt(o, o', job.path);
      assert SidecarPath(job.path) != except ==> SameAt(o, o', SidecarPath(job.path));
      assert SameAt(o, o', other) && SameAt(o, o', SidecarPath(other));
    }
  }

  // ---- What is there gets through ------------------------------------------

  lemma {:induction false} FillsFiles(e: Entry, begun: seq<Action>, mid: Entry, s: Sealed)
    returns (actions: seq<Action>, last: Entry)
    requires Does(Up, e, begun, mid) && mid.writer == Writing(s) && mid.slot.dir == FreshDir(s)
    ensures Does(Up, e, actions, last)
    ensures last == WithDir(mid, Dir(s, File(s.media, true, true), File(s.metadata, true, true),
                                     File(Text(ManifestOf(s)), true, true), false))
  {
    hide Does, Loads, Full, PairStep;
    actions, last := Then(Up, e, begun, mid, BeginMedia([]));
    actions, last := Then(Up, e, actions, last, SyncMedia);
    actions, last := Then(Up, e, actions, last, BeginMetadata([]));
    actions, last := Then(Up, e, actions, last, SyncMetadata);
    actions, last := Then(Up, e, actions, last, BeginManifest(Garbage));
    actions, last := Then(Up, e, actions, last, SyncManifest);
  }

  lemma {:induction false} Publishes(e: Entry, begun: seq<Action>, mid: Entry, s: Sealed)
    returns (actions: seq<Action>, last: Entry)
    requires Does(Up, e, begun, mid) && mid.writer == Writing(s) && mid.slot.dir.of == s && Firm(mid.slot.dir.manifest)
    ensures Does(Up, e, actions, last) && last.acked == Some(s) && last.sent == mid.sent
  {
    hide Does, Loads, Full, Filling, PairStep, SoundDir;
    actions, last := Then(Up, e, begun, mid, SyncDir);
    actions, last := Then(Up, e, actions, last, Publish);
    actions, last := Then(Up, e, actions, last, WriteBack);
    actions, last := Then(Up, e, actions, last, Acknowledge);
  }

  /** One attempt at a path that nothing is in the way of. */
  lemma {:induction false} Persists(e: Entry, begun: seq<Action>, mid: Entry, s: Sealed)
    returns (actions: seq<Action>, last: Entry)
    requires Does(Up, e, begun, mid) && mid.writer == Ready(s) && mid.slot.name == Nowhere
    ensures Does(Up, e, actions, last) && last.acked == Some(s) && last.sent == mid.sent
  {
    hide Does, Loads, Full, PairStep, SoundDir;
    actions, last := Then(Up, e, begun, mid, MakeDir);
    actions, last := FillsFiles(e, actions, last, s);
    actions, last := Publishes(e, actions, last, s);
  }

  /** If nothing fails, `write_batch` gets a new batch to disk and returns. */
  lemma {:induction false} PersistSucceeds(e: Entry, s: Sealed) returns (actions: seq<Action>, last: Entry)
    requires NewEntry(e) && ValidSealed(s)
    ensures Does(Up, e, actions, last) && last.acked == Some(s) && last.sent.None?
  {
    hide Does, Loads, Full, PairStep, SoundDir;
    DoesNothing(Up, e);
    actions, last := Then(Up, e, [], e, Seal(s));
    actions, last := Persists(e, actions, last, s);
  }

  /** A complete directory of an earlier attempt is adopted. */
  lemma {:induction false} Adopts(e: Entry, begun: seq<Action>, mid: Entry)
    returns (actions: seq<Action>, last: Entry)
    requires Does(Up, e, begun, mid) && mid.slot.name == Final && Loads(mid.slot.dir)
    requires mid.writer.Ready? || mid.writer.Adopting?
    ensures Does(Up, e, actions, last) && last.acked.Some?
  {
    hide Does, Full, PairStep, SoundDir;
    actions, last := begun, mid;
    if mid.writer.Ready? {
      actions, last := Then(Up, e, actions, last, Adopt);
    }
    actions, last := Then(Up, e, actions, last, WriteBack);
    actions, last := Then(Up, e, actions, last, AcknowledgeAdopted);
  }

  /** A failed attempt takes its directory away again. */
  lemma {:induction false} ClearsAway(e: Entry, begun: seq<Action>, mid: Entry)
    returns (actions: seq<Action>, last: Entry)
    requires Does(Up, e, begun, mid) && mid.writer.Clearing?
    ensures Does(Up, e, actions, last) && last.writer.Held? && last.slot.name == Nowhere
  {
    hide Does, Loads, Full, PairStep, SoundDir;
    actions, last := Then(Up, e, begun, mid, ClearManifest);
    actions, last := Then(Up, e, actions, last, ClearMetadata);
    actions, last := Then(Up, e, actions, last, ClearMedia);
    actions, last := Then(Up, e, actions, last, ClearDir);
  }

  /** An attempt was interrupted and its directory retained: "requires recovery before retry". */
  predicate Interrupted(e: Entry) { (e.writer.Held? || e.writer.Ready?) && e.slot.name == Partial }

  /** From there no attempt in this process gets anywhere, whatever happens to the entry. */
  lemma {:induction false} InterruptedStays(a: Action, e: Entry)
    requires EntryInv(Up, e) && Interrupted(e) && Enabled(a, Up, e)
    ensures Interrupted(Apply(a, e)) && Apply(a, e).acked.None?
  {
    hide PairStep, Full, Filling, SoundDir;
  }

  lemma {:induction false} NextAttempt(e: Entry, begun: seq<Action>, mid: Entry, s: Sealed)
    returns (actions: seq<Action>, last: Entry)
    requires Does(Up, e, begun, mid) && mid.writer.Held? && ValidSealed(s)
    requires mid.slot.name == Nowhere || (mid.slot.name == Final && Loads(mid.slot.dir))
    ensures Does(Up, e, actions, last) && last.acked.Some?
  {
    hide Does, Loads, Full, PairStep, SoundDir;
    actions, last := Then(Up, e, begun, mid, Seal(s));
    if mid.slot.name == Nowhere {
      actions, last := Persists(e, actions, last, s);
    } else {
      actions, last := Adopts(e, actions, last);
    }
  }

  /** Wherever the worker is with a batch that it holds in RAM, it can still get it acknowledged,
      after any number of failed attempts, unless one of them was interrupted. */
  lemma {:induction false} RetrySucceeds(e: Entry, s: Sealed) returns (actions: seq<Action>, last: Entry)
    requires EntryInv(Up, e) && !e.writer.NoBatch? && !Interrupted(e) && ValidSealed(s)
    ensures Does(Up, e, actions, last) && last.acked.Some?
  {
    WriterPlace(e);
    hide Does, EntryInv, Loads, PairStep;
    DoesNothing(Up, e);
    actions, last := [], e;
    match e.writer
    case Held =>
      actions, last := NextAttempt(e, [], e, s);
    case Ready(sealing) =>
      if e.slot.name == Nowhere {
        actions, last := Persists(e, [], e, sealing);
      } else {
        actions, last := Adopts(e, [], e);
      }
    case Published(_) =>
      actions, last := Then(Up, e, [], e, WriteBack);
      actions, last := Then(Up, e, actions, last, Acknowledge);
    case Adopting =>
      actions, last := Adopts(e, [], e);
    case Writing(_) | Written(_) | Clearing =>
      if !e.writer.Clearing? {
        actions, last := Then(Up, e, [], e, Abandon);
      }
      actions, last := ClearsAway(e, actions, last);
      actions, last := NextAttempt(e, actions, last, s);
  }

  lemma {:induction false} WriterPlace(e: Entry)
    requires EntryInv(Up, e) && !e.writer.NoBatch?
    ensures e.slot.name != Committed && (e.slot.name == Final ==> Loads(e.slot.dir))
    ensures e.writer.Adopting? ==> e.slot.name == Final
  {
    if e.slot.name == Final { FullLoads(e.slot.dir); }
  }

  predicate ReadyToGo(e: Entry, a: Sealed) {
    EntryInv(Up, e) && e.acked == Some(a) && e.sent.None? && e.courier.Idle?
  }

  const HALF := Progress(true, false)

  /** The media is put in place, unless it is already, and confirmed. */
  lemma {:induction false} CommitsMedia(e: Entry, begun: seq<Action>, mid: Entry, a: Sealed)
    returns (actions: seq<Action>, last: Entry)
    requires Does(Up, e, begun, mid) && mid.courier == Sending(a, UNCONFIRMED, UNCONFIRMED) && Among(mid.remote, a)
    ensures Does(Up, e, actions, last) && begun <= actions
    ensures last == mid.(courier := Sending(a, HALF, HALF), remote := mid.remote.(media := Some(a.media)))
  {
    hide Does, Loads, Full;
    actions, last := Then(Up, e, begun, mid, Send(UNCONFIRMED, HALF, mid.remote.(media := Some(a.media))));
    actions, last := Then(Up, e, actions, last, Send(HALF, HALF, last.remote));
  }

  /** The same for the sidecar, whatever is there of the media by now. */
  lemma {:induction false} CommitsSidecar(e: Entry, begun: seq<Action>, mid: Entry, a: Sealed)
    returns (actions: seq<Action>, last: Entry)
    requires Does(Up, e, begun, mid) && Among(mid.remote, a)
    requires mid.courier.Sending? && mid.courier.s == a && mid.courier.p.media && mid.courier.told.media
    ensures Does(Up, e, actions, last) && begun <= actions
    ensures last == mid.(courier := Sending(a, CONFIRMED, CONFIRMED),
          remote := mid.remote.(sidecar := Some(a.metadata)))
  {
    hide Does, Loads, Full;
    var r := mid.remote.(sidecar := Some(a.metadata));
    actions, last := Then(Up, e, begun, mid, Send(mid.courier.p, CONFIRMED, r));
    actions, last := Then(Up, e, actions, last, Send(CONFIRMED, CONFIRMED, r));
  }

  /** The upload of an acknowledged batch up to both confirmations, whatever is at its finished
      names already. */
  lemma {:induction false} UploadSucceeds(e: Entry, a: Sealed) returns (actions: seq<Action>, last: Entry)
    requires ReadyToGo(e, a)
    ensures Does(Up, e, actions, last)
    ensures last == e.(courier := Sending(a, CONFIRMED, CONFIRMED), remote := Pair(Some(a.media), Some(a.metadata)),
                       expired := false)
  {
    actions, last := Picks(e, a);
    assert Among(e.remote, a);
    hide Does, EntryInv, Loads, Full, PairStep;
    actions, last := CommitsMedia(e, actions, last, a);
    actions, last := CommitsSidecar(e, actions, last, a);
  }

  lemma {:induction false} Picks(e: Entry, a: Sealed) returns (actions: seq<Action>, last: Entry)
    requires ReadyToGo(e, a)
    ensures Does(Up, e, actions, last)
    ensures last == e.(courier := Sending(a, UNCONFIRMED, UNCONFIRMED), expired := false)
  {
    FullLoads(e.slot.dir);
    LoadedIsExact(e.slot.dir);
    hide Does, EntryInv, Loads, Full, PairStep;
    DoesNothing(Up, e);
    assert e.pending == Some(ManifestOf(a)) && e.slot.name == Final && e.slot.dir.of == a;
    actions, last := Then(Up, e, [], e, Pick);
  }

  /** Whatever has become of the files: an upload streams the very bytes that the manifest was made
      from, or the entry is blocked. */
  lemma {:induction false} UploadChecksBytes(phase: Phase, e: Entry, s: Sealed)
    requires Enabled(Pick, phase, e) && e.pending == Some(ManifestOf(s))
    ensures Apply(Pick, e).courier
         == if Contents(e.slot.dir) == s then Sending(s, UNCONFIRMED, UNCONFIRMED) else Blocked
  {
    hide PairStep, Loads, Full, Filling;
  }

  /** With both confirmations the entry is renamed, and the rename made durable. */
  lemma {:induction false} Retires(e: Entry, begun: seq<Action>, mid: Entry, a: Sealed)
    returns (actions: seq<Action>, last: Entry)
    requires Does(Up, e, begun, mid) && mid.courier == Sending(a, CONFIRMED, CONFIRMED) && mid.slot.name == Final
    ensures Does(Up, e, actions, last) && begun <= actions
    ensures last == mid.(slot := last.slot, courier := Cleaning, sent := Some(a))
    ensures last.slot.name == Committed && Settled(last.slot)
  {
    hide Does, Loads, Full;
    actions, last := Then(Up, e, begun, mid, Retire);
    actions, last := Then(Up, e, actions, last, WriteBack);
    actions, last := Then(Up, e, actions, last, RetireSynced);
  }

  lemma {:induction false} DropsFiles(e: Entry, begun: seq<Action>, mid: Entry)
    returns (actions: seq<Action>, last: Entry)
    requires Does(Up, e, begun, mid) && mid.courier.Cleaning? && mid.slot.name == Committed
    ensures Does(Up, e, actions, last) && begun <= actions && last == WithDir(mid, Emptied(mid.slot.dir))
  {
    hide Does, Loads, Full, PairStep;
    actions, last := Then(Up, e, begun, mid, DropMedia);
    actions, last := Then(Up, e, actions, last, DropMetadata);
    actions, last := Then(Up, e, actions, last, DropManifest);
  }

  /** A committed directory is emptied and removed. */
  lemma {:induction false} Sweeps(e: Entry, begun: seq<Action>, mid: Entry)
    returns (actions: seq<Action>, last: Entry)
    requires Does(Up, e, begun, mid) && mid.courier.Cleaning? && mid.slot.name == Committed
    ensures Does(Up, e, actions, last) && begun <= actions
    ensures last == mid.(slot := last.slot, courier := Idle, pending := None)
    ensures last.slot.name == Nowhere && Settled(last.slot)
  {
    hide Does, Loads, Full, PairStep;
    actions, last := DropsFiles(e, begun, mid);
    actions, last := Then(Up, e, actions, last, DropDir);
    actions, last := Then(Up, e, actions, last, WriteBack);
  }

  lemma {:induction false} DeliversIdle(e: Entry, a: Sealed) returns (actions: seq<Action>, last: Entry)
    requires ReadyToGo(e, a)
    ensures Does(Up, e, actions, last)
    ensures RemoteHas(last.remote, a) && last.slot.name == Nowhere && last.pending.None?
  {
    actions, last := UploadSucceeds(e, a);
    actions, last := Retires(e, actions, last, a);
    actions, last := Sweeps(e, actions, last);
  }

  /** If nothing fails any more, every acknowledged batch reaches the remote store exactly, and
      leaves the disk; an upload that is under way may even fail first. */
  lemma {:induction false} DeliverySucceeds(e: Entry, a: Sealed) returns (actions: seq<Action>, last: Entry)
    requires EntryInv(Up, e) && e.acked == Some(a) && e.sent.None?
    ensures Does(Up, e, actions, last)
    ensures RemoteHas(last.remote, a) && last.slot.name == Nowhere && last.pending.None?
  {
    hide Does, EntryInv, RemoteHas;
    NotGivenUp(e);
    if e.courier.Idle? {
      actions, last := DeliversIdle(e, a);
    } else {
      DoesNothing(Up, e);
      var failed, mid := Then(Up, e, [], e, SendFails);
      CourierKeeps(SendFails, Up, e);
      actions, last := DeliversIdle(mid, a);
      DoesBoth(Up, e, failed, mid, actions, last);
      actions := failed + actions;
    }
  }

  lemma {:induction false} NotGivenUp(e: Entry)
    requires EntryInv(Up, e) && e.sent.None?
    ensures e.courier.Idle? || e.courier.Sending?
  {
  }

  // ---- The cleanup of old remote orphans ----------------------------------

  /** Acknowledged, not whole on the remote store, and on disk in no directory that the program
      will read again, whatever crash comes. */
  predicate Lost(e: Entry, a: Sealed) {
    && e.acked == Some(a) && !e.expired
    && e.remote.media.None?
    && Settled(e.slot) && !WillLoad(e.slot)
  }

  /** An upload that is bound to hear that its media is in place goes on over the hole that the
      cleanup made: it commits and confirms the sidecar, gives the directory up, and removes it. */
  lemma {:induction false} UploadGoesOn(e: Entry, a: Sealed) returns (actions: seq<Action>, last: Entry)
    requires e.acked == Some(a) && !e.expired && e.remote.media.None? && Among(e.remote, a)
    requires InWindow(e.courier) && e.courier.s == a && e.slot.name == Final
    ensures Does(Up, e, actions, last) && Lost(last, a) && last.slot.name == Nowhere
  {
    hide Does, Loads, Full;
    DoesNothing(Up, e);
    var p, t := e.courier.p, e.courier.told;
    actions, last := Then(Up, e, [], e, Send(p.(media := true), t, e.remote));
    actions, last := CommitsSidecar(e, actions, last, a);
    hide PairStep;
    actions, last := Retires(e, actions, last, a);
    actions, last := Sweeps(e, actions, last);
  }

  /** The cleanup takes no lock against the upload. From the moment at which the upload is bound to
      hear that its media is in place until it has given the directory up, the cleanup leads to the
      loss of the footage. */
  lemma {:induction false} CleanupLosesFootage(e: Entry, a: Sealed) returns (actions: seq<Action>, last: Entry)
    requires EntryInv(Up, e) && e.acked == Some(a) && !e.expired && InWindow(e.courier)
    ensures Does(Up, Apply(Reap, e), actions, last) && Lost(last, a) && last.slot.name == Nowhere
  {
    assert e.courier.s == a && e.slot.name == Final && Among(e.remote, a);
    hide EntryInv, Does;
    actions, last := UploadGoesOn(Apply(Reap, e), a);
  }

  /** That moment comes before the upload knows anything. From every state in which the cleanup can
      list a pending recording, a retry may begin to compare the media that it finds in place; it has
      heard nothing yet when the cleanup deletes it, and the footage is lost all the same. */
  lemma {:induction false} ComparisonLosesFootage(e: Entry, a: Sealed)
    returns (actions: seq<Action>, mid: Entry, later: seq<Action>, last: Entry)
    requires ReadyToGo(e, a) && Reapable(e)
    ensures Does(Up, e, actions, mid) && mid.courier == Sending(a, UNCONFIRMED, HALF)
    ensures Does(Up, Apply(Reap, mid), later, last) && Lost(last, a) && last.slot.name == Nowhere
  {
    actions, mid := ComparisonBegins(e, a);
    hide Does, EntryInv, Loads, Full, PairStep;
    later, last := UploadGoesOn(Apply(Reap, mid), a);
  }

  lemma {:induction false} ComparisonBegins(e: Entry, a: Sealed) returns (actions: seq<Action>, mid: Entry)
    requires ReadyToGo(e, a) && Reapable(e)
    ensures Does(Up, e, actions, mid) && Among(e.remote, a) && e.slot.name == Final
    ensures mid == e.(courier := Sending(a, UNCONFIRMED, HALF), expired := false)
  {
    actions, mid := Picks(e, a);
    assert Among(e.remote, a) && e.slot.name == Final;
    hide Does, EntryInv, Loads, Full;
    actions, mid := Then(Up, e, actions, mid, Send(UNCONFIRMED, HALF, mid.remote));
  }

  /** Nor does it look again before it deletes. From every state in which it can list a pending
      recording as an orphan, with no upload running, the upload may come to its end before the
      deletion; at that moment, too, no upload is running, and the deletion takes the only copy. */
  lemma {:induction false} LateCleanupLosesFootage(e: Entry, a: Sealed) returns (actions: seq<Action>, last: Entry)
    requires ReadyToGo(e, a) && Reapable(e)
    ensures Does(Up, e, actions, last) && Look in actions
    ensures last.listing.orphan && last.sent == Some(a) && !InWindow(last.courier)
    ensures Lost(Apply(Reap, last), a) && last.slot.name == Nowhere
  {
    DoesNothing(Up, e);
    var looked, uploading: seq<Action>, mid;
    looked, mid := Then(Up, e, [], e, Look);
    ListingKeeps(Up, e, mid.listing);
    uploading, last := UploadSucceeds(mid, a);
    assert mid.slot.name == Final;
    hide EntryInv, Loads, Full, PairStep;
    actions := looked + uploading;
    DoesBoth(Up, e, looked, mid, uploading, last);
    hide Does;
    actions, last := Retires(e, actions, last, a);
    actions, last := Sweeps(e, actions, last);
  }

  /** In every state in which the cleanup may not delete what it has listed, deleting it leads to
      the loss of the footage. */
  lemma {:induction false} UnsafeCleanupLoses(e: Entry, a: Sealed) returns (actions: seq<Action>, last: Entry)
    requires EntryInv(Up, e) && e.acked == Some(a) && !e.expired && !MayReap(e)
    ensures Does(Up, Apply(Reap, e), actions, last) && Lost(last, a)
  {
    if e.sent.None? {
      actions, last := CleanupLosesFootage(e, a);
    } else {
      hide Does;
      DoesNothing(Up, Apply(Reap, e));
      actions, last := Then(Up, Apply(Reap, e), [], Apply(Reap, e), WriteBack);
    }
  }

  /** Deleting what was listed keeps the promises exactly when no upload has been told, or is bound to
      be told, that the media is in place, and no directory has been given up for it. */
  lemma {:induction false} CleanupIsSafeExactly(phase: Phase, e: Entry)
    requires EntryInv(phase, e) && e.remote.media.Some? && !e.expired
    ensures EntryInv(phase, Apply(Reap, e)) <==> MayReap(e)
  {
    if MayReap(e) {
      var listed := e.(listing := e.listing.(orphan := true));
      ListingKeeps(phase, e, listed.listing);
      DeletionKeeps(Reap, phase, listed);
      ListingKeeps(phase, Apply(Reap, listed), e.listing);
      hide EntryInv;
      assert Apply(Reap, listed).(listing := e.listing) == Apply(Reap, e);
    }
  }
}
