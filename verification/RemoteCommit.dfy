/** Committing one recording to a WebDAV store that may fail, or answer wrongly, at any call. */
module RemoteCommit {
  import opened Bytes
  import opened RemoteNames

  type Objects = map<string, Bytes>

  /** What is to be committed: a recording's path and the two bodies. */
  datatype Job = Job(path: string, media: Bytes, metadata: Bytes)

  predicate ValidJob(job: Job) { IsRecording(job.path) }

  predicate Holds(o: Objects, name: string, body: Bytes) {
    name in o && o[name] == body
  }

  predicate SameAt(o: Objects, o': Objects, name: string) {
    (name in o <==> name in o') && (name in o ==> o[name] == o'[name])
  }

  /** Both finished names hold exactly the prepared bytes. */
  predicate Committed(job: Job, o: Objects)
    requires ValidJob(job)
  {
    Holds(o, job.path, job.media) && Holds(o, SidecarPath(job.path), job.metadata)
  }

  /** Nothing else sits on a finished name. */
  predicate NoConflict(job: Job, o: Objects)
    requires ValidJob(job)
  {
    && (job.path in o ==> o[job.path] == job.media)
    && (SidecarPath(job.path) in o ==> o[SidecarPath(job.path)] == job.metadata)
  }

  // ---- One step of an attempt ---------------------------------------------

  /** The commits that the current attempt has confirmed. */
  datatype Progress = Progress(media: bool, sidecar: bool)

  const UNCONFIRMED := Progress(false, false)
  const CONFIRMED := Progress(true, true)

  predicate IsTransaction(job: Job, name: string)
    requires ValidJob(job)
  {
    name == PartialName(job.path) || name == PartialName(SidecarPath(job.path))
  }

  lemma {:induction false} NamesDiffer(job: Job)
    requires ValidJob(job)
    ensures !IsTransaction(job, job.path) && !IsTransaction(job, SidecarPath(job.path))
    ensures job.path != SidecarPath(job.path)
    ensures PartialName(job.path) != PartialName(SidecarPath(job.path))
  {
    NamesTellOwner(job.path);
    hide RoleOf, OwnerOf, SidecarPath, PartialName;
  }

  /** Only the job's transaction files, and possibly `except`, differ. */
  ghost predicate SameBut(job: Job, o: Objects, o': Objects, except: string)
    requires ValidJob(job)
  {
    forall name :: name != except && !IsTransaction(job, name) ==> SameAt(o, o', name)
  }

  ghost predicate LandsMedia(job: Job, o: Objects, o': Objects)
    requires ValidJob(job)
  {
    job.path !in o && Holds(o', job.path, job.media) && SameBut(job, o, o', job.path)
  }

  ghost predicate LandsSidecar(job: Job, p: Progress, o: Objects, o': Objects)
    requires ValidJob(job)
  {
    var name := SidecarPath(job.path);
    p.media && name !in o && Holds(o', name, job.metadata) && SameBut(job, o, o', name)
  }

  /** `told` are the server's positive answers, at the instant at which they are true: a rename that
      will be answered with success, or the start of a comparison that will find the bytes. The client
      learns of an answer, and concludes its `progress` from it, later. */
  datatype Moment = Moment(progress: Progress, told: Progress, objects: Objects)

  /** What one server call may do to the store, and what the attempt may conclude from it. */
  ghost predicate SendStep(job: Job, m: Moment, m': Moment)
    requires ValidJob(job)
  {
    var p, t, o, o' := m.progress, m.told, m.objects, m'.objects;
    || (m' == Moment(p, t, o') && SameBut(job, o, o', PartialName(job.path)))
    || (m' == Moment(p, t, o') && LandsMedia(job, o, o'))
    || (m' == Moment(p, t, o') && LandsSidecar(job, p, o, o'))
    || (m' == m.(told := t.(media := true)) && Holds(o, job.path, job.media))
    || (m' == m.(told := t.(sidecar := true)) && p.media && Holds(o, SidecarPath(job.path), job.metadata))
    || (m' == m.(progress := p.(media := true)) && t.media)
    || (m' == m.(progress := p.(sidecar := true)) && p.media && t.sidecar)
  }

  ghost predicate Attempt(job: Job, moments: seq<Moment>)
    requires ValidJob(job)
  {
    && moments != []
    && forall i :: 0 <= i < |moments| - 1 ==> SendStep(job, moments[i], moments[i + 1])
  }

  // ---- The server ---------------------------------------------------------

  /** Replies to MOVE: success, a status that says the rename was refused, a reply that leaves
      open whether it happened, or any other failure. */
  datatype Reply = Done | Refused | Ambiguous | Denied

  /** A store whose calls succeed honestly but may fail in any way. `faults` counts the calls
      that did not go as RFC 4918 says. */
  class Server {
    var objects: Objects
    var faults: nat

    /** On success the whole body is stored. A failed PUT may leave anything under that name. */
    method Put(name: string, body: Bytes) returns (ok: bool)
      modifies this
      ensures ok ==> objects == old(objects)[name := body]
      ensures forall n :: n != name ==> SameAt(old(objects), objects, n)
      ensures faults >= old(faults) && (faults == old(faults) ==> ok)
    {
      if * {
        objects := objects[name := body];
        return true;
      }
      faults := faults + 1;
      if * {
        var rubbish: Bytes := *;
        objects := objects[name := rubbish];
      }
      ok := false;
    }

    /** RFC 4918 section 9.9, with Overwrite: F. A rename that was carried out may still be
        answered with an error. */
    method Move(source: string, destination: string) returns (reply: Reply)
      requires source != destination
      modifies this
      ensures objects == old(objects)
           || (source in old(objects) && destination !in old(objects)
               && objects == (old(objects) - {source})[destination := old(objects)[source]])
      ensures reply == Done ==> objects != old(objects)
      ensures faults >= old(faults)
      ensures faults == old(faults) ==>
                if source in old(objects) && destination !in old(objects) then reply == Done
                else reply == Refused || reply == Ambiguous
    {
      if source in objects && destination !in objects {
        var body := objects[source];
        if * {
          objects := (objects - {source})[destination := body];
          if * { return Done; }
        }
        faults := faults + 1;
        reply :| reply != Done;
        return;
      }
      if * { return Refused; }
      if * { return Ambiguous; }
      faults := faults + 1;
      reply := Denied;
    }

    /** A streaming comparison; a broken connection counts as a mismatch. */
    method Matches(name: string, body: Bytes) returns (same: bool)
      modifies `faults
      ensures same ==> Holds(objects, name, body)
      ensures faults >= old(faults)
      ensures faults == old(faults) ==> (same <==> Holds(objects, name, body))
    {
      if * {
        return name in objects && objects[name] == body;
      }
      faults := faults + 1;
      same := false;
    }

    method Delete(name: string)
      modifies this
      ensures objects == old(objects) || objects == old(objects) - {name}
      ensures faults >= old(faults)
      ensures faults == old(faults) ==> objects == old(objects) - {name}
    {
      if * {
        objects := objects - {name};
      } else {
        faults := faults + 1;
      }
    }
  }

  // ---- The client ---------------------------------------------------------

  ghost predicate Reached(job: Job, moments: seq<Moment>, m: Moment)
    requires ValidJob(job)
  {
    Attempt(job, moments) && moments[|moments| - 1] == m
  }

  /** An attempt that has concluded `p`, with no answer on its way. */
  ghost predicate Ongoing(job: Job, moments: seq<Moment>, p: Progress, o: Objects)
    requires ValidJob(job)
  {
    Reached(job, moments, Moment(p, p, o))
  }

  lemma {:induction false} Goes(job: Job, moments: seq<Moment>, m: Moment, m': Moment)
    requires ValidJob(job) && Reached(job, moments, m) && SendStep(job, m, m')
    ensures moments != []
    ensures Reached(job, moments + [m'], m')
    ensures (moments + [m'])[0] == moments[0]
  {
  }

  lemma {:induction false} AttemptStarts(job: Job, p: Progress, o: Objects)
    requires ValidJob(job)
    ensures Ongoing(job, [Moment(p, p, o)], p, o)
  {
  }

  function FinalName(job: Job, sidecar: bool): string
    requires ValidJob(job)
  {
    if sidecar then SidecarPath(job.path) else job.path
  }

  function BodyOf(job: Job, sidecar: bool): Bytes {
    if sidecar then job.metadata else job.media
  }

  function Confirm(p: Progress, sidecar: bool): Progress {
    if sidecar then p.(sidecar := true) else p.(media := true)
  }

  /** Only one finished name and its transaction file differ. */
  ghost predicate SameOutside(name: string, o: Objects, o': Objects) {
    forall n :: n != name && n != PartialName(name) ==> SameAt(o, o', n)
  }

  /** The rename of a staged upload, verified by its bytes when the reply is not a clear success. */
  method Rename(server: Server, job: Job, sidecar: bool, ghost p: Progress, ghost before: seq<Moment>)
    returns (ok: bool, ghost moments: seq<Moment>)
    requires ValidJob(job) && Ongoing(job, before, p, server.objects)
    requires sidecar ==> p.media
    requires Holds(server.objects, PartialName(FinalName(job, sidecar)), BodyOf(job, sidecar))
    modifies server
    ensures moments != [] && moments[0] == before[0]
    ensures Ongoing(job, moments, if ok then Confirm(p, sidecar) else p, server.objects)
    ensures SameOutside(FinalName(job, sidecar), old(server.objects), server.objects)
    ensures server.faults >= old(server.faults)
    ensures server.faults == old(server.faults) ==>
              && (ok <==> FinalName(job, sidecar) !in old(server.objects)
                          || Holds(old(server.objects), FinalName(job, sidecar), BodyOf(job, sidecar)))
              && (ok ==> PartialName(FinalName(job, sidecar)) !in server.objects)
  {
    FinalIsNot(job, sidecar);
    hide PartialName, IsRecording, Attempt, SendStep, Ongoing, IsTransaction, Confirm, FinalName, BodyOf;
    var name, body := FinalName(job, sidecar), BodyOf(job, sidecar);
    var partial := PartialName(name);
    ghost var staged := server.objects;
    var reply := server.Move(partial, name);
    ghost var moved := server.objects;
    ok := reply == Done;
    if reply == Refused || reply == Ambiguous {
      // Believe the bytes at the destination and nothing else.
      ok := server.Matches(name, body);
      if ok {
        server.Delete(partial);
      }
    }
    moments := RenameHistory(job, sidecar, p, before, staged, moved, server.objects, ok);
  }

  lemma {:induction false} RenameHistory(job: Job, sidecar: bool, p: Progress, before: seq<Moment>,
                                         o: Objects, moved: Objects, end: Objects, ok: bool)
    returns (moments: seq<Moment>)
    requires ValidJob(job) && (sidecar ==> p.media) && Ongoing(job, before, p, o)
    requires Renamed(job, sidecar, o, moved)
    requires if ok then Holds(moved, FinalName(job, sidecar), BodyOf(job, sidecar))
                        && (end == moved || end == moved - {PartialName(FinalName(job, sidecar))})
             else end == moved
    ensures moments != [] && before != [] && moments[0] == before[0]
    ensures Ongoing(job, moments, if ok then Confirm(p, sidecar) else p, end)
  {
    PartialIsTransaction(job, sidecar);
    var partial, p' := PartialName(FinalName(job, sidecar)), Confirm(p, sidecar);
    RenameStep(job, sidecar, p, o, moved);
    hide PartialName, IsRecording, Attempt, SendStep, Reached, IsTransaction, Confirm, FinalName, BodyOf, Renamed;
    Goes(job, before, Moment(p, p, o), Moment(p, p, moved));
    moments := before + [Moment(p, p, moved)];
    if ok {
      AnswerStep(job, sidecar, p, moved);
      Goes(job, moments, Moment(p, p, moved), Moment(p, p', moved));
      moments := moments + [Moment(p, p', moved)];
      ConcludeStep(job, sidecar, p, moved);
      Goes(job, moments, Moment(p, p', moved), Moment(p', p', moved));
      moments := moments + [Moment(p', p', moved)];
      TransactionStep(job, p', moved, end, partial);
      Goes(job, moments, Moment(p', p', moved), Moment(p', p', end));
      moments := moments + [Moment(p', p', end)];
    }
  }

  /** RFC 4918 with Overwrite: F: the staged object has moved onto a free name, or nothing happened. */
  predicate Renamed(job: Job, sidecar: bool, o: Objects, o': Objects)
    requires ValidJob(job)
  {
    var name := FinalName(job, sidecar);
    && Holds(o, PartialName(name), BodyOf(job, sidecar))
    && (o' == o || (name !in o && o' == (o - {PartialName(name)})[name := o[PartialName(name)]]))
  }

  lemma {:induction false} SameOutsideChain(name: string, o: Objects, mid: Objects, o': Objects)
    requires SameOutside(name, o, mid) && SameOutside(name, mid, o')
    ensures SameOutside(name, o, o')
  {
    hide PartialName;
    forall n | n != name && n != PartialName(name) ensures SameAt(o, o', n) {
      assert SameAt(o, mid, n) && SameAt(mid, o', n);
    }
  }

  /** Uploads under the transaction name and renames; used for the media, then for the sidecar. */
  method CommitFile(server: Server, job: Job, sidecar: bool, ghost p: Progress, ghost before: seq<Moment>)
    returns (ok: bool, ghost moments: seq<Moment>)
    requires ValidJob(job) && Ongoing(job, before, p, server.objects)
    requires sidecar ==> p.media
    modifies server
    ensures moments != [] && moments[0] == before[0]
    ensures Ongoing(job, moments, if ok then Confirm(p, sidecar) else p, server.objects)
    ensures SameOutside(FinalName(job, sidecar), old(server.objects), server.objects)
    ensures server.faults >= old(server.faults)
    ensures server.faults == old(server.faults) ==>
              && (ok <==> FinalName(job, sidecar) !in old(server.objects)
                          || Holds(old(server.objects), FinalName(job, sidecar), BodyOf(job, sidecar)))
              && (ok ==> PartialName(FinalName(job, sidecar)) !in server.objects)
  {
    PartialIsTransaction(job, sidecar);
    FinalIsNot(job, sidecar);
    hide PartialName, IsRecording, Attempt, SendStep, Ongoing, IsTransaction, Confirm, FinalName, BodyOf;
    var partial := PartialName(FinalName(job, sidecar));
    ghost var o := server.objects;
    ok := server.Put(partial, BodyOf(job, sidecar));
    TransactionStep(job, p, o, server.objects, partial);
    Goes(job, before, Moment(p, p, o), Moment(p, p, server.objects));
    moments := before + [Moment(p, p, server.objects)];
    if ok {
      assert SameAt(o, server.objects, FinalName(job, sidecar));
      ghost var staged := server.objects;
      assert SameOutside(FinalName(job, sidecar), o, staged);
      ok, moments := Rename(server, job, sidecar, p, moments);
      SameOutsideChain(FinalName(job, sidecar), o, staged, server.objects);
    }
  }

  lemma {:induction false} FinalIsNot(job: Job, sidecar: bool)
    requires ValidJob(job)
    ensures PartialName(FinalName(job, sidecar)) != FinalName(job, sidecar)
    ensures !IsTransaction(job, FinalName(job, sidecar))
  {
    NamesDiffer(job);
    hide SidecarPath, PartialName, IsRecording;
  }

  lemma {:induction false} TransactionStep(job: Job, p: Progress, o: Objects, o': Objects, partial: string)
    requires ValidJob(job) && IsTransaction(job, partial)
    requires forall n :: n != partial ==> SameAt(o, o', n)
    ensures SendStep(job, Moment(p, p, o), Moment(p, p, o'))
  {
    hide SidecarPath, PartialName, SameAt;
  }

  lemma {:induction false} PartialIsTransaction(job: Job, sidecar: bool)
    requires ValidJob(job)
    ensures IsTransaction(job, PartialName(FinalName(job, sidecar)))
  {
  }

  lemma {:induction false} AnswerStep(job: Job, sidecar: bool, p: Progress, o: Objects)
    requires ValidJob(job) && (sidecar ==> p.media)
    requires Holds(o, FinalName(job, sidecar), BodyOf(job, sidecar))
    ensures SendStep(job, Moment(p, p, o), Moment(p, Confirm(p, sidecar), o))
  {
    hide SidecarPath, PartialName;
  }

  lemma {:induction false} ConcludeStep(job: Job, sidecar: bool, p: Progress, o: Objects)
    requires ValidJob(job) && (sidecar ==> p.media)
    ensures SendStep(job, Moment(p, Confirm(p, sidecar), o), Moment(Confirm(p, sidecar), Confirm(p, sidecar), o))
  {
    hide SidecarPath, PartialName;
  }

  lemma {:induction false} RenameStep(job: Job, sidecar: bool, p: Progress, o: Objects, o': Objects)
    requires ValidJob(job) && (sidecar ==> p.media)
    requires Renamed(job, sidecar, o, o')
    ensures SendStep(job, Moment(p, p, o), Moment(p, p, o'))
  {
    hide SidecarPath, PartialName;
    var name := FinalName(job, sidecar);
    assert IsTransaction(job, PartialName(name));
    if o' == o {
      assert SameBut(job, o, o', PartialName(job.path));
    } else {
      assert SameBut(job, o, o', name);
    }
  }

  /** What a failed attempt leaves under the transaction names is removed, if the server will. */
  method DropPartials(server: Server, job: Job, ghost p: Progress, ghost before: seq<Moment>)
    returns (ghost moments: seq<Moment>)
    requires ValidJob(job) && Ongoing(job, before, p, server.objects)
    modifies server
    ensures moments != [] && moments[0] == before[0] && Ongoing(job, moments, p, server.objects)
    ensures server.faults >= old(server.faults)
    ensures server.faults == old(server.faults) ==>
              PartialName(job.path) !in server.objects && PartialName(SidecarPath(job.path)) !in server.objects
  {
    PartialIsTransaction(job, false);
    PartialIsTransaction(job, true);
    hide SidecarPath, PartialName, IsRecording, Attempt, SendStep, Reached, IsTransaction;
    moments := before;
    ghost var o := server.objects;
    server.Delete(PartialName(job.path));
    TransactionStep(job, p, o, server.objects, PartialName(job.path));
    Goes(job, moments, Moment(p, p, o), Moment(p, p, server.objects));
    moments := moments + [Moment(p, p, server.objects)];
    o := server.objects;
    server.Delete(PartialName(SidecarPath(job.path)));
    TransactionStep(job, p, o, server.objects, PartialName(SidecarPath(job.path)));
    Goes(job, moments, Moment(p, p, o), Moment(p, p, server.objects));
    moments := moments + [Moment(p, p, server.objects)];
  }

  /** One attempt to commit a recording. Every server call in it is a `SendStep`; success means
      that both commits were confirmed; and when no call goes wrong the attempt succeeds exactly
      if no finished name holds something else, and leaves no transaction file either way. */
  method WritePrepared(server: Server, job: Job) returns (ok: bool, ghost moments: seq<Moment>)
    requires ValidJob(job)
    modifies server
    ensures moments != [] && moments[0] == Moment(UNCONFIRMED, UNCONFIRMED, old(server.objects))
    ensures Attempt(job, moments) && moments[|moments| - 1].objects == server.objects
    ensures ok ==> moments[|moments| - 1].progress == CONFIRMED
    ensures server.faults >= old(server.faults)
    ensures server.faults == old(server.faults) ==> (ok <==> NoConflict(job, old(server.objects)))
    ensures server.faults == old(server.faults) ==>
              PartialName(job.path) !in server.objects && PartialName(SidecarPath(job.path)) !in server.objects
  {
    NamesDiffer(job);
    hide SidecarPath, PartialName, IsRecording, Attempt, SendStep, Ongoing, Reached;
    PartialIsTransaction(job, false);
    PartialIsTransaction(job, true);
    ghost var p := UNCONFIRMED;
    AttemptStarts(job, p, server.objects);
    moments := [Moment(p, p, server.objects)];
    ok, moments := CommitFile(server, job, false, p, moments);
    if ok {
      p := p.(media := true);
      ghost var mid := server.objects;
      assert SameAt(old(server.objects), mid, SidecarPath(job.path));
      ok, moments := CommitFile(server, job, true, p, moments);
      assert SameAt(mid, server.objects, PartialName(job.path));
      if ok {
        ghost var end := p.(sidecar := true);
        EndOf(job, moments, end, server.objects);
        return true, moments;
      }
    }
    moments := DropPartials(server, job, p, moments);
    EndOf(job, moments, p, server.objects);
    ok := false;
  }

  lemma {:induction false} EndOf(job: Job, moments: seq<Moment>, p: Progress, o: Objects)
    requires ValidJob(job) && Ongoing(job, moments, p, o)
    ensures Attempt(job, moments) && moments != [] && moments[|moments| - 1] == Moment(p, p, o)
  {
  }

  // ---- What every attempt keeps -------------------------------------------

  /** Answers and confirmations are true: the name still holds exactly the job's bytes. */
  predicate Honest(job: Job, m: Moment)
    requires ValidJob(job)
  {
    && (m.progress.media ==> m.told.media) && (m.progress.sidecar ==> m.told.sidecar && m.progress.media)
    && (m.told.media ==> Holds(m.objects, job.path, job.media))
    && (m.told.sidecar ==> Holds(m.objects, SidecarPath(job.path), job.metadata))
  }

  /** A sidecar is never visible without its media object. */
  predicate Paired(job: Job, o: Objects)
    requires ValidJob(job)
  {
    SidecarPath(job.path) in o ==> job.path in o
  }

  /** Nothing that is in place under a finished name is ever changed or removed. */
  ghost predicate FinalsKept(job: Job, o: Objects, o': Objects)
    requires ValidJob(job)
  {
    forall name :: !IsTransaction(job, name) && name in o ==> Holds(o', name, o[name])
  }

  /** No foreign object appears, changes or disappears. */
  ghost predicate ForeignSame(job: Job, o: Objects, o': Objects)
    requires ValidJob(job)
  {
    forall name :: !IsTransaction(job, name) && name != job.path && name != SidecarPath(job.path) ==>
          SameAt(o, o', name)
  }

  lemma {:induction false} StepKeeps(job: Job, m: Moment, m': Moment)
    requires ValidJob(job) && Honest(job, m)
    requires SendStep(job, m, m')
    ensures Honest(job, m')
    ensures FinalsKept(job, m.objects, m'.objects) && ForeignSame(job, m.objects, m'.objects)
    ensures Paired(job, m.objects) ==> Paired(job, m'.objects)
    ensures NoConflict(job, m.objects) ==> NoConflict(job, m'.objects)
  {
    NamesDiffer(job);
    hide SidecarPath, PartialName, IsRecording, IsTransaction;
    var o, o' := m.objects, m'.objects;
    var except :=
      if LandsMedia(job, o, o') then job.path
      else if LandsSidecar(job, m.progress, o, o') then SidecarPath(job.path)
      else PartialName(job.path);
    assert o' == o || SameBut(job, o, o', except);
    assert job.path != except ==> SameAt(o, o', job.path);
    assert SidecarPath(job.path) != except ==> SameAt(o, o', SidecarPath(job.path));
  }

  /** Whatever the server did to any number of calls: finished objects survive, other recordings
      are untouched, no sidecar precedes its media, no conflict arises, and an attempt that saw
      both confirmations has committed both bodies exactly. */
  lemma {:induction false} AttemptKeeps(job: Job, moments: seq<Moment>)
    requires ValidJob(job) && Attempt(job, moments) && moments[0].progress == moments[0].told == UNCONFIRMED
    ensures var first, last := moments[0].objects, moments[|moments| - 1];
            && Honest(job, last)
            && FinalsKept(job, first, last.objects) && ForeignSame(job, first, last.objects)
            && (Paired(job, first) ==> Paired(job, last.objects))
            && (NoConflict(job, first) ==> NoConflict(job, last.objects))
            && (last.progress == CONFIRMED ==> Committed(job, last.objects))
    decreases |moments|
  {
    if |moments| > 1 {
      var init := moments[..|moments| - 1];
      AttemptKeeps(job, init);
      hide SendStep;
      StepKeeps(job, moments[|moments| - 2], moments[|moments| - 1]);
    }
  }

  /** Replaying the same bytes until they are in: from a store without conflict, every attempt
      that fails has cost the server a fault. So retries converge once faults stop. */
  method Replay(server: Server, job: Job, attempts: nat) returns (ok: bool)
    requires ValidJob(job)
    modifies server
    ensures ok ==> Committed(job, server.objects)
    ensures FinalsKept(job, old(server.objects), server.objects)
    ensures ForeignSame(job, old(server.objects), server.objects)
    ensures Paired(job, old(server.objects)) ==> Paired(job, server.objects)
    ensures NoConflict(job, old(server.objects)) && !ok ==> server.faults >= old(server.faults) + attempts
  {
    ok := false;
    for i := 0 to attempts
      invariant !ok
      invariant FinalsKept(job, old(server.objects), server.objects)
      invariant ForeignSame(job, old(server.objects), server.objects)
      invariant Paired(job, old(server.objects)) ==> Paired(job, server.objects)
      invariant NoConflict(job, old(server.objects)) ==> NoConflict(job, server.objects)
      invariant NoConflict(job, old(server.objects)) ==> server.faults >= old(server.faults) + i
    {
      ghost var moments;
      ok, moments := WritePrepared(server, job);
      AttemptKeeps(job, moments);
      if ok {
        return;
      }
    }
  }
}
