/** Oldest-first deletion by age, size, free space, and on request, in the local store and in the
    WebDAV store. */
module Retention {
  import opened Wrappers

  /** A recording: its path, its time, and its size on disk. */
  datatype Record = Record(path: string, time: int, size: nat)

  /** `cutoff`: older recordings go. `maxBytes` and `minFree`: zero means no limit. */
  datatype Policy = Policy(cutoff: Option<int>, maxBytes: nat, minFree: nat, minDelete: nat, maxFiles: Option<nat>)

  datatype Report = Report(deletedFiles: nat, deletedBytes: nat, remainingBytes: nat)

  function Sum(records: seq<Record>): (r: nat)
    ensures records == [] ==> r == 0
  {
    if records == [] then 0 else Sum(records[..|records| - 1]) + records[|records| - 1].size
  }

  predicate Sorted(records: seq<Record>) {
    forall i, j :: 0 <= i < j < |records| ==> records[i].time <= records[j].time
  }

  predicate Distinct(records: seq<Record>) {
    forall i, j :: 0 <= i < j < |records| ==> records[i] != records[j]
  }

  // ---- What a phase should delete -----------------------------------------

  /** The first `k` records are as few as free `need` bytes, unless `limit` or the list ends first. */
  predicate IsCut(records: seq<Record>, k: nat, need: int, limit: Option<nat>) {
    && k <= |records|
    && (k > 0 ==> Sum(records[..k - 1]) < need)
    && (limit.Some? ==> k <= limit.value)
    && (k < |records| ==> Sum(records[..k]) >= need || (limit.Some? && k == limit.value))
  }

  predicate IsOld(record: Record, cutoff: Option<int>) { cutoff.Some? && record.time < cutoff.value }

  predicate IsAgeCut(records: seq<Record>, k: nat, cutoff: Option<int>) {
    && k <= |records|
    && (forall i :: 0 <= i < k ==> IsOld(records[i], cutoff))
    && (forall i :: k <= i < |records| ==> !IsOld(records[i], cutoff))
  }

  /** Where the four phases end in the list. */
  datatype Cuts = Cuts(age: nat, size: nat, free: nat, emergency: nat)

  /** What the policy asks for: each phase goes on where the one before it stopped; what was deleted
      already counts towards the emergency request. `free`: what the store reports after the size phase. */
  predicate Asks(p: Policy, records: seq<Record>, free: Option<nat>, c: Cuts) {
    && c.age <= c.size <= c.free <= c.emergency <= |records|
    && IsAgeCut(records, c.age, p.cutoff)
    && IsCut(records[c.age..], c.size - c.age, if p.maxBytes > 0 then Sum(records[c.age..]) - p.maxBytes else 0, None)
    && IsCut(records[c.size..], c.free - c.size, if p.minFree > 0 && free.Some? then p.minFree - free.value else 0,
       None)
    && IsCut(records[c.free..], c.emergency - c.free, p.minDelete - Sum(records[..c.free]), p.maxFiles)
  }

  lemma {:induction false} SumAdd(left: seq<Record>, right: seq<Record>)
    ensures Sum(left + right) == Sum(left) + Sum(right)
  {
    if right == [] {
      assert left + right == left;
    } else {
      assert (left + right)[..|left + right| - 1] == left + right[..|right| - 1];
      SumAdd(left, right[..|right| - 1]);
    }
  }

  lemma {:induction false} SumOne(records: seq<Record>, record: Record)
    ensures Sum(records + [record]) == Sum(records) + record.size
  {
    assert (records + [record])[..|records|] == records;
  }

  lemma {:induction false} SumGrows(records: seq<Record>, j: nat, k: nat)
    requires j <= k <= |records|
    ensures Sum(records[..j]) <= Sum(records[..k])
  {
    assert records[..k] == records[..j] + records[j..k];
    SumAdd(records[..j], records[j..k]);
  }

  lemma {:induction false} CutIsUnique(records: seq<Record>, j: nat, k: nat, need: int, limit: Option<nat>)
    requires IsCut(records, j, need, limit) && IsCut(records, k, need, limit)
    ensures j == k
  {
    if j < k {
      SumGrows(records, j, k - 1);
    } else if k < j {
      SumGrows(records, k, j - 1);
    }
  }

  /** The policy leaves no choice; so any two implementations that do what it asks delete the same. */
  lemma {:induction false} PolicyIsDeterminate(p: Policy, records: seq<Record>, free: Option<nat>, c: Cuts, d: Cuts)
    requires Asks(p, records, free, c) && Asks(p, records, free, d)
    ensures c == d
  {
    hide IsCut, IsAgeCut, Sum;
    AgeCutIsUnique(records, c.age, d.age, p.cutoff);
    var over := if p.maxBytes > 0 then Sum(records[c.age..]) - p.maxBytes else 0;
    CutIsUnique(records[c.age..], c.size - c.age, d.size - c.age, over, None);
    var short := if p.minFree > 0 && free.Some? then p.minFree - free.value else 0;
    CutIsUnique(records[c.size..], c.free - c.size, d.free - c.size, short, None);
    CutIsUnique(records[c.free..], c.emergency - c.free, d.emergency - c.free,
          p.minDelete - Sum(records[..c.free]), p.maxFiles);
  }

  lemma {:induction false} AgeCutIsUnique(records: seq<Record>, j: nat, k: nat, cutoff: Option<int>)
    requires IsAgeCut(records, j, cutoff) && IsAgeCut(records, k, cutoff)
    ensures j == k
  {
    hide IsOld;
    assert j < |records| ==> !IsOld(records[j], cutoff);
    assert k < |records| ==> !IsOld(records[k], cutoff);
  }

  // ---- The local store ----------------------------------------------------

  // `stuck` are the files for which `_delete_media` returns zero: those that cannot be unlinked, and
  // the empty ones, which are gone afterwards but are counted as if they were not.

  /** The records that a deletion counts. */
  function Movable(records: seq<Record>, stuck: set<Record>): seq<Record> {
    if records == [] then []
    else
      var init, last := records[..|records| - 1], records[|records| - 1];
      if last in stuck then Movable(init, stuck) else Movable(init, stuck) + [last]
  }

  lemma {:induction false} MovableOne(records: seq<Record>, record: Record, stuck: set<Record>)
    ensures Movable(records + [record], stuck) ==
              if record in stuck then Movable(records, stuck) else Movable(records, stuck) + [record]
  {
    assert (records + [record])[..|records|] == records;
  }

  lemma {:induction false} MovableAdd(left: seq<Record>, right: seq<Record>, stuck: set<Record>)
    ensures Movable(left + right, stuck) == Movable(left, stuck) + Movable(right, stuck)
  {
    if right == [] {
      assert left + right == left;
    } else {
      var init, last := right[..|right| - 1], right[|right| - 1];
      MovableAdd(left, init, stuck);
      assert left + right == (left + init) + [last];
      MovableOne(left + init, last, stuck);
    }
  }

  lemma {:induction false} AllMovable(records: seq<Record>)
    ensures Movable(records, {}) == records
  {
    if records != [] {
      AllMovable(records[..|records| - 1]);
    }
  }

  /** The list without its first occurrence of a record. */
  function Remove(records: seq<Record>, record: Record): seq<Record> {
    if records == [] then []
    else if records[0] == record then records[1..]
    else [records[0]] + Remove(records[1..], record)
  }

  lemma {:induction false} RemoveMiddle(left: seq<Record>, record: Record, right: seq<Record>)
    requires record !in left
    ensures Remove(left + [record] + right, record) == left + right
  {
    if left == [] {
      assert [] + [record] + right == [record] + right;
    } else {
      assert left + [record] + right == [left[0]] + (left[1..] + [record] + right);
      RemoveMiddle(left[1..], record, right);
      assert [left[0]] + (left[1..] + right) == left + right;
    }
  }

  /** The records that a deletion passes over. */
  function Stuck(records: seq<Record>, stuck: set<Record>): seq<Record> {
    if records == [] then []
    else
      var init, last := records[..|records| - 1], records[|records| - 1];
      if last in stuck then Stuck(init, stuck) + [last] else Stuck(init, stuck)
  }

  lemma {:induction false} StuckOne(records: seq<Record>, record: Record, stuck: set<Record>)
    ensures Stuck(records + [record], stuck) ==
              if record in stuck then Stuck(records, stuck) + [record] else Stuck(records, stuck)
  {
    assert (records + [record])[..|records|] == records;
  }

  lemma {:induction false} StuckSum(records: seq<Record>, stuck: set<Record>)
    ensures Sum(Stuck(records, stuck)) + Sum(Movable(records, stuck)) == Sum(records)
    ensures forall r :: r in Stuck(records, stuck) ==> r in records
  {
    if records != [] {
      var init, last := records[..|records| - 1], records[|records| - 1];
      StuckSum(init, stuck);
      SumOne(Stuck(init, stuck), last);
      SumOne(Movable(init, stuck), last);
    }
  }

  function Old(records: seq<Record>, cutoff: Option<int>): seq<Record> {
    if records == [] then []
    else
      var init, last := records[..|records| - 1], records[|records| - 1];
      if IsOld(last, cutoff) then Old(init, cutoff) + [last] else Old(init, cutoff)
  }

  function Young(records: seq<Record>, cutoff: Option<int>): seq<Record> {
    if records == [] then []
    else
      var init, last := records[..|records| - 1], records[|records| - 1];
      if IsOld(last, cutoff) then Young(init, cutoff) else Young(init, cutoff) + [last]
  }

  lemma {:induction false} AgesOne(records: seq<Record>, record: Record, cutoff: Option<int>)
    ensures Old(records + [record], cutoff) ==
              if IsOld(record, cutoff) then Old(records, cutoff) + [record] else Old(records, cutoff)
    ensures Young(records + [record], cutoff) ==
              if IsOld(record, cutoff) then Young(records, cutoff) else Young(records, cutoff) + [record]
  {
    assert (records + [record])[..|records|] == records;
  }

  lemma {:induction false} AgesSum(records: seq<Record>, cutoff: Option<int>)
    ensures Sum(Old(records, cutoff)) + Sum(Young(records, cutoff)) == Sum(records)
  {
    if records != [] {
      var init, last := records[..|records| - 1], records[|records| - 1];
      AgesSum(init, cutoff);
      SumOne(Old(init, cutoff), last);
      SumOne(Young(init, cutoff), last);
    }
  }

  lemma {:induction false} AllOld(records: seq<Record>, cutoff: Option<int>)
    requires forall i :: 0 <= i < |records| ==> IsOld(records[i], cutoff)
    ensures Old(records, cutoff) == records && Young(records, cutoff) == []
  {
    if records != [] {
      AllOld(records[..|records| - 1], cutoff);
    }
  }

  lemma {:induction false} LastOld(records: seq<Record>, cutoff: Option<int>)
    requires Sorted(records) && records != [] && IsOld(records[|records| - 1], cutoff)
    ensures Old(records, cutoff) == records && Young(records, cutoff) == []
    ensures IsAgeCut(records, |records|, cutoff)
  {
    forall i | 0 <= i < |records|
      ensures IsOld(records[i], cutoff)
    {
      assert records[i].time <= records[|records| - 1].time;
    }
    hide IsOld, Sorted;
    AllOld(records, cutoff);
  }

  /** In a sorted list the old records come first. */
  lemma {:induction false} SortedAges(records: seq<Record>, cutoff: Option<int>)
    requires Sorted(records)
    ensures var k := |Old(records, cutoff)|;
            && k <= |records| && IsAgeCut(records, k, cutoff)
            && Old(records, cutoff) == records[..k] && Young(records, cutoff) == records[k..]
  {
    if records != [] {
      var init, last := records[..|records| - 1], records[|records| - 1];
      if IsOld(last, cutoff) {
        LastOld(records, cutoff);
      } else {
        SortedAges(init, cutoff);
        AgesOne(init, last, cutoff);
        LastYoung(init, last, |Old(init, cutoff)|, cutoff);
        hide IsOld, Old, Young, Sorted, IsAgeCut;
        assert records == init + [last];
      }
    }
  }

  lemma {:induction false} LastYoung(init: seq<Record>, last: Record, k: nat, cutoff: Option<int>)
    requires IsAgeCut(init, k, cutoff) && !IsOld(last, cutoff)
    ensures IsAgeCut(init + [last], k, cutoff)
    ensures (init + [last])[..k] == init[..k] && (init + [last])[k..] == init[k..] + [last]
  {
    hide IsOld;
  }

  lemma {:induction false} YoungKeeps(records: seq<Record>, cutoff: Option<int>)
    requires Distinct(records)
    ensures Distinct(Young(records, cutoff))
    ensures forall r :: r in Young(records, cutoff) ==> r in records
  {
    if records != [] {
      var init, last := records[..|records| - 1], records[|records| - 1];
      YoungKeeps(init, cutoff);
      assert last !in init;
      hide Old;
    }
  }

  /** The age phase of the local store: what is too old is deleted if it can be, and left out of
      the later phases even if it cannot. */
  method AgePhase(records: seq<Record>, cutoff: Option<int>, stuck: set<Record>)
    returns (files: seq<Record>, deletedFiles: nat, deletedBytes: nat)
    ensures files == Young(records, cutoff)
    ensures deletedFiles == |Movable(Old(records, cutoff), stuck)|
    ensures deletedBytes == Sum(Movable(Old(records, cutoff), stuck))
  {
    hide Movable, Old, Young, Sum;
    files, deletedFiles, deletedBytes := [], 0, 0;
    NoRecords(cutoff, stuck);
    for i := 0 to |records|
      invariant files == Young(records[..i], cutoff)
      invariant deletedFiles == |Movable(Old(records[..i], cutoff), stuck)|
      invariant deletedBytes == Sum(Movable(Old(records[..i], cutoff), stuck))
    {
      var record := records[i];
      assert records[..i + 1] == records[..i] + [record];
      AgesOne(records[..i], record, cutoff);
      if cutoff.Some? && record.time < cutoff.value {
        MovableOne(Old(records[..i], cutoff), record, stuck);
        SumOne(Movable(Old(records[..i], cutoff), stuck), record);
        if record !in stuck {
          deletedFiles, deletedBytes := deletedFiles + 1, deletedBytes + record.size;
        }
      } else {
        files := files + [record];
      }
    }
    assert records[..|records|] == records;
  }

  lemma {:induction false} NoRecords(cutoff: Option<int>, stuck: set<Record>)
    ensures Old([], cutoff) == [] && Young([], cutoff) == [] && Movable([], stuck) == [] && Stuck([], stuck) == []
  {
  }

  /** The loop that the size, free-space and emergency phases of the local store share: over a copy
      of the list, until enough bytes are gone or `limit` files are; a stuck file is passed over.
      `stop` is where the loop ended. */
  method DeleteOldest(records: seq<Record>, need: int, limit: Option<nat>, stuck: set<Record>)
    returns (files: seq<Record>, deletedFiles: nat, deletedBytes: nat, stop: nat)
    requires Distinct(records)
    ensures stop <= |records|
    ensures files == Stuck(records[..stop], stuck) + records[stop..]
    ensures deletedFiles == |Movable(records[..stop], stuck)| && deletedBytes == Sum(Movable(records[..stop], stuck))
    ensures IsCut(Movable(records, stuck), deletedFiles, need, limit)
  {
    hide Movable, Stuck, Sum, Remove, IsCut;
    files, deletedFiles, deletedBytes := records, 0, 0;
    NoRecords(None, stuck);
    stop := 0;
    assert records[..0] == [];
    while stop < |records|
      invariant stop <= |records|
      invariant files == Stuck(records[..stop], stuck) + records[stop..]
      invariant deletedFiles == |Movable(records[..stop], stuck)|
              && deletedBytes == Sum(Movable(records[..stop], stuck))
      invariant SoFar(Movable(records[..stop], stuck), need, limit)
    {
      if deletedBytes >= need || (limit.Some? && deletedFiles >= limit.value) {
        break;
      }
      ghost var before, deleted := records[..stop], Movable(records[..stop], stuck);
      var record := records[stop];
      NextRecord(records, stop, stuck);
      if record !in stuck {
        GoesOn(deleted, record, need, limit);
        files := Remove(files, record);
        deletedFiles, deletedBytes := deletedFiles + 1, deletedBytes + record.size;
      }
      stop := stop + 1;
    }
    StopsRight(records, stop, need, limit, stuck);
  }

  /** Each deletion so far was needed and allowed. */
  predicate SoFar(deleted: seq<Record>, need: int, limit: Option<nat>) {
    && (deleted != [] ==> Sum(deleted[..|deleted| - 1]) < need)
    && (limit.Some? ==> |deleted| <= limit.value)
  }

  lemma {:induction false} GoesOn(deleted: seq<Record>, record: Record, need: int, limit: Option<nat>)
    requires SoFar(deleted, need, limit) && Sum(deleted) < need && (limit.Some? ==> |deleted| < limit.value)
    ensures SoFar(deleted + [record], need, limit)
  {
    assert (deleted + [record])[..|deleted|] == deleted;
  }

  lemma {:induction false} NextRecord(records: seq<Record>, i: nat, stuck: set<Record>)
    requires Distinct(records) && i < |records|
    ensures Movable(records[..i + 1], stuck) ==
              if records[i] in stuck then Movable(records[..i], stuck) else Movable(records[..i], stuck) + [records[i]]
    ensures Sum(Movable(records[..i], stuck) + [records[i]]) == Sum(Movable(records[..i], stuck)) + records[i].size
    ensures Stuck(records[..i + 1], stuck) + records[i + 1..] ==
              if records[i] in stuck then Stuck(records[..i], stuck) + records[i..]
              else Remove(Stuck(records[..i], stuck) + records[i..], records[i])
  {
    hide Movable, Stuck, Sum, Remove;
    var before, record := records[..i], records[i];
    assert records[..i + 1] == before + [record];
    MovableOne(before, record, stuck);
    StuckOne(before, record, stuck);
    SumOne(Movable(before, stuck), record);
    StuckSum(before, stuck);
    NotBefore(records, i);
    hide Distinct;
    RestSplits(Stuck(before, stuck), records, i);
    RemoveMiddle(Stuck(before, stuck), record, records[i + 1..]);
  }

  lemma {:induction false} NotBefore(records: seq<Record>, i: nat)
    requires Distinct(records) && i < |records|
    ensures records[i] !in records[..i]
  {
  }

  lemma {:induction false} RestSplits(left: seq<Record>, records: seq<Record>, i: nat)
    requires i < |records|
    ensures left + records[i..] == left + [records[i]] + records[i + 1..]
  {
    assert records[i..] == [records[i]] + records[i + 1..];
  }

  lemma {:induction false} StopsRight(records: seq<Record>, stop: nat, need: int, limit: Option<nat>,
                                      stuck: set<Record>)
    requires stop <= |records| && SoFar(Movable(records[..stop], stuck), need, limit)
    requires stop < |records| ==>
               || Sum(Movable(records[..stop], stuck)) >= need
               || (limit.Some? && |Movable(records[..stop], stuck)| >= limit.value)
    ensures IsCut(Movable(records, stuck), |Movable(records[..stop], stuck)|, need, limit)
  {
    var deleted := Movable(records[..stop], stuck);
    assert records == records[..stop] + records[stop..];
    MovableAdd(records[..stop], records[stop..], stuck);
    var all := Movable(records, stuck);
    assert all[..|deleted|] == deleted;
    if deleted != [] {
      assert all[..|deleted| - 1] == deleted[..|deleted| - 1];
    }
    if stop == |records| {
      assert records[..stop] == records;
    }
  }

  lemma {:induction false} Conserves(records: seq<Record>, stop: nat, stuck: set<Record>)
    requires stop <= |records|
    ensures Sum(Stuck(records[..stop], stuck) + records[stop..]) + Sum(Movable(records[..stop], stuck)) == Sum(records)
  {
    SumAdd(Stuck(records[..stop], stuck), records[stop..]);
    StuckSum(records[..stop], stuck);
    assert records == records[..stop] + records[stop..];
    SumAdd(records[..stop], records[stop..]);
  }

  // ---- The whole local run ------------------------------------------------

  lemma {:induction false} RestKeeps(records: seq<Record>, stop: nat, stuck: set<Record>)
    requires Distinct(records) && stop <= |records|
    ensures Distinct(Stuck(records[..stop], stuck) + records[stop..])
    decreases stop
  {
    if stop == 0 {
      assert Stuck(records[..0], stuck) + records[0..] == records;
    } else {
      RestKeeps(records, stop - 1, stuck);
      NextRecord(records, stop - 1, stuck);
      var before := Stuck(records[..stop - 1], stuck) + records[stop - 1..];
      if records[stop - 1] !in stuck {
        RemoveKeeps(before, records[stop - 1]);
      }
    }
  }

  lemma {:induction false} RemoveKeeps(records: seq<Record>, record: Record)
    requires Distinct(records)
    ensures Distinct(Remove(records, record))
    ensures forall r :: r in Remove(records, record) ==> r in records
  {
    if records != [] && records[0] != record {
      RemoveKeeps(records[1..], record);
      assert records[0] !in records[1..];
    }
  }

  /** The report of a local run. The bytes that were deleted, those that remain by the report, and
      the too old files that are stuck are together all there was: the report misses exactly the
      last. If no file is stuck, what is deleted is just what the policy asks for, a prefix of the
      list. A reading of the free space that fails counts as none free. */
  method ApplyRetention(p: Policy, records: seq<Record>, free: Option<nat>, stuck: set<Record>)
    returns (report: Report, ghost cuts: Cuts)
    requires Sorted(records) && Distinct(records)
    requires forall r :: r in records && r.size == 0 ==> r in stuck
    ensures report.deletedBytes + report.remainingBytes + Sum(Stuck(Old(records, p.cutoff), stuck)) == Sum(records)
    ensures stuck == {} ==>
              && Asks(p, records, Some(if free.Some? then free.value else 0), cuts)
              && cuts.emergency == report.deletedFiles
              && report.deletedBytes == Sum(records[..report.deletedFiles])
              && report.remainingBytes == Sum(records[report.deletedFiles..])
  {
    hide Movable, Stuck, Old, Young, Sum, IsAgeCut, Distinct, Asks, Phases;
    SortedAges(records, p.cutoff);
    ghost var k0 := |Old(records, p.cutoff)|;
    AgesSum(records, p.cutoff);
    StuckSum(Old(records, p.cutoff), stuck);
    YoungKeeps(records, p.cutoff);
    var files, n0, b0 := AgePhase(records, p.cutoff, stuck);
    var available := if free.Some? then free.value else 0;
    var n, b, remaining, k1, k2, k3 := LaterPhases(p, files, available, b0, stuck);
    report := Report(n0 + n, b0 + b, remaining);
    cuts := Cuts(k0, k0 + k1, k0 + k1 + k2, k0 + k1 + k2 + k3);
    if stuck == {} {
      NothingStuck(Old(records, p.cutoff), k0);
      hide *;
      assert Old(records, p.cutoff)[..k0] == records[..k0];
      Assembles(p, records, Some(available), k0, k1, k2, k3);
    }
  }

  /** One of the later phases, and what it comes to if no file is stuck. */
  method LaterPhase(files: seq<Record>, need: int, limit: Option<nat>, stuck: set<Record>)
    returns (rest: seq<Record>, deletedFiles: nat, deletedBytes: nat)
    requires Distinct(files)
    ensures Distinct(rest) && Sum(rest) + deletedBytes == Sum(files)
    ensures stuck == {} ==>
              && deletedFiles <= |files| && rest == files[deletedFiles..] && deletedBytes == Sum(files[..deletedFiles])
              && IsCut(files, deletedFiles, need, limit)
  {
    hide Movable, Stuck, Sum, IsCut, Distinct;
    var stop;
    rest, deletedFiles, deletedBytes, stop := DeleteOldest(files, need, limit, stuck);
    Conserves(files, stop, stuck);
    RestKeeps(files, stop, stuck);
    if stuck == {} {
      NothingStuck(files, stop);
    }
  }

  /** What is left of the emergency request. */
  function Still(p: Policy, deleted: nat): nat { if p.minDelete > deleted then p.minDelete - deleted else 0 }

  /** The size, free-space and emergency phases cut what the one before left. */
  ghost predicate Phases(p: Policy, files: seq<Record>, free: Option<nat>, already: nat, k1: nat, k2: nat, k3: nat) {
    && k1 <= |files| && k2 <= |files[k1..]| && k3 <= |files[k1..][k2..]|
    && IsCut(files, k1, if p.maxBytes > 0 then Sum(files) - p.maxBytes else 0, None)
    && IsCut(files[k1..], k2, if p.minFree > 0 && free.Some? then p.minFree - free.value else 0, None)
    && IsCut(files[k1..][k2..], k3, Still(p, already + Sum(files[..k1]) + Sum(files[k1..][..k2])), p.maxFiles)
  }

  method LaterPhases(p: Policy, files: seq<Record>, free: nat, already: nat, stuck: set<Record>)
    returns (deletedFiles: nat, deletedBytes: nat, remaining: nat, ghost k1: nat, ghost k2: nat, ghost k3: nat)
    requires Distinct(files)
    ensures deletedBytes + remaining == Sum(files)
    ensures stuck == {} ==>
              && Phases(p, files, Some(free), already, k1, k2, k3) && deletedFiles == k1 + k2 + k3
              && deletedBytes == Sum(files[..k1]) + Sum(files[k1..][..k2]) + Sum(files[k1..][k2..][..k3])
              && remaining == Sum(files[k1..][k2..][k3..])
  {
    hide Sum, IsCut, Distinct;
    var total := Total(files);
    var files1, n1, b1 := LaterPhase(files, if p.maxBytes > 0 then total - p.maxBytes else 0, None, stuck);
    var files2, n2, b2 := LaterPhase(files1, if p.minFree > 0 then p.minFree - free else 0, None, stuck);
    var files3, n3, b3 := LaterPhase(files2, Still(p, already + b1 + b2), p.maxFiles, stuck);
    k1, k2, k3 := n1, n2, n3;
    deletedFiles, deletedBytes, remaining := n1 + n2 + n3, b1 + b2 + b3, total - b1 - b2 - b3;
  }

  /** If no file is stuck, a phase takes a prefix and leaves the rest. */
  lemma {:induction false} NothingStuck(records: seq<Record>, stop: nat)
    requires stop <= |records|
    ensures Movable(records, {}) == records && Movable(records[..stop], {}) == records[..stop]
    ensures Stuck(records[..stop], {}) + records[stop..] == records[stop..]
    decreases |records|
  {
    AllMovable(records);
    AllMovable(records[..stop]);
    NoneStuck(records[..stop]);
  }

  lemma {:induction false} NoneStuck(records: seq<Record>)
    ensures Stuck(records, {}) == []
  {
    if records != [] {
      NoneStuck(records[..|records| - 1]);
    }
  }

  /** Four cuts, each of what the one before it left, are the cuts of the policy. */
  lemma {:induction false} Assembles(p: Policy, records: seq<Record>, free: Option<nat>,
                                     k0: nat, k1: nat, k2: nat, k3: nat)
    requires k0 <= |records| && IsAgeCut(records, k0, p.cutoff)
    requires Phases(p, records[k0..], free, Sum(records[..k0]), k1, k2, k3)
    ensures k1 <= |records[k0..]| && k2 <= |records[k0..][k1..]| && k3 <= |records[k0..][k1..][k2..]|
    ensures var c := Cuts(k0, k0 + k1, k0 + k1 + k2, k0 + k1 + k2 + k3);
            && Asks(p, records, free, c)
            && Sum(records[..k0]) + Sum(records[k0..][..k1]) + Sum(records[k0..][k1..][..k2])
                 + Sum(records[k0..][k1..][k2..][..k3]) == Sum(records[..c.emergency])
            && records[k0..][k1..][k2..][k3..] == records[c.emergency..]
  {
    hide Sum, IsCut, IsAgeCut;
    var c := Cuts(k0, k0 + k1, k0 + k1 + k2, k0 + k1 + k2 + k3);
    assert records[k0..][k1..] == records[c.size..];
    assert records[c.size..][k2..] == records[c.free..];
    assert records[c.free..][k3..] == records[c.emergency..];
    SumBetween(records, k0, c.size);
    SumBetween(records, c.size, c.free);
    SumBetween(records, c.free, c.emergency);
    ClampedCut(records[c.free..], k3, p.minDelete - Sum(records[..c.free]), p.maxFiles);
  }

  lemma {:induction false} SumBetween(records: seq<Record>, j: nat, k: nat)
    requires j <= k <= |records|
    ensures Sum(records[..j]) + Sum(records[j..][..k - j]) == Sum(records[..k])
  {
    SumAdd(records[..j], records[j..][..k - j]);
    assert records[..j] + records[j..][..k - j] == records[..k];
  }

  /** A negative need asks for no more than none. */
  lemma {:induction false} ClampedCut(records: seq<Record>, k: nat, need: int, limit: Option<nat>)
    ensures IsCut(records, k, if need > 0 then need else 0, limit) ==> IsCut(records, k, need, limit)
  {
  }

  method Total(records: seq<Record>) returns (total: nat)
    ensures total == Sum(records)
  {
    hide Sum;
    total := 0;
    assert records[..0] == [];
    for i := 0 to |records|
      invariant total == Sum(records[..i])
    {
      assert records[..i + 1] == records[..i] + [records[i]];
      SumOne(records[..i], records[i]);
      total := total + records[i].size;
    }
    assert records[..|records|] == records;
  }

  // ---- The WebDAV store ---------------------------------------------------

  /** One phase of the WebDAV run: it goes through the whole list, and a deletion that fails ends
      the run. */
  method RemotePhase(records: seq<Record>, need: int, limit: Option<nat>)
    returns (ok: bool, retained: seq<Record>, deletedFiles: nat, deletedBytes: nat)
    ensures deletedFiles <= |records| && deletedBytes == Sum(records[..deletedFiles])
    ensures ok ==> IsCut(records, deletedFiles, need, limit) && retained == records[deletedFiles..]
  {
    hide Sum;
    retained, deletedFiles, deletedBytes := [], 0, 0;
    assert records[..0] == [];
    for i := 0 to |records|
      invariant deletedFiles <= i && retained == records[deletedFiles..i]
      invariant deletedBytes == Sum(records[..deletedFiles])
      invariant deletedFiles > 0 ==> Sum(records[..deletedFiles - 1]) < need
      invariant limit.Some? ==> deletedFiles <= limit.value
      invariant deletedFiles < i ==> deletedBytes >= need || (limit.Some? && deletedFiles == limit.value)
    {
      if deletedBytes >= need || (limit.Some? && deletedFiles >= limit.value) {
        assert records[deletedFiles..i + 1] == records[deletedFiles..i] + [records[i]];
        retained := retained + [records[i]];
      } else {
        assert deletedFiles == i;
        if * {
          return false, retained, deletedFiles, deletedBytes;
        }
        assert records[..i + 1] == records[..i] + [records[i]];
        SumOne(records[..i], records[i]);
        deletedFiles, deletedBytes := deletedFiles + 1, deletedBytes + records[i].size;
      }
    }
    ok := true;
  }

  /** The age phase of the WebDAV run. */
  method RemoteAgePhase(records: seq<Record>, cutoff: Option<int>)
    returns (ok: bool, retained: seq<Record>, deletedFiles: nat, deletedBytes: nat)
    ensures ok ==> retained == Young(records, cutoff)
    ensures ok ==> deletedFiles == |Old(records, cutoff)| && deletedBytes == Sum(Old(records, cutoff))
  {
    hide Sum, Old, Young;
    retained, deletedFiles, deletedBytes := [], 0, 0;
    NoRecords(cutoff, {});
    for i := 0 to |records|
      invariant retained == Young(records[..i], cutoff)
      invariant deletedFiles == |Old(records[..i], cutoff)| && deletedBytes == Sum(Old(records[..i], cutoff))
    {
      assert records[..i + 1] == records[..i] + [records[i]];
      AgesOne(records[..i], records[i], cutoff);
      if cutoff.Some? && records[i].time < cutoff.value {
        if * {
          return false, retained, deletedFiles, deletedBytes;
        }
        SumOne(Old(records[..i], cutoff), records[i]);
        deletedFiles, deletedBytes := deletedFiles + 1, deletedBytes + records[i].size;
      } else {
        retained := retained + [records[i]];
      }
    }
    assert records[..|records|] == records;
    ok := true;
  }

  /** The WebDAV run does exactly what the policy asks for, or a deletion failed. A server that does
      not report its free space is taken to have enough. */
  method RemoteRetention(p: Policy, records: seq<Record>, free: Option<nat>)
    returns (ok: bool, report: Report, ghost cuts: Cuts)
    requires Sorted(records)
    ensures ok ==> Asks(p, records, free, cuts) && cuts.emergency == report.deletedFiles
    ensures ok ==> report.deletedBytes == Sum(records[..report.deletedFiles])
    ensures ok ==> report.remainingBytes == Sum(records[report.deletedFiles..])
  {
    hide Old, Young, Sum, IsCut, IsAgeCut, Sorted;
    SortedAges(records, p.cutoff);
    report := Report(0, 0, 0);
    var retained, retained1, retained2, retained3, n0, n1, n2, n3, b0, b1, b2, b3;
    ok, retained, n0, b0 := RemoteAgePhase(records, p.cutoff);
    cuts := Cuts(0, 0, 0, 0);
    if !ok { return; }
    var total := Total(retained);
    ok, retained1, n1, b1 := RemotePhase(retained, if p.maxBytes > 0 then total - p.maxBytes else 0, None);
    if !ok { return; }
    var short := if p.minFree > 0 && free.Some? then p.minFree - free.value else 0;
    ok, retained2, n2, b2 := RemotePhase(retained1, short, None);
    if !ok { return; }
    var deleted := b0 + b1 + b2;
    var need := Still(p, deleted);
    ok, retained3, n3, b3 := RemotePhase(retained2, need, p.maxFiles);
    if !ok { return; }
    var remaining := Total(retained3);
    report := Report(n0 + n1 + n2 + n3, deleted + b3, remaining);
    assert Phases(p, retained, free, b0, n1, n2, n3);
    Assembles(p, records, free, n0, n1, n2, n3);
    cuts := Cuts(n0, n0 + n1, n0 + n1 + n2, n0 + n1 + n2 + n3);
  }

  /** The stores differ when the free space cannot be read: the local one takes it to be none and
      deletes for it, the WebDAV one does not. Their cuts agree exactly if there is no free-space limit
      or nothing is left to delete for it. They delete the same in the end exactly if, besides, the
      emergency request alone takes the WebDAV store as far as the free-space phase took the local one,
      and the file limit does not stop it. */
  lemma {:induction false} UnreadableFreeSpace(p: Policy, records: seq<Record>, local: Cuts, remote: Cuts)
    requires Asks(p, records, Some(0), local) && Asks(p, records, None, remote)
    ensures local == remote <==> p.minFree == 0 || local.size == |records|
    ensures local.emergency == remote.emergency <==>
              || p.minFree == 0 || local.size == |records|
              || (remote.emergency >= local.free
                  && (Sum(records[..remote.emergency]) >= p.minDelete || remote.emergency == |records|))
  {
    hide Sum, IsAgeCut;
    AgeCutIsUnique(records, local.age, remote.age, p.cutoff);
    SizeCutIsUnique(p, records, local, remote);
    NoNeed(records[remote.size..], remote.free - remote.size, 0, None);
    if p.minFree == 0 {
      NoNeed(records[local.size..], local.free - local.size, 0, None);
    } else if local.size < |records| {
      SomeNeed(records[local.size..], local.free - local.size, p.minFree);
    }
    hide IsCut;
    Absolute(records, local.free, local.emergency, p.minDelete, p.maxFiles);
    Absolute(records, remote.free, remote.emergency, p.minDelete, p.maxFiles);
    hide Asks;
    ReachIsUnique(records, local.free, local.emergency, remote.free, remote.emergency, p.minDelete, p.maxFiles);
  }

  /** A cut that goes on from `from`, by the sums of the whole list. */
  predicate Reaches(records: seq<Record>, from: nat, to: nat, need: nat, limit: Option<nat>) {
    && from <= to <= |records|
    && (to > from ==> Sum(records[..to - 1]) < need)
    && (limit.Some? ==> to - from <= limit.value)
    && (to < |records| ==> Sum(records[..to]) >= need || (limit.Some? && to - from == limit.value))
  }

  lemma {:induction false} Absolute(records: seq<Record>, from: nat, to: nat, need: nat, limit: Option<nat>)
    requires from <= to <= |records| && IsCut(records[from..], to - from, need - Sum(records[..from]), limit)
    ensures Reaches(records, from, to, need, limit)
  {
    hide Sum;
    SumBetween(records, from, to);
    if to > from {
      SumBetween(records, from, to - 1);
    }
  }

  /** Two cuts for the same need, the second begun earlier, end together exactly if they begin
      together, or the second gets as far as the first began and is not stopped by the limit. */
  lemma {:induction false} ReachIsUnique(records: seq<Record>, from: nat, to: nat, from': nat, to': nat,
                                         need: nat, limit: Option<nat>)
    requires Reaches(records, from, to, need, limit) && Reaches(records, from', to', need, limit) && from' <= from
    ensures to == to' <==>
              from == from' || (to' >= from && (Sum(records[..to']) >= need || to' == |records|))
  {
    hide Sum;
    if to < to' {
      SumGrows(records, to, to' - 1);
    } else if to' < to {
      SumGrows(records, to', to - 1);
    }
  }

  lemma {:induction false} SizeCutIsUnique(p: Policy, records: seq<Record>, c: Cuts, d: Cuts)
    requires c.age == d.age <= c.size && d.age <= d.size && c.age <= |records|
    requires var over := if p.maxBytes > 0 then Sum(records[c.age..]) - p.maxBytes else 0;
             IsCut(records[c.age..], c.size - c.age, over, None) && IsCut(records[c.age..], d.size - d.age, over, None)
    ensures c.size == d.size
  {
    hide Sum, IsCut;
    CutIsUnique(records[c.age..], c.size - c.age, d.size - d.age,
                if p.maxBytes > 0 then Sum(records[c.age..]) - p.maxBytes else 0, None);
  }

  lemma {:induction false} NoNeed(records: seq<Record>, k: nat, need: int, limit: Option<nat>)
    requires IsCut(records, k, need, limit) && need <= 0
    ensures k == 0
  {
  }

  lemma {:induction false} SomeNeed(records: seq<Record>, k: nat, need: int)
    requires IsCut(records, k, need, None) && need > 0 && records != []
    ensures k > 0
  {
    assert records[..0] == [];
  }
}
