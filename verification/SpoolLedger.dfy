/** The byte accounting of the outbox: `_entries`, `_used_bytes`, `_orphan_bytes`, and `_empty`. */
module SpoolLedger {
  // ---- Sums over the registered entries -----------------------------------

  ghost function Total(m: map<string, nat>): nat {
    if m == map[] then 0
    else
      var k :| k in m;
      m[k] + Total(m - {k})
  }

  lemma {:induction false} TotalWithout(m: map<string, nat>, k: string)
    requires k in m
    ensures Total(m) == m[k] + Total(m - {k})
    decreases |m|
  {
    var j :| j in m && Total(m) == m[j] + Total(m - {j});
    if j != k {
      TotalWithout(m - {j}, k);
      TotalWithout(m - {k}, j);
      assert (m - {j}) - {k} == (m - {k}) - {j};
    }
  }

  lemma {:induction false} TotalWith(m: map<string, nat>, k: string, n: nat)
    requires k !in m
    ensures Total(m[k := n]) == Total(m) + n
  {
    TotalWithout(m[k := n], k);
    assert m[k := n] - {k} == m;
  }

  // ---- The spool directory as `_open` finds it ----------------------------

  /** Whose recording a directory's manifest names, and the bytes of its entry. */
  datatype Load = Load(id: string, bytes: nat)

  datatype Item =
    | Leftover                                              // .id.committed
    | Hidden                                                // any other dot file
    | Foreign                                               // not a directory, or a symlink
    | Incomplete(name: string, fileBytes: nat)              // x.partial, id, or any other name
    | Transaction(name: string, load: Load, fileBytes: nat) // x.partial whose files load
    | Entry(name: string, load: Load, fileBytes: nat)       // a plain name whose files load

  predicate Keeps(item: Item) { item.Incomplete? || item.Transaction? || item.Entry? }

  /** What stays on disk when the scan is over. */
  function BytesKept(items: seq<Item>): nat {
    if items == [] then 0
    else BytesKept(items[..|items| - 1]) + (if Keeps(items[|items| - 1]) then items[|items| - 1].fileBytes else 0)
  }

  predicate HasName(items: seq<Item>, name: string) {
    exists i :: 0 <= i < |items| && Keeps(items[i]) && items[i].name == name
  }

  /** A directory under its own identifier that loads. */
  predicate HasEntry(items: seq<Item>, id: string) {
    exists i :: 0 <= i < |items| && items[i].Entry? && items[i].name == id && items[i].load.id == id
  }

  /** A transaction whose files load. */
  predicate HasTransaction(items: seq<Item>, id: string) {
    exists i :: 0 <= i < |items| && items[i].Transaction? && items[i].load.id == id
  }

  /** The directory that an entry was registered from: the one under its own name, or a transaction
      if there is no directory under that name at all. */
  predicate HasLoad(items: seq<Item>, names: set<string>, id: string, bytes: nat) {
    exists i :: 0 <= i < |items|
      && ((items[i].Entry? && items[i].name == id) || (items[i].Transaction? && id !in names))
      && items[i].load == Load(id, bytes)
  }

  /** The bytes of further files beside the three of an entry that loads. */
  function BytesBeside(items: seq<Item>): int {
    if items == [] then 0
    else
      var last := items[|items| - 1];
      BytesBeside(items[..|items| - 1])
      + (if last.Transaction? || last.Entry? then last.fileBytes - last.load.bytes else 0)
  }

  /** A directory listing: names differ, and a directory holds the files that load. A transaction's
      own name is no identifier: it ends in `.partial`. */
  predicate Listing(items: seq<Item>) {
    && (forall i, j :: 0 <= i < j < |items| && Keeps(items[i]) && Keeps(items[j]) ==> items[i].name != items[j].name)
    && (forall i :: 0 <= i < |items| && (items[i].Transaction? || items[i].Entry?) ==>
          items[i].load.bytes <= items[i].fileBytes)
    && (forall i, j :: 0 <= i < |items| && 0 <= j < |items| && items[i].Transaction?
                       && Keeps(items[j]) && !items[j].Incomplete? ==>
          items[i].name != items[j].load.id)
  }

  const MANIFEST_MAX := 16 * 1024

  class Ledger {
    var entries: map<string, nat>
    var blocked: set<string>
    var used: nat
    var orphan: nat
    var empty: bool

    ghost predicate Valid()
      reads this
    {
      && used == Total(entries) + orphan
      && (empty ==> entries == map[])
      && blocked <= entries.Keys
    }

    constructor ()
      ensures Valid() && entries == map[] && used == 0
    {
      entries, blocked, used, orphan, empty := map[], {}, 0, 0, true;
    }

    /** The scan of `start`. Whichever order the directories come in, the bytes that count as used
        are those that are left on disk, except that further files in an entry that is registered are
        not counted; and the pending entries are those under their own name
        that load, and the transactions that load and whose name is free. */
    method Open(items: seq<Item>) returns (ok: bool)
      requires Listing(items)
      modifies this
      ensures ok ==> Valid() && BytesKept(items) - BytesBeside(items) <= used <= BytesKept(items)
      ensures ok ==> forall id :: id in entries <==>
                       HasEntry(items, id) || (HasTransaction(items, id) && !HasName(items, id))
      ensures ok ==> forall id :: id in entries ==> HasLoad(items, TakenNames(items), id, entries[id])
      ensures Foreign in items ==> !ok
    {
      hide BytesKept, BytesBeside, HasName, HasEntry, HasTransaction, PendingAre, BytesAre, Total, Listing;
      entries, blocked, used, orphan := map[], {}, 0, 0;
      var taken := TakenNames(items);
      ghost var first := taken;
      NothingYet(items, first);
      for i := 0 to |items|
        invariant Foreign !in items[..i]
        invariant blocked == {} && used == Total(entries)
        invariant BytesKept(items[..i]) - BytesBeside(items[..i]) <= used + orphan <= BytesKept(items[..i])
        invariant taken == first + entries.Keys
        invariant PendingAre(items[..i], first, entries)
        invariant BytesAre(items[..i], first, entries)
      {
        var item := items[i];
        NextItem(items, i, first, entries);
        NextBytes(items, i, first, entries);
        assert items[..i + 1] == items[..i] + [item];
        match item
        case Leftover =>
          if * { return false; } // it could not be removed
        case Hidden =>
        case Foreign => return false;
        case Incomplete(_, n) => orphan := orphan + n;
        case Transaction(_, load, n) =>
          if load.id in taken {
            orphan := orphan + n;
          } else {
            taken := taken + {load.id};
            TotalWith(entries, load.id, load.bytes);
            entries := entries[load.id := load.bytes];
            used := used + load.bytes;
          }
        case Entry(name, load, n) =>
          if name != load.id {
            orphan := orphan + n;
          } else {
            TotalWith(entries, load.id, load.bytes);
            entries := entries[load.id := load.bytes];
            used := used + load.bytes;
          }
      }
      AllItems(items, first, entries);
      used := used + orphan;
      if entries != map[] {
        empty := false;
      }
      ok := true;
    }

    /** Registering what is registered already adds nothing. */
    method Register(id: string, bytes: nat)
      requires Valid()
      modifies this
      ensures Valid() && !empty && orphan == old(orphan) && blocked == old(blocked)
      ensures entries == if id in old(entries) then old(entries) else old(entries)[id := bytes]
      ensures used == if id in old(entries) then old(used) else old(used) + bytes
    {
      if id !in entries {
        TotalWith(entries, id, bytes);
        entries := entries[id := bytes];
        used := used + bytes;
      }
      empty := false;
    }

    /** After a confirmed upload, with the entry's directory renamed. */
    method Remove(id: string)
      requires Valid() && id in entries
      modifies this
      ensures Valid() && orphan == old(orphan) && id !in entries
      ensures entries == old(entries) - {id} && used == old(used) - old(entries)[id]
      ensures empty <==> old(empty) || entries == map[]
    {
      TotalWithout(entries, id);
      used := used - entries[id];
      entries := entries - {id};
      blocked := blocked - {id};
      if entries == map[] {
        empty := true;
      }
    }

    /** One `write_batch` as the accounting sees it. `onDisk`: the batch is there already, from an
        attempt that failed after its rename; then nothing is checked. */
    method Persist(id: string, onDisk: bool, media: nat, metadata: nat, manifest: nat, free: nat, max: nat,
                   reserve: nat)
      returns (ok: bool)
      requires Valid() && manifest <= MANIFEST_MAX
      modifies this
      ensures Valid() && orphan == old(orphan)
      ensures !ok ==> entries == old(entries) && used == old(used)
      ensures ok ==> !empty && entries == if id in old(entries) then old(entries)
                                          else old(entries)[id := media + metadata + manifest]
      ensures ok <==> onDisk || (old(used) + media + metadata + MANIFEST_MAX <= max
                                 && free >= reserve + media + metadata + MANIFEST_MAX)
      ensures ok && !onDisk && id !in old(entries) ==> used <= max
      ensures ok && old(used) <= max ==>
                (used <= max <==> !onDisk || id in old(entries) || old(used) + media + metadata + manifest <= max)
    {
      if !onDisk {
        var needed := media + metadata + MANIFEST_MAX;
        if used + needed > max || free - needed < reserve {
          return false;
        }
      }
      Register(id, media + metadata + manifest);
      ok := true;
    }
  }

  ghost predicate PendingAre(items: seq<Item>, names: set<string>, entries: map<string, nat>) {
    forall id :: id in entries <==> HasEntry(items, id) || (HasTransaction(items, id) && id !in names)
  }

  ghost predicate BytesAre(items: seq<Item>, names: set<string>, entries: map<string, nat>) {
    forall id :: id in entries ==> HasLoad(items, names, id, entries[id])
  }

  lemma {:induction false} LoadStays(items: seq<Item>, i: nat, names: set<string>, id: string, bytes: nat)
    requires i < |items| && HasLoad(items[..i], names, id, bytes)
    ensures HasLoad(items[..i + 1], names, id, bytes)
  {
    var k :| 0 <= k < i && ((items[k].Entry? && items[k].name == id) || (items[k].Transaction? && id !in names))
          && items[k].load == Load(id, bytes);
    assert items[..i + 1][k] == items[k];
  }

  lemma {:induction false} NextBytes(items: seq<Item>, i: nat, names: set<string>, entries: map<string, nat>)
    requires i < |items| && BytesAre(items[..i], names, entries)
    ensures BytesAre(items[..i + 1], names, entries)
    ensures var item := items[i];
            (item.Entry? && item.name == item.load.id) || (item.Transaction? && item.load.id !in names) ==>
              BytesAre(items[..i + 1], names, entries[item.load.id := item.load.bytes])
  {
    forall id | id in entries
      ensures HasLoad(items[..i + 1], names, id, entries[id])
    {
      LoadStays(items, i, names, id, entries[id]);
    }
    assert items[..i + 1][i] == items[i];
  }

  function TakenNames(items: seq<Item>): (names: set<string>)
    ensures forall id :: id in names <==> HasName(items, id)
  {
    set i | 0 <= i < |items| && Keeps(items[i]) :: items[i].name
  }

  lemma {:induction false} NothingYet(items: seq<Item>, names: set<string>)
    ensures items[..0] == [] && BytesKept(items[..0]) == BytesBeside(items[..0]) == 0
          && PendingAre(items[..0], names, map[]) && BytesAre(items[..0], names, map[]) && Total(map[]) == 0
  {
  }

  lemma {:induction false} AllItems(items: seq<Item>, names: set<string>, entries: map<string, nat>)
    requires PendingAre(items[..|items|], names, entries) && BytesAre(items[..|items|], names, entries)
    requires forall id :: id in names <==> HasName(items, id)
    ensures items[..|items|] == items
    ensures forall id :: id in entries <==> HasEntry(items, id) || (HasTransaction(items, id) && !HasName(items, id))
    ensures forall id :: id in entries ==> HasLoad(items, names, id, entries[id])
  {
    assert items[..|items|] == items;
  }

  /** One more directory, by what the scan does with it. */
  lemma {:induction false} NextItem(items: seq<Item>, i: nat, names: set<string>, entries: map<string, nat>)
    requires Listing(items) && i < |items| && PendingAre(items[..i], names, entries)
    requires forall id :: id in names <==> HasName(items, id)
    ensures BytesKept(items[..i + 1]) == BytesKept(items[..i]) + (if Keeps(items[i]) then items[i].fileBytes else 0)
    ensures var item := items[i];
            BytesBeside(items[..i + 1]) == BytesBeside(items[..i])
              + (if item.Transaction? || item.Entry? then item.fileBytes - item.load.bytes else 0)
    ensures var item := items[i];
            match item
            case Transaction(_, load, _) =>
              && load.bytes <= item.fileBytes
              && (load.id in names + entries.Keys ==> PendingAre(items[..i + 1], names, entries))
              && (load.id !in names + entries.Keys ==>
                    PendingAre(items[..i + 1], names, entries[load.id := load.bytes]))
            case Entry(name, load, _) =>
              && load.bytes <= item.fileBytes
              && (name != load.id ==> PendingAre(items[..i + 1], names, entries))
              && (name == load.id ==>
                    && name in names && name !in entries
                    && PendingAre(items[..i + 1], names, entries[load.id := load.bytes]))
            case _ => PendingAre(items[..i + 1], names, entries)
  {
    var before, item := items[..i], items[i];
    assert items[..i + 1] == before + [item] && items[..i + 1][..i] == before;
    forall id
      ensures HasEntry(items[..i + 1], id) <==> HasEntry(before, id) || (item.Entry? && item.name == id == item.load.id)
      ensures HasTransaction(items[..i + 1], id) <==>
                HasTransaction(before, id) || (item.Transaction? && item.load.id == id)
    {
      LastItem(before, item, id);
    }
    if item.Entry? {
      assert HasName(items, item.name);
    }
    hide HasEntry, HasTransaction, BytesKept, BytesBeside;
    if item.Entry? && item.name == item.load.id {
      NotBefore(items, i);
    }
  }

  lemma {:induction false} LastItem(before: seq<Item>, item: Item, id: string)
    ensures HasEntry(before + [item], id) <==> HasEntry(before, id) || (item.Entry? && item.name == id == item.load.id)
    ensures HasTransaction(before + [item], id) <==>
              HasTransaction(before, id) || (item.Transaction? && item.load.id == id)
  {
    var after := before + [item];
    assert forall i :: 0 <= i < |before| ==> after[i] == before[i];
    assert after[|before|] == item;
  }

  lemma {:induction false} NotBefore(items: seq<Item>, i: nat)
    requires Listing(items) && i < |items| && items[i].Entry?
    ensures !HasEntry(items[..i], items[i].name)
  {
  }
}
