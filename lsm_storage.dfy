/**
 * The generation state of storage/lsm_storage.go: one current memtable that takes
 * every write, and the immutable memtables frozen before it, oldest first. Reads
 * consult the current table, then the immutable ones newest first.
 *
 * The reader-writer lock is not modelled: every operation runs on its own.
 */
module LsmStorage {
  import opened Bytes
  import opened MemTable
  import Tables = MemTable

  /** `s` back to front. */
  function Reversed<T>(s: seq<T>): (r: seq<T>)
    ensures |r| == |s|
  {
    if s == [] then [] else Reversed(s[1..]) + [s[0]]
  }

  /** What `get` returns when the tables hold `stores`, in reading order: the first record found, or the zero record and false. */
  function Find(stores: seq<Storage>, key: seq<Byte>): (ValueStruct, bool)
  {
    if stores == [] then (Zero, false)
    else if Lookup(stores[0], key).1 then Lookup(stores[0], key)
    else Find(stores[1..], key)
  }

  /** The single table the tables in `stores` amount to: an earlier table's record shadows a later one's. */
  function Merged(stores: seq<Storage>): Storage
  {
    if stores == [] then map[] else Merged(stores[1..]) + stores[0]
  }

  class LsmStorageState {
    /** The table that takes writes. */
    var CurrentMemTable: Tables.MemTable
    /** The tables that take no more writes, oldest first. */
    var ImmutableMemTables: seq<Tables.MemTable>
    /** The contents of the immutable tables, oldest first. */
    ghost var Frozen: seq<Storage>

    /**
     * The current table is none of the immutable ones, `Frozen` holds the immutable
     * tables' contents, and each table's id is its position in freeze order.
     */
    ghost predicate Valid()
      reads this, CurrentMemTable, ImmutableMemTables
    {
      && CurrentMemTable !in ImmutableMemTables
      && |Frozen| == |ImmutableMemTables|
      && (forall i :: 0 <= i < |Frozen| ==> ImmutableMemTables[i].InMemoryStorage == Frozen[i])
      && (forall i :: 0 <= i < |ImmutableMemTables| ==> ImmutableMemTables[i].Id == i)
      && CurrentMemTable.Id == |ImmutableMemTables|
    }

    /** The tables' contents in reading order: the current table, then the immutable ones newest first. */
    ghost function Stores(): seq<Storage>
      reads this, CurrentMemTable
    {
      [CurrentMemTable.InMemoryStorage] + Reversed(Frozen)
    }

    /** Everything the state holds, as one table. */
    ghost function Contents(): Storage
      reads this, CurrentMemTable
    {
      Merged(Stores())
    }

    /** A state with one empty current table, numbered 0, and no immutable tables. */
    constructor ()
      ensures Valid() && fresh(CurrentMemTable)
      ensures ImmutableMemTables == [] && CurrentMemTable.Id == 0
      ensures Contents() == map[]
    {
      CurrentMemTable := new Tables.MemTable(0);
      ImmutableMemTables := [];
      Frozen := [];
      new;
      assert Stores() == [map[]] && Stores()[1..] == [];
      assert Merged(Stores()[1..]) == map[];
    }

    /** `get`: the first record for `key` in reading order. */
    method Get(key: seq<Byte>) returns (v: ValueStruct, ok: bool)
      requires Valid()
      ensures (v, ok) == Find(Stores(), key)
      ensures (v, ok) == Lookup(Contents(), key)
    {
      FindMerged(Stores(), key);
      var tables := GetTables();
      ghost var stores := Stores();
      for i := 0 to |tables|
        invariant Find(stores[i..], key) == Find(stores, key)
      {
        assert stores[i..][1..] == stores[i + 1..];
        var r := tables[i].Get(key);
        if r.1 {
          return r.0, r.1;
        }
      }
      return Zero, false;
    }

    /** `put`: writes the record into the current table, and freezes the table once its counter reaches the limit. */
    method Put(key: seq<Byte>, data: seq<Byte>)
      requires Valid()
      modifies this, CurrentMemTable
      ensures Valid()
      ensures old(CurrentMemTable).InMemoryStorage == old(CurrentMemTable.InMemoryStorage)[key := data]
      ensures old(CurrentMemTable).ApproximateSize == (old(CurrentMemTable.ApproximateSize) + |key| + |data|) % 0x1_0000_0000
      ensures WriteOutcome(old(CurrentMemTable), old(ImmutableMemTables))
      ensures Contents() == old(Contents())[key := data]
      ensures Find(Stores(), key) == (ValueStruct(key, data), true)
    {
      WriteUpdatesContents(CurrentMemTable.InMemoryStorage, Frozen, key, data);
      CurrentMemTable.Set(ValueStruct(key, data));
      if CurrentMemTable.ApproximateSize >= MEMTABLE_MAX_SIZE_BYTES {
        FreezeCurrentMemTable();
      }
      FindMerged(Stores(), key);
    }

    /** `delete`: writes the key with empty data into the current table, under the same freeze rule as `put`. */
    method Delete(key: seq<Byte>)
      requires Valid()
      modifies this, CurrentMemTable
      ensures Valid()
      ensures old(CurrentMemTable).InMemoryStorage == old(CurrentMemTable.InMemoryStorage)[key := []]
      ensures old(CurrentMemTable).ApproximateSize == (old(CurrentMemTable.ApproximateSize) + |key|) % 0x1_0000_0000
      ensures WriteOutcome(old(CurrentMemTable), old(ImmutableMemTables))
      ensures Contents() == old(Contents())[key := []]
      ensures Find(Stores(), key) == (ValueStruct(key, []), true)
    {
      WriteUpdatesContents(CurrentMemTable.InMemoryStorage, Frozen, key, []);
      CurrentMemTable.Delete(key);
      if CurrentMemTable.ApproximateSize >= MEMTABLE_MAX_SIZE_BYTES {
        FreezeCurrentMemTable();
      }
      FindMerged(Stores(), key);
    }

    /**
     * How a write left the tables, given the table `written` it went to and the
     * immutable tables `before` it: frozen onto them, with a fresh empty current table,
     * exactly when its counter reached the limit; otherwise still current.
     */
    ghost predicate WriteOutcome(written: Tables.MemTable, before: seq<Tables.MemTable>)
      reads this, written, CurrentMemTable
    {
      if written.ApproximateSize >= MEMTABLE_MAX_SIZE_BYTES then
        && ImmutableMemTables == before + [written]
        && CurrentMemTable != written
        && CurrentMemTable.InMemoryStorage == map[] && CurrentMemTable.ApproximateSize == 0
      else
        && ImmutableMemTables == before
        && CurrentMemTable == written
    }

    /** `freezeCurrentMemTable`: moves the current table onto the immutable ones and installs a fresh table numbered by their count. */
    method FreezeCurrentMemTable()
      requires Valid()
      modifies this
      ensures Valid() && fresh(CurrentMemTable)
      ensures ImmutableMemTables == old(ImmutableMemTables) + [old(CurrentMemTable)]
      ensures Frozen == old(Frozen) + [old(CurrentMemTable.InMemoryStorage)]
      ensures CurrentMemTable.Id == |ImmutableMemTables|
      ensures CurrentMemTable.InMemoryStorage == map[] && CurrentMemTable.ApproximateSize == 0
      ensures Contents() == old(Contents())
    {
      FreezeKeepsContents(CurrentMemTable.InMemoryStorage, Frozen);
      ImmutableMemTables := ImmutableMemTables + [CurrentMemTable];
      Frozen := Frozen + [CurrentMemTable.InMemoryStorage];
      CurrentMemTable := new Tables.MemTable(|ImmutableMemTables|);
    }

    /** `getTables`: the current table, then the immutable ones from the last frozen to the first. */
    method GetTables() returns (tables: seq<Tables.MemTable>)
      requires Valid()
      ensures tables == [CurrentMemTable] + Reversed(ImmutableMemTables)
      ensures |tables| == |Stores()|
      ensures forall i :: 0 <= i < |tables| ==> tables[i].InMemoryStorage == Stores()[i]
    {
      tables := [CurrentMemTable];
      var last := |ImmutableMemTables| - 1;
      for i := 0 to |ImmutableMemTables|
        invariant tables == [CurrentMemTable] + Reversed(ImmutableMemTables[last + 1 - i..])
      {
        assert ImmutableMemTables[last - i..][1..] == ImmutableMemTables[last + 1 - i..];
        tables := tables + [ImmutableMemTables[last - i]];
      }
      assert ImmutableMemTables[0..] == ImmutableMemTables;
      forall i | 0 <= i < |ImmutableMemTables|
        ensures Reversed(ImmutableMemTables)[i].InMemoryStorage == Reversed(Frozen)[i]
      {
        ReversedAt(ImmutableMemTables, i);
        ReversedAt(Frozen, i);
      }
    }
  }

  /** Element `i` of `s` back to front is element `|s| - 1 - i` of `s`. */
  lemma {:induction false} ReversedAt<T>(s: seq<T>, i: nat)
    requires i < |s|
    ensures Reversed(s)[i] == s[|s| - 1 - i]
  {
    if i < |s| - 1 {
      ReversedAt(s[1..], i);
    }
  }

  lemma {:induction false} ReversedAppend<T>(s: seq<T>, x: T)
    ensures Reversed(s + [x]) == [x] + Reversed(s)
  {
    if s != [] {
      assert (s + [x])[1..] == s[1..] + [x];
      ReversedAppend(s[1..], x);
    }
  }

  /** Reading the tables one by one finds what the merged table holds. */
  lemma {:induction false} FindMerged(stores: seq<Storage>, key: seq<Byte>)
    ensures Find(stores, key) == Lookup(Merged(stores), key)
  {
    if stores != [] {
      FindMerged(stores[1..], key);
    }
  }

  /** A key found in the first table is shadowed in none of the others. */
  lemma NewestShadows(stores: seq<Storage>, key: seq<Byte>)
    requires stores != [] && key in stores[0]
    ensures Find(stores, key) == (ValueStruct(key, stores[0][key]), true)
  {
  }

  /** A key absent from every table is not found, and the zero record comes back. */
  lemma {:induction false} AbsentEverywhere(stores: seq<Storage>, key: seq<Byte>)
    ensures (forall i :: 0 <= i < |stores| ==> key !in stores[i]) <==> Find(stores, key) == (Zero, false)
  {
    FindMerged(stores, key);
    MergedKeys(stores, key);
  }

  /** The merged table holds a key exactly when some table does. */
  lemma {:induction false} MergedKeys(stores: seq<Storage>, key: seq<Byte>)
    ensures key in Merged(stores) <==> exists i :: 0 <= i < |stores| && key in stores[i]
  {
    if stores != [] {
      MergedKeys(stores[1..], key);
      if key in Merged(stores[1..]) {
        var i :| 0 <= i < |stores[1..]| && key in stores[1..][i];
        assert key in stores[i + 1];
      }
      if exists i :: 0 <= i < |stores| && key in stores[i] {
        var i :| 0 <= i < |stores| && key in stores[i];
        if i > 0 {
          assert key in stores[1..][i - 1];
        }
      }
    }
  }

  /** Writing into the current table updates the merged contents at that key only. */
  lemma WriteUpdatesContents(current: Storage, frozen: seq<Storage>, key: seq<Byte>, data: seq<Byte>)
    ensures Merged([current[key := data]] + Reversed(frozen)) == Merged([current] + Reversed(frozen))[key := data]
  {
    var older := Reversed(frozen);
    assert ([current[key := data]] + older)[1..] == older;
    assert ([current] + older)[1..] == older;
    assert Merged(older) + current[key := data] == (Merged(older) + current)[key := data];
  }

  /** Freezing the current table and starting an empty one changes nothing a read can see. */
  lemma FreezeKeepsContents(current: Storage, frozen: seq<Storage>)
    ensures Merged([map[]] + Reversed(frozen + [current])) == Merged([current] + Reversed(frozen))
  {
    ReversedAppend(frozen, current);
    assert ([map[]] + Reversed(frozen + [current]))[1..] == [current] + Reversed(frozen);
  }
}
