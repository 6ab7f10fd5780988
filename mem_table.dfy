/**
 * The memtable of storage/mem_table/mem_table.go: one generation's ordered table of
 * records keyed by their key, with last-write-wins replacement, and a 32-bit counter
 * of the bytes written into it.
 *
 * The B-tree is ordered by key and replaces a record whose key compares equal, so at
 * any time it holds one record per key, and the record found for `key` carries `key`
 * itself. It is modelled as the map from each key to its record's data.
 */
module MemTable {
  import opened Bytes

  /** `MEMTABLE_MAX_SIZE_BYTES`: 64 MiB. */
  const MEMTABLE_MAX_SIZE_BYTES: U32 := 64 * 0x10_0000

  /** A record. A deletion is the key with empty data. */
  datatype ValueStruct = ValueStruct(Key: seq<Byte>, Data: seq<Byte>)

  /** The contents of a memtable: each key's data. */
  type Storage = map<seq<Byte>, seq<Byte>>

  /** The zero `ValueStruct{}` that a lookup of an absent key returns. */
  const Zero := ValueStruct([], [])

  /** What the tree's `Get` returns for `key`: the record stored under it, or the zero record and false. */
  function Lookup(storage: Storage, key: seq<Byte>): (ValueStruct, bool)
  {
    if key in storage then (ValueStruct(key, storage[key]), true) else (Zero, false)
  }

  /** The counter after `ApproximateSize.Add(uint32(n))`: both the conversion and the sum wrap modulo 2^32. */
  function Grow(size: U32, n: nat): (r: U32)
    ensures r == (size + n) % 0x1_0000_0000
    ensures size + n < 0x1_0000_0000 ==> r == size + n
  {
    ToU32(size + ToU32(n))
  }

  /** A lookup after a replace-or-insert of `r` finds `r` under its key and what it found before under any other. */
  lemma LookupAfterReplace(storage: Storage, r: ValueStruct, key: seq<Byte>)
    ensures Lookup(storage[r.Key := r.Data], key) == if key == r.Key then (r, true) else Lookup(storage, key)
  {
  }

  class MemTable {
    const Id: nat
    var InMemoryStorage: Storage
    var ApproximateSize: U32

    /** `NewMemTable`. */
    constructor (id: nat)
      ensures Id == id && InMemoryStorage == map[] && ApproximateSize == 0
    {
      Id := id;
      InMemoryStorage := map[];
      ApproximateSize := 0;
    }

    /** `Set`: counts the key and data bytes, then replaces or inserts the record. */
    method Set(command: ValueStruct)
      modifies this
      ensures InMemoryStorage == old(InMemoryStorage)[command.Key := command.Data]
      ensures ApproximateSize == (old(ApproximateSize) + |command.Key| + |command.Data|) % 0x1_0000_0000
      ensures Get(command.Key) == (command, true)
      ensures forall k :: k != command.Key ==> Get(k) == old(Get(k))
    {
      ApproximateSize := Grow(ApproximateSize, |command.Key| + |command.Data|);
      InMemoryStorage := InMemoryStorage[command.Key := command.Data];
    }

    /** `Delete`: counts the key bytes, then stores the key with empty data. */
    method Delete(key: seq<Byte>)
      modifies this
      ensures InMemoryStorage == old(InMemoryStorage)[key := []]
      ensures ApproximateSize == (old(ApproximateSize) + |key|) % 0x1_0000_0000
      ensures Get(key) == (ValueStruct(key, []), true)
      ensures forall k :: k != key ==> Get(k) == old(Get(k))
    {
      ApproximateSize := Grow(ApproximateSize, |key|);
      InMemoryStorage := InMemoryStorage[key := []];
    }

    /** `Get`. */
    function Get(key: seq<Byte>): (ValueStruct, bool)
      reads this
    {
      Lookup(InMemoryStorage, key)
    }
  }
}
