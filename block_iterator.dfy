/**
 * The block iterator of storage/block/iterator.go: a cursor `idx` over the records
 * of one block, with the last decoded key and value and an error slot whose
 * emptiness is `Valid()`.
 */
module BlockIterator {
  import opened Wrappers
  import opened Bytes
  import opened Block
  import opened BlockBuilder

  /** The errors `decodeEntry` stores; `EOF` is `io.EOF`. */
  datatype Error =
    | EOF
    | InvalidDataOffset(offset: U16)
    | InsufficientKeyLength
    | InsufficientKey
    | InsufficientValueLength
    | InsufficientValue

  /**
   * What one `decodeEntry` call produces: a key and a value, or an error together
   * with the key when the key was already read before the error.
   */
  datatype Decoding =
    | Decoded(key: seq<Byte>, value: seq<Byte>)
    | Failed(error: Error, keyRead: Option<seq<Byte>>)

  /** The bounds-checked reading of the record that starts at `offset` in `data`. */
  function ParseRecord(data: seq<Byte>, offset: U16): Decoding
  {
    if offset as int >= |data| then Failed(InvalidDataOffset(offset), None)
    else ParseKeyLength(data[offset..])
  }

  function ParseKeyLength(rest: seq<Byte>): Decoding
  {
    if |rest| < 2 then Failed(InsufficientKeyLength, None)
    else ParseKey(ReadBE16(rest), rest[2..])
  }

  function ParseKey(keyLen: U16, rest: seq<Byte>): Decoding
  {
    if |rest| < keyLen as int then Failed(InsufficientKey, None)
    else ParseValueLength(rest[..keyLen], rest[keyLen..])
  }

  function ParseValueLength(key: seq<Byte>, rest: seq<Byte>): Decoding
  {
    if |rest| < 2 then Failed(InsufficientValueLength, Some(key))
    else ParseValue(key, ReadBE16(rest), rest[2..])
  }

  function ParseValue(key: seq<Byte>, valueLen: U16, rest: seq<Byte>): Decoding
  {
    if |rest| < valueLen as int then Failed(InsufficientValue, Some(key))
    else Decoded(key, rest[..valueLen])
  }

  /** What `decodeEntry` produces at index `idx`: end of block past the last offset, else the record there. */
  function EntryAt(offsets: seq<U16>, data: seq<Byte>, idx: nat): Decoding
  {
    if idx >= |offsets| then Failed(EOF, None) else ParseRecord(data, offsets[idx])
  }

  /** What `decodeEntry` produces at each index of the block. */
  function Decodings(offsets: seq<U16>, data: seq<Byte>): (ds: seq<Decoding>)
    ensures |ds| == |offsets|
    ensures forall i :: 0 <= i < |offsets| ==> ds[i] == ParseRecord(data, offsets[i])
  {
    if offsets == [] then [] else [ParseRecord(data, offsets[0])] + Decodings(offsets[1..], data)
  }

  /**
   * How the linear scan of `Seek` ends: at the index of a match, past the end
   * holding the last record it decoded (none in an empty block), or in a panic.
   */
  datatype SeekOutcome = Found(index: nat) | NotFound(last: Option<Decoding>) | Panics

  /**
   * The scan of `Seek` from index `j`, where `last` is what the scan decoded
   * before `j`: the first record whose key is `key`, or the first decode error.
   */
  function SeekFrom(ds: seq<Decoding>, key: seq<Byte>, j: nat, last: Option<Decoding>): SeekOutcome
    decreases |ds| - j
  {
    if j >= |ds| then NotFound(last)
    else match ds[j]
      case Failed(_, _) => Panics
      case Decoded(k, _) => if k == key then Found(j) else SeekFrom(ds, key, j + 1, Some(ds[j]))
  }

  /**
   * One step of the scan at index `j`, which does not end in a panic: the record
   * there decodes, and the scan ends there exactly when its key is `key`.
   */
  lemma ScanStep(offsets: seq<U16>, data: seq<Byte>, key: seq<Byte>, j: nat, last: Option<Decoding>)
    requires j < |offsets| && SeekFrom(Decodings(offsets, data), key, j, last) != Panics
    ensures EntryAt(offsets, data, j).Decoded?
    ensures EntryAt(offsets, data, j).key == key ==> SeekFrom(Decodings(offsets, data), key, j, last) == Found(j)
    ensures EntryAt(offsets, data, j).key != key ==>
              SeekFrom(Decodings(offsets, data), key, j + 1, Some(EntryAt(offsets, data, j)))
              == SeekFrom(Decodings(offsets, data), key, j, last)
  {
    assert Decodings(offsets, data)[j] == EntryAt(offsets, data, j);
  }

  /** A record the scan steps over: it decodes, to a key other than `key`. */
  predicate Passes(d: Decoding, key: seq<Byte>)
  {
    d.Decoded? && d.key != key
  }

  class Iterator {
    var blockData: seq<Byte>
    var idx: nat
    var currentKey: seq<Byte>
    var currentValue: seq<Byte>
    var block: Option<Block>
    var err: Option<Error>

    /** The zero `Iterator{}`: no block, index 0, no error. */
    constructor ()
      ensures blockData == [] && idx == 0 && currentKey == [] && currentValue == []
      ensures block == None && err == None
    {
      blockData, idx, currentKey, currentValue := [], 0, [], [];
      block, err := None, None;
    }

    /** `SetBlock`: rewinds to index 0 and copies the block's data; it neither decodes nor clears the error. */
    method SetBlock(b: Block)
      modifies this
      ensures idx == 0 && block == Some(b) && blockData == b.data
      ensures err == old(err) && currentKey == old(currentKey) && currentValue == old(currentValue)
    {
      idx := 0;
      block := Some(b);
      blockData := b.data;
    }

    /**
     * `SetBlock` as the iterator's contract needs it: it rewinds to index 0 and then
     * decodes there, so the first record is current and the error is reset by that
     * decode (`io.EOF` for an empty block).
     */
    method SetBlockAndDecode(b: Block)
      modifies this
      ensures idx == 0 && block == Some(b) && blockData == b.data
      ensures EntryAt(b.offsets, b.data, 0).Decoded? ==>
                err == None && Decoded(currentKey, currentValue) == EntryAt(b.offsets, b.data, 0)
      ensures EntryAt(b.offsets, b.data, 0).Failed? ==> err == Some(EntryAt(b.offsets, b.data, 0).error)
      ensures Rest() == Run(b.offsets, b.data, 0)
    {
      ghost var d := EntryAt(b.offsets, b.data, 0);
      RunUnfold(b.offsets, b.data, 0);
      SetBlock(b);
      assert Current() == d;
      DecodeEntry();
      if d.Decoded? {
        assert Decoded(currentKey, currentValue) == d;
      }
    }

    /** The outcome of decoding at the current index. */
    function Current(): Decoding
      reads this
      requires block.Some?
    {
      EntryAt(block.value.offsets, blockData, idx)
    }

    /** `decodeEntry`: stores the record at `idx`, or the error that stopped its decoding. */
    method DecodeEntry()
      requires block.Some?
      modifies this
      ensures idx == old(idx) && block == old(block) && blockData == old(blockData)
      ensures old(Current()).Decoded? ==>
                err == None && currentKey == old(Current()).key && currentValue == old(Current()).value
      ensures old(Current()).Failed? ==>
                err == Some(old(Current()).error)
                && currentKey == old(Current()).keyRead.GetOr(old(currentKey))
                && currentValue == old(currentValue)
    {
      var offsets := block.value.offsets;
      if idx >= |offsets| {
        err := Some(EOF);
        return;
      }
      var dataOffset := offsets[idx];
      if dataOffset as int >= |blockData| {
        err := Some(InvalidDataOffset(dataOffset));
        return;
      }
      var data := blockData[dataOffset..];
      if |data| < 2 {
        err := Some(InsufficientKeyLength);
        return;
      }
      var keyLen := ReadBE16(data);
      data := data[2..];
      if |data| < keyLen as int {
        err := Some(InsufficientKey);
        return;
      }
      currentKey := data[..keyLen];
      data := data[keyLen..];
      if |data| < 2 {
        err := Some(InsufficientValueLength);
        return;
      }
      var valueLen := ReadBE16(data);
      data := data[2..];
      if |data| < valueLen as int {
        err := Some(InsufficientValue);
        return;
      }
      currentValue := data[..valueLen];
      err := None;
    }

    /** `Valid`: the last decode succeeded (or nothing has set an error yet). */
    predicate Valid()
      reads this
    {
      err == None
    }

    /**
     * `Seek`: scans from index 0 for the first record whose key is `key`. Without a
     * match it stops at `idx == len(offsets)` and leaves the error as the last decode
     * set it. A decode error on the way panics, so that is excluded.
     */
    method Seek(key: seq<Byte>)
      requires block.Some? && SeekFrom(Decodings(block.value.offsets, blockData), key, 0, None) != Panics
      modifies this
      ensures block == old(block) && blockData == old(blockData)
      ensures var offsets := block.value.offsets;
              match SeekFrom(Decodings(offsets, blockData), key, 0, None)
              case Found(j) =>
                idx == j && err == None && currentKey == key
                && EntryAt(offsets, blockData, j) == Decoded(key, currentValue)
              case NotFound(last) =>
                idx == |offsets|
                && (last == None ==> err == old(err) && currentKey == old(currentKey) && currentValue == old(currentValue))
                && (last != None ==> err == None && last == Some(Decoded(currentKey, currentValue)))
              case Panics => false
    {
      ghost var outcome := SeekFrom(Decodings(block.value.offsets, blockData), key, 0, None);
      ghost var held: Option<Decoding> := None;
      idx := 0;
      while idx < |block.value.offsets|
        invariant block == old(block) && blockData == old(blockData)
        invariant idx <= |block.value.offsets|
        invariant SeekFrom(Decodings(block.value.offsets, blockData), key, idx, held) == outcome
        invariant held == None ==> err == old(err) && currentKey == old(currentKey) && currentValue == old(currentValue)
        invariant held != None ==> err == None && held == Some(Decoded(currentKey, currentValue))
        decreases |block.value.offsets| - idx
      {
        ScanStep(block.value.offsets, blockData, key, idx, held);
        ghost var d := Current();
        assert d.Decoded?;
        DecodeEntry();
        assert err == None && Decoded(currentKey, currentValue) == d;
        if err != None {
          assert false;
        }
        if currentKey == key {
          return;
        }
        held := Some(Decoded(currentKey, currentValue));
        idx := idx + 1;
      }
    }

    /**
     * `Seek` with the outcome a miss should have: a scan without a match leaves the
     * iterator at the end of the block and invalid. It is `Seek` followed,
     * at the end position, by one more decode, which stores `io.EOF`.
     */
    method SeekOrEnd(key: seq<Byte>)
      requires block.Some? && SeekFrom(Decodings(block.value.offsets, blockData), key, 0, None) != Panics
      modifies this
      ensures block == old(block) && blockData == old(blockData)
      ensures var offsets := block.value.offsets;
              match SeekFrom(Decodings(offsets, blockData), key, 0, None)
              case Found(j) =>
                idx == j && Valid() && currentKey == key
                && EntryAt(offsets, blockData, j) == Decoded(key, currentValue)
              case NotFound(_) => idx == |offsets| && err == Some(EOF) && !Valid()
              case Panics => false
    {
      ghost var outcome := SeekFrom(Decodings(block.value.offsets, blockData), key, 0, None);
      if outcome.Found? {
        SeekFound(Decodings(block.value.offsets, blockData), key, 0, None, outcome.index);
      }
      Seek(key);
      if idx >= |block.value.offsets| {
        DecodeEntry();
      }
    }

    /** `Next`: nothing once invalid; otherwise advances the index and then decodes. */
    method Next()
      requires err == None ==> block.Some?
      modifies this
      ensures old(err) != None ==>
                idx == old(idx) && err == old(err) && currentKey == old(currentKey) && currentValue == old(currentValue)
      ensures block == old(block) && blockData == old(blockData)
      ensures old(err) == None ==>
                idx == old(idx) + 1
                && var d := EntryAt(block.value.offsets, blockData, idx);
                   (d.Decoded? ==> err == None && currentKey == d.key && currentValue == d.value)
                   && (d.Failed? ==> err == Some(d.error) && currentKey == d.keyRead.GetOr(old(currentKey))
                                     && currentValue == old(currentValue))
    {
      if err != None {
        return;
      }
      idx := idx + 1;
      DecodeEntry();
    }

    /**
     * Reads the current key and value and calls `Next` for as long as the iterator is
     * valid: the pairs of the valid positions it passes through, in order. From a
     * valid position these are the current pair, then the records that decode from
     * the next index on; from an invalid one, none.
     */
    method Drain() returns (seen: seq<Decoding>)
      requires block.Some?
      modifies this
      ensures block == old(block) && blockData == old(blockData) && !Valid()
      ensures old(err) != None ==> seen == []
      ensures old(err) == None ==>
                seen == [Decoded(old(currentKey), old(currentValue))] + Run(block.value.offsets, blockData, old(idx) + 1)
      ensures seen == old(Rest())
    {
      ghost var all := Rest();
      seen := [];
      while Valid()
        invariant block == old(block) && blockData == old(blockData)
        invariant seen + Rest() == all
        decreases |Rest()|
      {
        ghost var before := seen;
        var x := Decoded(currentKey, currentValue);
        seen := seen + [x];
        Advance();
        AppendHead(before, x, Rest(), all);
      }
    }

    /** The pairs a walk from here passes through: none once invalid, else the current pair and the records after it. */
    ghost function Rest(): seq<Decoding>
      reads this
      requires block.Some?
    {
      if err != None then [] else [Decoded(currentKey, currentValue)] + Run(block.value.offsets, blockData, idx + 1)
    }

    /** `Next` from a valid position: what is left of the walk moves on by one record. */
    method Advance()
      requires block.Some? && Valid()
      modifies this
      ensures block == old(block) && blockData == old(blockData)
      ensures old(Rest()) == [Decoded(old(currentKey), old(currentValue))] + Rest()
    {
      RunUnfold(block.value.offsets, blockData, idx + 1);
      Next();
    }

    /** `GetKey`. */
    function GetKey(): seq<Byte>
      reads this
    {
      currentKey
    }

    /** `GetValue`. */
    function GetValue(): seq<Byte>
      reads this
    {
      currentValue
    }

    /** `Close`: drops the block, the data, the key, the value and the error; the index stays. */
    method Close()
      modifies this
      ensures block == None && blockData == [] && currentKey == [] && currentValue == [] && err == None
      ensures idx == old(idx)
    {
      block := None;
      blockData := [];
      currentKey := [];
      currentValue := [];
      err := None;
    }
  }

  /** The records that decode from index `j` on, up to the first that does not (the end of the block included). */
  function Run(offsets: seq<U16>, data: seq<Byte>, j: nat): seq<Decoding>
    decreases |offsets| - j
  {
    if j >= |offsets| then []
    else var d := EntryAt(offsets, data, j); if d.Failed? then [] else [d] + Run(offsets, data, j + 1)
  }

  /** Moving `x` from the front of what is left onto what was seen keeps the whole. */
  lemma AppendHead(seen: seq<Decoding>, x: Decoding, rest: seq<Decoding>, all: seq<Decoding>)
    requires seen + ([x] + rest) == all
    ensures (seen + [x]) + rest == all
  {
  }

  /** One step of `Run`: the record at `j` when it decodes, followed by the rest. */
  lemma RunUnfold(offsets: seq<U16>, data: seq<Byte>, j: nat)
    ensures EntryAt(offsets, data, j).Decoded? ==>
              Run(offsets, data, j) == [EntryAt(offsets, data, j)] + Run(offsets, data, j + 1)
    ensures EntryAt(offsets, data, j).Failed? ==> Run(offsets, data, j) == []
  {
  }

  /** The pairs added to a builder, in order, as the iterator reports them. */
  function Pairs(entries: seq<Entry>): (r: seq<Decoding>)
    ensures |r| == |entries|
  {
    seq(|entries|, i requires 0 <= i < |entries| => Decoded(entries[i].key, entries[i].value))
  }

  /** Iterating a builder block below 65536 bytes from index `j` yields the pairs added from `j` on. */
  lemma {:induction false} BuiltBlockRun(entries: seq<Entry>, j: nat)
    requires |Records(entries)| < 0x1_0000 && j <= |entries|
    ensures Run(RecordOffsets(entries), Records(entries), j) == Pairs(entries)[j..]
    decreases |entries| - j
  {
    if j < |entries| {
      BuiltBlockEntries(entries, j);
      BuiltBlockRun(entries, j + 1);
      assert Pairs(entries)[j..] == [Pairs(entries)[j]] + Pairs(entries)[j + 1..];
    }
  }

  /**
   * A fresh iterator set on a builder block and advanced with `Next` while valid, as
   * the code is written: the first valid position holds the zero key and value
   * rather than the first record, since `SetBlock` does not decode, and an empty
   * block still yields that one valid position.
   */
  method WalkAsWritten(entries: seq<Entry>) returns (seen: seq<Decoding>)
    requires |Records(entries)| < 0x1_0000
    ensures |seen| == if entries == [] then 1 else |entries|
    ensures seen[0] == Decoded([], [])
    ensures entries != [] ==> seen[1..] == Pairs(entries)[1..]
  {
    seen := WalkFresh(BlockOf(entries));
    StaleFirstPosition(entries, seen);
  }

  /** A fresh iterator set on `b` with `SetBlock` and walked: the zero pair, then the records from index 1 on. */
  method WalkFresh(b: Block) returns (seen: seq<Decoding>)
    ensures seen == [Decoded([], [])] + Run(b.offsets, b.data, 1)
  {
    var it := new Iterator();
    it.SetBlock(b);
    seen := it.Drain();
  }

  /** The walk `WalkAsWritten` sees, given that it is the zero pair followed by the records from index 1 on. */
  lemma StaleFirstPosition(entries: seq<Entry>, seen: seq<Decoding>)
    requires |Records(entries)| < 0x1_0000
    requires seen == [Decoded([], [])] + Run(BlockOf(entries).offsets, BlockOf(entries).data, 1)
    ensures |seen| == if entries == [] then 1 else |entries|
    ensures seen[0] == Decoded([], [])
    ensures entries != [] ==> seen[1..] == Pairs(entries)[1..]
  {
    if entries != [] {
      BuiltBlockRun(entries, 1);
    } else {
      assert Run(BlockOf(entries).offsets, BlockOf(entries).data, 1) == [];
    }
  }

  /**
   * An iterator that has run off the end of one block and is then set on another
   * passes through no valid position at all: `SetBlock` keeps the `io.EOF`.
   */
  method ReuseAsWritten(first: Block, second: Block) returns (seen: seq<Decoding>)
    ensures seen == []
  {
    var it := new Iterator();
    it.SetBlock(first);
    var _ := it.Drain();
    it.SetBlock(second);
    seen := it.Drain();
  }

  /**
   * With `SetBlockAndDecode`, a fresh iterator on a builder block of `k` pairs passes
   * through exactly `k` valid positions, holding the pairs in the order they were added.
   */
  method Walk(entries: seq<Entry>) returns (seen: seq<Decoding>)
    requires |Records(entries)| < 0x1_0000
    ensures seen == Pairs(entries)
  {
    var it := new Iterator();
    seen := WalkFrom(it, entries);
  }

  /** With `SetBlockAndDecode`, an iterator already used on any block walks the next one in full. */
  method ReuseWalk(first: Block, entries: seq<Entry>) returns (seen: seq<Decoding>)
    requires |Records(entries)| < 0x1_0000
    ensures seen == Pairs(entries)
  {
    var it := new Iterator();
    it.SetBlockAndDecode(first);
    var _ := it.Drain();
    seen := WalkFrom(it, entries);
  }

  /** Sets `it` on the builder block with `SetBlockAndDecode` and walks it. */
  method WalkFrom(it: Iterator, entries: seq<Entry>) returns (seen: seq<Decoding>)
    requires |Records(entries)| < 0x1_0000
    modifies it
    ensures seen == Pairs(entries)
  {
    var b := BlockOf(entries);
    it.SetBlockAndDecode(b);
    seen := it.Drain();
    BuiltBlockRun(entries, 0);
    assert Pairs(entries)[0..] == Pairs(entries);
  }

  /**
   * On a block a builder produced, while its data is below 65536 bytes, the record
   * at offset `i` decodes to exactly the `i`-th pair added.
   */
  lemma BuiltBlockEntries(entries: seq<Entry>, i: nat)
    requires |Records(entries)| < 0x1_0000 && i < |entries|
    ensures ParseRecord(Records(entries), RecordOffsets(entries)[i]) == Decoded(entries[i].key, entries[i].value)
  {
    var off := |Records(entries[..i])|;
    var e := entries[i];
    RecordAt(entries, i);
    RecordOffsetAt(entries, i);
    SmallToU16(off);
    assert |Record(e)| > 0;
    RecordParses(e, Records(entries[i + 1..]));
  }

  /** The data of a builder starts record `i` at its offset, followed by the later records. */
  lemma RecordAt(entries: seq<Entry>, i: nat)
    requires i < |entries|
    ensures var off := |Records(entries[..i])|;
            off < |Records(entries)| && Records(entries)[off..] == Record(entries[i]) + Records(entries[i + 1..])
  {
    RecordsSplit(entries, i);
  }

  /** A record followed by anything parses back to its key and value, when both are shorter than 65536 bytes. */
  lemma RecordParses(e: Entry, rest: seq<Byte>)
    requires |e.key| < 0x1_0000 && |e.value| < 0x1_0000
    ensures ParseKeyLength(Record(e) + rest) == Decoded(e.key, e.value)
  {
    var afterKey := BE16(ToU16(|e.value|)) + (e.value + rest);
    assert Record(e) + rest == BE16(ToU16(|e.key|)) + (e.key + afterKey);
    KeyLengthParses(e.key, afterKey);
    KeyParses(e.key, afterKey);
    ValueLengthParses(e.key, e.value, rest);
  }

  lemma KeyLengthParses(key: seq<Byte>, tail: seq<Byte>)
    requires |key| < 0x1_0000
    ensures ParseKeyLength(BE16(ToU16(|key|)) + (key + tail)) == ParseKey(ToU16(|key|), key + tail)
  {
    BE16Inverse(ToU16(|key|), key + tail);
  }

  lemma KeyParses(key: seq<Byte>, tail: seq<Byte>)
    requires |key| < 0x1_0000
    ensures ParseKey(ToU16(|key|), key + tail) == ParseValueLength(key, tail)
  {
    assert (key + tail)[..|key|] == key && (key + tail)[|key|..] == tail;
  }

  lemma ValueLengthParses(key: seq<Byte>, value: seq<Byte>, rest: seq<Byte>)
    requires |value| < 0x1_0000
    ensures ParseValueLength(key, BE16(ToU16(|value|)) + (value + rest)) == Decoded(key, value)
  {
    BE16Inverse(ToU16(|value|), value + rest);
    assert (value + rest)[..|value|] == value;
  }

  /** Where the scan stops with `Found(i)`, record `i` has the key and every record before it decodes to another key. */
  lemma {:induction false} SeekFound(ds: seq<Decoding>, key: seq<Byte>, j: nat, last: Option<Decoding>, i: nat)
    requires SeekFrom(ds, key, j, last) == Found(i)
    ensures j <= i < |ds| && ds[i].Decoded? && ds[i].key == key
    ensures forall l :: j <= l < i ==> Passes(ds[l], key)
    decreases |ds| - j
  {
    if Passes(ds[j], key) {
      SeekFound(ds, key, j + 1, Some(ds[j]), i);
    }
  }

  /**
   * The scan ends with `NotFound` exactly when every record from `j` on decodes
   * to another key; it then holds the last record, or `last` when none is left.
   */
  lemma {:induction false} SeekNotFound(ds: seq<Decoding>, key: seq<Byte>, j: nat, last: Option<Decoding>)
    ensures SeekFrom(ds, key, j, last).NotFound? <==> forall l :: j <= l < |ds| ==> Passes(ds[l], key)
    ensures SeekFrom(ds, key, j, last).NotFound? ==>
              SeekFrom(ds, key, j, last).last == if j < |ds| then Some(ds[|ds| - 1]) else last
    decreases |ds| - j
  {
    if j < |ds| && Passes(ds[j], key) {
      SeekNotFound(ds, key, j + 1, Some(ds[j]));
    }
  }

  /** A scan over records that all decode never panics. */
  lemma {:induction false} SeekWithoutErrors(ds: seq<Decoding>, key: seq<Byte>, j: nat, last: Option<Decoding>)
    requires forall l :: j <= l < |ds| ==> ds[l].Decoded?
    ensures SeekFrom(ds, key, j, last) != Panics
    decreases |ds| - j
  {
    if j < |ds| && ds[j].key != key {
      SeekWithoutErrors(ds, key, j + 1, Some(ds[j]));
    }
  }

  /**
   * `Seek` on a builder block below 65536 bytes never panics: it finds the first
   * added pair with the key, or reports that none has it.
   */
  lemma BuiltBlockSeek(entries: seq<Entry>, key: seq<Byte>)
    requires |Records(entries)| < 0x1_0000
    ensures var outcome := SeekFrom(Decodings(RecordOffsets(entries), Records(entries)), key, 0, None);
            && outcome != Panics
            && (outcome.NotFound? <==> forall l :: 0 <= l < |entries| ==> entries[l].key != key)
            && (outcome.NotFound? ==>
                  outcome.last == if entries == [] then None
                                  else Some(Decoded(entries[|entries| - 1].key, entries[|entries| - 1].value)))
            && (outcome.Found? ==>
                  outcome.index < |entries| && entries[outcome.index].key == key
                  && forall l :: 0 <= l < outcome.index ==> entries[l].key != key)
  {
    var ds := Decodings(RecordOffsets(entries), Records(entries));
    forall l | 0 <= l < |entries|
      ensures ds[l] == Decoded(entries[l].key, entries[l].value)
    {
      BuiltBlockEntries(entries, l);
    }
    SeekWithoutErrors(ds, key, 0, None);
    SeekNotFound(ds, key, 0, None);
    var outcome := SeekFrom(ds, key, 0, None);
    if outcome.Found? {
      SeekFound(ds, key, 0, None, outcome.index);
    }
  }

  /**
   * A `Seek` that misses in a non-empty builder block ends holding the last record:
   * by the contract of `Seek` the error stays empty, so the iterator is still valid,
   * with that record's key and value.
   */
  lemma MissedSeekStaysValid(entries: seq<Entry>, key: seq<Byte>)
    requires |Records(entries)| < 0x1_0000 && entries != []
    requires forall l :: 0 <= l < |entries| ==> entries[l].key != key
    ensures SeekFrom(Decodings(RecordOffsets(entries), Records(entries)), key, 0, None)
            == NotFound(Some(Decoded(entries[|entries| - 1].key, entries[|entries| - 1].value)))
  {
    BuiltBlockSeek(entries, key);
  }
}
