/**
 * The block builder of storage/block/builder.go: packs `keyLen | key | valueLen | value`
 * records into a block's data under a target size, with all size arithmetic in `uint16`.
 */
module BlockBuilder {
  import opened Bytes
  import opened Block

  /** A key/value pair the builder accepted. */
  datatype Entry = Entry(key: seq<Byte>, value: seq<Byte>)

  /** One record as `Add` writes it: both lengths truncated to 16 bits, big-endian. */
  function Record(e: Entry): (r: seq<Byte>)
    ensures |r| == 4 + |e.key| + |e.value|
  {
    BE16(ToU16(|e.key|)) + e.key + BE16(ToU16(|e.value|)) + e.value
  }

  /** The records of `entries`, back to back. */
  function Records(entries: seq<Entry>): seq<Byte>
  {
    if entries == [] then [] else Record(entries[0]) + Records(entries[1..])
  }

  /** The offset `Add` records for each entry: the data length before it, as a `uint16`. */
  function RecordOffsets(entries: seq<Entry>): (r: seq<U16>)
    ensures |r| == |entries|
  {
    if entries == [] then []
    else RecordOffsets(entries[..|entries| - 1]) + [ToU16(|Records(entries[..|entries| - 1])|)]
  }

  /** The block a builder holding `entries` builds. */
  function BlockOf(entries: seq<Entry>): Block
  {
    Block(Records(entries), RecordOffsets(entries))
  }

  /** The bytes `Add` counts for a new record: `uint16(len(key)+len(value)) + 3*SIZEOF_UINT16`, wrapping. */
  function RequiredSize(key: seq<Byte>, value: seq<Byte>): U16
  {
    ToU16(ToU16(|key| + |value|) + 3 * SIZEOF_UINT16)
  }

  /** `estimatedCurrentBlockSize` of a builder holding `data` and `offsets`, computed in `uint16`. */
  function Estimate(data: seq<Byte>, offsets: seq<U16>): U16
  {
    ToU16(SIZEOF_UINT16 + ToU16(|data| + |offsets| * SIZEOF_UINT16))
  }

  /**
   * Whether `Add` accepts the pair into a builder holding `data` and `offsets`: an
   * empty builder always does, any other when the wrapped sum of the estimate and
   * the required size is at most the target.
   */
  predicate Fits(data: seq<Byte>, offsets: seq<U16>, target: U16, key: seq<Byte>, value: seq<Byte>)
  {
    offsets == [] || ToU16(Estimate(data, offsets) + RequiredSize(key, value)) <= target
  }

  class BlockBuilder {
    var Data: seq<Byte>
    var Offsets: seq<U16>
    const TargetSize: U16
    /** The pairs accepted so far, in order. */
    ghost var Entries: seq<Entry>

    ghost predicate Valid()
      reads this
    {
      Data == Records(Entries) && Offsets == RecordOffsets(Entries)
    }

    /** `NewBlockBuilder`. */
    constructor (targetSize: U16)
      ensures Valid() && Entries == []
      ensures Data == [] && Offsets == [] && TargetSize == targetSize
    {
      Data := [];
      Offsets := [];
      TargetSize := targetSize;
      Entries := [];
    }

    /** `estimatedCurrentBlockSize`: the encoded size of the block so far, computed in `uint16`. */
    function EstimatedCurrentBlockSize(): U16
      reads this
    {
      Estimate(Data, Offsets)
    }

    /** `isEmpty`. */
    predicate IsEmpty()
      reads this
    {
      |Offsets| == 0
    }

    /** `Add`: appends a record, or refuses it without changing anything. */
    method Add(key: seq<Byte>, value: seq<Byte>) returns (ok: bool)
      requires Valid() && |key| > 0
      modifies this
      ensures Valid()
      ensures ok == Fits(old(Data), old(Offsets), TargetSize, key, value)
      ensures old(Offsets) == [] ==> ok
      ensures ok ==> (Entries == old(Entries) + [Entry(key, value)]
                      && Offsets == old(Offsets) + [ToU16(|old(Data)|)]
                      && Data == old(Data) + BE16(ToU16(|key|)) + key + BE16(ToU16(|value|)) + value)
      ensures !ok ==> (Entries == old(Entries) && Data == old(Data) && Offsets == old(Offsets))
    {
      var requiredSize := ToU16(ToU16(|key| + |value|) + 3 * SIZEOF_UINT16);
      if ToU16(EstimatedCurrentBlockSize() + requiredSize) > TargetSize && !IsEmpty() {
        return false;
      }
      AppendRecord(Entries, Data, Offsets, Entry(key, value));
      Offsets := Offsets + [ToU16(|Data|)];
      var buf := Data;
      buf := buf + BE16(ToU16(|key|));
      buf := buf + key;
      buf := buf + BE16(ToU16(|value|));
      buf := buf + value;
      Data := buf;
      Entries := Entries + [Entry(key, value)];
      return true;
    }

    /** `Build`: the empty block when nothing was accepted, otherwise the data and offsets. */
    function Build(): (b: Block)
      reads this
      ensures Valid() ==> b == BlockOf(Entries)
    {
      if IsEmpty() then Block([], []) else Block(Data, Offsets)
    }
  }

  lemma {:induction false} RecordsConcat(a: seq<Entry>, b: seq<Entry>)
    ensures Records(a + b) == Records(a) + Records(b)
  {
    if a == [] {
      assert a + b == b;
    } else {
      assert (a + b)[0] == a[0];
      assert (a + b)[1..] == a[1..] + b;
      RecordsConcat(a[1..], b);
    }
  }

  lemma RecordsAppend(entries: seq<Entry>, e: Entry)
    ensures Records(entries + [e]) == Records(entries) + Record(e)
  {
    RecordsConcat(entries, [e]);
    assert Records([e]) == Record(e) + Records([]);
  }

  lemma RecordOffsetsAppend(entries: seq<Entry>, e: Entry)
    ensures RecordOffsets(entries + [e]) == RecordOffsets(entries) + [ToU16(|Records(entries)|)]
  {
    assert (entries + [e])[..|entries|] == entries;
  }

  /** Appending a record's fields and its offset keeps a builder's data and offsets those of its entries. */
  lemma AppendRecord(entries: seq<Entry>, data: seq<Byte>, offsets: seq<U16>, e: Entry)
    requires data == Records(entries) && offsets == RecordOffsets(entries)
    ensures data + BE16(ToU16(|e.key|)) + e.key + BE16(ToU16(|e.value|)) + e.value == Records(entries + [e])
    ensures offsets + [ToU16(|data|)] == RecordOffsets(entries + [e])
  {
    RecordsAppend(entries, e);
    RecordOffsetsAppend(entries, e);
  }

  /** The offset of entry `i` is the length of the records before it, in 16 bits. */
  lemma {:induction false} RecordOffsetAt(entries: seq<Entry>, i: nat)
    requires i < |entries|
    ensures RecordOffsets(entries)[i] == ToU16(|Records(entries[..i])|)
    decreases |entries|
  {
    var init := entries[..|entries| - 1];
    if i < |init| {
      RecordOffsetAt(init, i);
      assert init[..i] == entries[..i];
    }
  }

  /** The records of `entries` surround record `i`: those before it, then it, then those after. */
  lemma RecordsSplit(entries: seq<Entry>, i: nat)
    requires i < |entries|
    ensures Records(entries) == Records(entries[..i]) + Record(entries[i]) + Records(entries[i + 1..])
  {
    var post := entries[i..];
    assert entries == entries[..i] + post;
    RecordsConcat(entries[..i], post);
    assert post[0] == entries[i] && post[1..] == entries[i + 1..];
  }

  /**
   * While the data stays below 65536 bytes, the offsets are exact and strictly
   * increasing, and each one starts a record that lies inside the data.
   */
  lemma RecordOffsetsIncrease(entries: seq<Entry>)
    requires |Records(entries)| < 0x1_0000
    ensures forall i :: 0 <= i < |entries| ==>
              RecordOffsets(entries)[i] == |Records(entries[..i])|
              && RecordOffsets(entries)[i] + |Record(entries[i])| <= |Records(entries)|
    ensures forall i, j :: 0 <= i < j < |entries| ==> RecordOffsets(entries)[i] < RecordOffsets(entries)[j]
  {
    forall i | 0 <= i < |entries|
      ensures RecordOffsets(entries)[i] == |Records(entries[..i])|
      ensures |Records(entries[..i])| + |Record(entries[i])| <= |Records(entries)|
    {
      RecordsSplit(entries, i);
      RecordOffsetAt(entries, i);
      SmallToU16(|Records(entries[..i])|);
    }
    forall i, j | 0 <= i < j < |entries|
      ensures |Records(entries[..i])| < |Records(entries[..j])|
    {
      RecordsSplit(entries[..j], i);
      assert entries[..j][..i] == entries[..i];
    }
  }

  /**
   * An accepted `Add` on a non-empty builder keeps the estimate within the target,
   * as long as the new estimate `2 + |data| + 2 * |offsets|` stays below 65536: no
   * `uint16` sum wrapped, so the budget check compared the true new estimate.
   */
  lemma AddStaysWithinTarget(data: seq<Byte>, offsets: seq<U16>, key: seq<Byte>, value: seq<Byte>, target: U16)
    requires offsets != [] && Fits(data, offsets, target, key, value)
    requires 2 + (|data| + 4 + |key| + |value|) + 2 * (|offsets| + 1) < 0x1_0000
    ensures Estimate(data + Record(Entry(key, value)), offsets + [ToU16(|data|)]) <= target
  {
    var d, o, p := |data|, |offsets|, |key| + |value|;
    SmallToU16(d + o * 2);
    SmallToU16(2 + (d + o * 2));
    SmallToU16(p);
    SmallToU16(p + 6);
    SmallToU16(2 + (d + o * 2) + (p + 6));
    SmallToU16(d + 4 + p + (o + 1) * 2);
    SmallToU16(2 + (d + 4 + p + (o + 1) * 2));
  }

  /** The builder's size estimate is the length of the encoded block, while nothing wraps. */
  lemma EstimateIsEncodedSize(b: BlockBuilder)
    requires b.Valid() && !b.IsEmpty()
    requires 2 + |b.Data| + 2 * |b.Offsets| < 0x1_0000
    ensures b.EstimatedCurrentBlockSize() == |Encoded(b.Build())|
  {
    EncodedLayout(b.Build());
  }

  /**
   * The budget check wraps: a builder with target size 4096 and one small record
   * accepts a 65530-byte key with an empty value, because `uint16(len(key)+len(value)) + 6`
   * wraps to 0.
   */
  lemma WrappedBudgetAcceptsOversizedRecord(key: seq<Byte>)
    requires |key| == 65530
    ensures var entries := [Entry([1], [])];
            var estimate := Estimate(Records(entries), RecordOffsets(entries));
            ToU16(estimate + RequiredSize(key, [])) <= 4096
            && estimate + |key| + 6 > 4096
  {
    assert Records([Entry([1], [])]) == Record(Entry([1], [])) + Records([]);
  }
}
