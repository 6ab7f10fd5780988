/**
 * The block codec of storage/block/block.go.
 *
 * A block is a page of records (`data`) and the start position of each
 * record (`offsets`). Its encoding is
 *   data ‖ offset_0 … offset_{n-1} (two bytes each, big-endian) ‖ n (two bytes, big-endian).
 */
module Block {
  import opened Bytes

  datatype Block = Block(data: seq<Byte>, offsets: seq<U16>)

  /** The offset table: every offset as two big-endian bytes, in order. */
  function OffsetTable(offsets: seq<U16>): (r: seq<Byte>)
    ensures |r| == 2 * |offsets|
  {
    if offsets == [] then [] else BE16(offsets[0]) + OffsetTable(offsets[1..])
  }

  /** What `Encode` returns: the data, the offset table and the record count truncated to 16 bits. */
  function Encoded(b: Block): seq<Byte>
  {
    b.data + OffsetTable(b.offsets) + BE16(ToU16(|b.offsets|))
  }

  /** The record count stored in the last two bytes of an encoded block. */
  function StoredCount(bytes: seq<Byte>): U16
    requires |bytes| >= 2
  {
    ReadBE16(bytes[|bytes| - 2..])
  }

  /**
   * The inputs on which `Decode` does not panic: it slices the last two bytes,
   * and then the first `len - 2 - 2n` bytes.
   */
  predicate Decodable(bytes: seq<Byte>)
  {
    |bytes| >= 2 && |bytes| - 2 - 2 * (StoredCount(bytes) as int) >= 0
  }

  /** What `Decode` returns: the data prefix and the `n` offsets read from the offset table. */
  function Decoded(bytes: seq<Byte>): Block
    requires Decodable(bytes)
  {
    var n: int := StoredCount(bytes);
    var dataLen := |bytes| - 2 - 2 * n;
    Block(bytes[..dataLen], seq(n, i requires 0 <= i < n => ReadBE16(bytes[dataLen + 2 * i..])))
  }

  /** `(*Block).Encode`: starts from the data and appends each offset, then the count. */
  method Encode(b: Block) returns (bytes: seq<Byte>)
    ensures bytes == Encoded(b)
  {
    bytes := b.data;
    for i := 0 to |b.offsets|
      invariant bytes == b.data + OffsetTable(b.offsets[..i])
    {
      OffsetTableAppend(b.offsets[..i], b.offsets[i]);
      assert b.offsets[..i + 1] == b.offsets[..i] + [b.offsets[i]];
      bytes := bytes + BE16(b.offsets[i]);
    }
    assert b.offsets[..|b.offsets|] == b.offsets;
    var offsetsLen := ToU16(|b.offsets|);
    bytes := bytes + BE16(offsetsLen);
  }

  /** `Decode`: reads the count, slices the data, and fills a fresh offsets array. */
  method Decode(blockBytes: seq<Byte>) returns (block: Block)
    requires Decodable(blockBytes)
    ensures block == Decoded(blockBytes)
  {
    var numOfOffsets := ReadBE16(blockBytes[|blockBytes| - 2..]);
    var dataLen := |blockBytes| - 2 - (numOfOffsets as int) * 2;
    var data := blockBytes[..dataLen];
    var offsetsRaw := blockBytes[dataLen..|blockBytes| - 2];
    var offsets := new U16[numOfOffsets];
    for i := 0 to numOfOffsets
      invariant forall j :: 0 <= j < i ==> offsets[j] == ReadBE16(blockBytes[dataLen + 2 * j..])
    {
      assert offsetsRaw[i * 2..][..2] == blockBytes[dataLen + 2 * i..][..2];
      offsets[i] := ReadBE16(offsetsRaw[i * 2..]);
    }
    block := Block(data, offsets[..]);
  }

  lemma {:induction false} OffsetTableAppend(offsets: seq<U16>, x: U16)
    ensures OffsetTable(offsets + [x]) == OffsetTable(offsets) + BE16(x)
  {
    if offsets != [] {
      assert (offsets + [x])[1..] == offsets[1..] + [x];
      OffsetTableAppend(offsets[1..], x);
    }
  }

  /** Offset `i` occupies bytes `2i` and `2i + 1` of the offset table. */
  lemma {:induction false} OffsetTableAt(offsets: seq<U16>, i: nat)
    requires i < |offsets|
    ensures OffsetTable(offsets)[2 * i..2 * i + 2] == BE16(offsets[i])
  {
    if i > 0 {
      OffsetTableAt(offsets[1..], i - 1);
      assert OffsetTable(offsets)[2 * i..2 * i + 2] == OffsetTable(offsets[1..])[2 * (i - 1)..2 * (i - 1) + 2];
    }
  }

  /**
   * The layout of an encoding: its length, the data as a prefix, offset `i`
   * big-endian at position `|data| + 2i`, and the truncated count in the last two bytes.
   */
  lemma EncodedLayout(b: Block)
    ensures |Encoded(b)| == |b.data| + 2 * |b.offsets| + 2
    ensures Encoded(b)[..|b.data|] == b.data
    ensures forall i :: 0 <= i < |b.offsets| ==>
              Encoded(b)[|b.data| + 2 * i..|b.data| + 2 * i + 2] == BE16(b.offsets[i])
    ensures Encoded(b)[|Encoded(b)| - 2..] == BE16(ToU16(|b.offsets|))
  {
    var e := Encoded(b);
    var d := |b.data|;
    forall i | 0 <= i < |b.offsets|
      ensures e[d + 2 * i..d + 2 * i + 2] == BE16(b.offsets[i])
    {
      OffsetTableAt(b.offsets, i);
      assert e[d + 2 * i..d + 2 * i + 2] == OffsetTable(b.offsets)[2 * i..2 * i + 2];
    }
  }

  /** Decoding an encoded block gives the block back, as long as its count fits in 16 bits. */
  lemma DecodeEncoded(b: Block)
    requires |b.offsets| < 0x1_0000
    ensures Decodable(Encoded(b))
    ensures Decoded(Encoded(b)) == b
  {
    var e := Encoded(b);
    EncodedCount(b);
    var d := Decoded(e);
    assert d.data == b.data;
    forall i | 0 <= i < |b.offsets|
      ensures d.offsets[i] == b.offsets[i]
    {
      EncodedOffsetAt(b, i);
    }
  }

  /** The count an encoding stores is the number of offsets, when it fits in 16 bits. */
  lemma EncodedCount(b: Block)
    requires |b.offsets| < 0x1_0000
    ensures |Encoded(b)| >= 2 && StoredCount(Encoded(b)) == |b.offsets|
  {
    var e := Encoded(b);
    assert e[|e| - 2..] == BE16(ToU16(|b.offsets|)) + [];
    BE16Inverse(ToU16(|b.offsets|), []);
  }

  lemma EncodedOffsetAt(b: Block, i: nat)
    requires i < |b.offsets|
    ensures |Encoded(b)| >= |b.data| + 2 * i + 2
    ensures ReadBE16(Encoded(b)[|b.data| + 2 * i..]) == b.offsets[i]
  {
    var e := Encoded(b);
    var at := |b.data| + 2 * i;
    OffsetTableAt(b.offsets, i);
    assert e[at..at + 2] == OffsetTable(b.offsets)[2 * i..2 * i + 2];
    assert e[at..] == BE16(b.offsets[i]) + e[at + 2..];
    BE16Inverse(b.offsets[i], e[at + 2..]);
  }

  /** Every input `Decode` accepts is the encoding of what it decodes to. */
  lemma EncodeDecoded(bytes: seq<Byte>)
    requires Decodable(bytes)
    ensures Encoded(Decoded(bytes)) == bytes
  {
    var d := Decoded(bytes);
    var dataLen := |bytes| - 2 - 2 * (StoredCount(bytes) as int);
    var table := bytes[dataLen..|bytes| - 2];
    DecodedFromTable(bytes);
    ReadOffsetTable(table, d.offsets);
    var count := bytes[|bytes| - 2..];
    ReadBE16Inverse(count);
    assert BE16(ToU16(|d.offsets|)) == count;
    assert d.data == bytes[..dataLen];
    assert bytes == bytes[..dataLen] + table + count;
  }

  /** The offsets `Decode` reads are those of the offset table, the bytes between the data and the count. */
  lemma DecodedFromTable(bytes: seq<Byte>)
    requires Decodable(bytes)
    ensures var n := StoredCount(bytes) as int;
            var table := bytes[|bytes| - 2 - 2 * n..|bytes| - 2];
            |table| == 2 * |Decoded(bytes).offsets|
            && forall i :: 0 <= i < n ==> Decoded(bytes).offsets[i] == ReadBE16(table[2 * i..])
  {
    var n := StoredCount(bytes) as int;
    var dataLen := |bytes| - 2 - 2 * n;
    var table := bytes[dataLen..|bytes| - 2];
    forall i | 0 <= i < n
      ensures Decoded(bytes).offsets[i] == ReadBE16(table[2 * i..])
    {
      assert table[2 * i..][..2] == bytes[dataLen + 2 * i..][..2];
    }
  }

  /** Offsets read two bytes at a time from `table` are written back as `table`. */
  lemma {:induction false} ReadOffsetTable(table: seq<Byte>, offsets: seq<U16>)
    requires |table| == 2 * |offsets|
    requires forall i :: 0 <= i < |offsets| ==> offsets[i] == ReadBE16(table[2 * i..])
    ensures OffsetTable(offsets) == table
  {
    if offsets != [] {
      forall i | 0 <= i < |offsets| - 1
        ensures offsets[1..][i] == ReadBE16(table[2..][2 * i..])
      {
        assert table[2..][2 * i..] == table[2 * (i + 1)..];
      }
      ReadOffsetTable(table[2..], offsets[1..]);
      ReadBE16Inverse(table);
      assert table == table[..2] + table[2..];
    }
  }

  /** The block of storage/block/block_test.go: two records, offsets 0 and 6. */
  lemma TestBlockEncoding()
    ensures Encoded(Block([0, 1, 'a' as Byte, 0, 2, 'b' as Byte, 'c' as Byte], [0, 6]))
         == [0, 1, 'a' as Byte, 0, 2, 'b' as Byte, 'c' as Byte, 0, 0, 0, 6, 0, 2]
    ensures Decoded(Encoded(Block([0, 1, 'a' as Byte, 0, 2, 'b' as Byte, 'c' as Byte], [0, 6])))
         == Block([0, 1, 'a' as Byte, 0, 2, 'b' as Byte, 'c' as Byte], [0, 6])
  {
    var b := Block([0, 1, 'a' as Byte, 0, 2, 'b' as Byte, 'c' as Byte], [0, 6]);
    assert OffsetTable(b.offsets) == [0, 0, 0, 6];
    DecodeEncoded(b);
  }
}
