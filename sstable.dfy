/**
 * The table builder of storage/sstable/builder.go (duplicated in storage/sstable/sstable.go):
 * it feeds key/value pairs to a block builder, seals each full block into `Data`
 * with a metadata entry `{offset, firstKey, lastKey}`, and `Build` assembles the
 * bytes written to the table's file.
 */
module SsTable {
  import opened Wrappers
  import opened Bytes
  import opened Block
  import opened BlockBuilder
  import Builders = BlockBuilder
  import BlockMeta

  /** The failures of the file steps of `Build`: `os.OpenFile`, `File.Write`, `File.Sync`. */
  datatype IoError = OpenFailed | WriteFailed | SyncFailed

  /** `SsTable`, with the open file standing for the bytes written to it. */
  datatype SsTable = SsTable(
    id: U32,
    file: seq<Byte>,
    blocksMeta: seq<BlockMeta.BlockMeta>,
    blocksMetaOffset: U32,
    firstKey: seq<Byte>,
    lastKey: seq<Byte>)

  /** The encodings of the blocks holding `blocks`, back to back, as `FinishBlock` appends them. */
  function EncodedRun(blocks: seq<seq<Entry>>): seq<Byte>
  {
    if blocks == [] then []
    else EncodedRun(blocks[..|blocks| - 1]) + Encoded(BlockOf(blocks[|blocks| - 1]))
  }

  /** The length of the records of `entries`: four length bytes, the key and the value each. */
  function RecordsSize(entries: seq<Entry>): nat
  {
    if entries == [] then 0 else 4 + |entries[0].key| + |entries[0].value| + RecordsSize(entries[1..])
  }

  /** The length of the run of `blocks`: each block's records, two bytes per offset, two for the count. */
  function RunLength(blocks: seq<seq<Entry>>): nat
  {
    if blocks == [] then 0
    else RunLength(blocks[..|blocks| - 1])
         + RecordsSize(blocks[|blocks| - 1]) + 2 * |blocks[|blocks| - 1]| + 2
  }

  /** Where each block of `blocks` starts in their run, in 16 bits. */
  function RunStarts(blocks: seq<seq<Entry>>): (r: seq<U16>)
    ensures |r| == |blocks|
  {
    if blocks == [] then []
    else RunStarts(blocks[..|blocks| - 1]) + [ToU16(RunLength(blocks[..|blocks| - 1]))]
  }

  /** The offsets of the metadata entries `ms`. */
  function OffsetsOf(ms: seq<BlockMeta.BlockMeta>): (r: seq<U16>)
    ensures |r| == |ms|
  {
    if ms == [] then [] else OffsetsOf(ms[..|ms| - 1]) + [ms[|ms| - 1].offset]
  }

  /** The first key added to a block, or none. */
  function FirstKeyOf(entries: seq<Entry>): seq<Byte>
  {
    if entries == [] then [] else entries[0].key
  }

  /** The last key added to a block, or none. */
  function LastKeyOf(entries: seq<Entry>): seq<Byte>
  {
    if entries == [] then [] else entries[|entries| - 1].key
  }

  /** Each block's metadata entry names its first and last key. */
  ghost predicate MetaKeysMatch(metas: seq<BlockMeta.BlockMeta>, blocks: seq<seq<Entry>>)
  {
    |metas| == |blocks|
    && (blocks != [] ==>
          && MetaKeysMatch(metas[..|metas| - 1], blocks[..|blocks| - 1])
          && metas[|metas| - 1].firstKey == FirstKeyOf(blocks[|blocks| - 1])
          && metas[|metas| - 1].lastKey == LastKeyOf(blocks[|blocks| - 1]))
  }

  /** The sealed blocks' metadata is exact, and `firstKey`/`lastKey` are those of the open block. */
  ghost predicate KeysMatch(firstKey: seq<Byte>, lastKey: seq<Byte>, metas: seq<BlockMeta.BlockMeta>,
                            blocks: seq<seq<Entry>>, open: seq<Entry>)
  {
    firstKey == FirstKeyOf(open) && lastKey == LastKeyOf(open) && MetaKeysMatch(metas, blocks)
  }

  /** The intended table file: the encoded blocks, then the encoded metadata, then the metadata's offset as four big-endian bytes. */
  function TableFile(data: seq<Byte>, metas: seq<BlockMeta.BlockMeta>): seq<Byte>
  {
    data + BlockMeta.Encoded(metas) + BE32(ToU32(|data|))
  }

  class SsTableBuilder {
    var BlocksMeta: seq<BlockMeta.BlockMeta>
    var FirstKey: seq<Byte>
    var LastKey: seq<Byte>
    /** The encoded blocks. */
    var Data: seq<Byte>
    /** The target size of each block. */
    const blockSize: U16
    var BlockBuilder: BlockBuilder
    /** The pairs of each sealed block, in order. */
    ghost var Blocks: seq<seq<Entry>>

    /**
     * `Data` is the run of sealed blocks, each with a metadata entry whose offset
     * is where the block starts in `Data`, in 16 bits; when the open block holds
     * pairs, its first key is not empty and `FirstKey` is set.
     */
    ghost predicate Valid()
      reads this, BlockBuilder
    {
      && BlockBuilder.Valid()
      && BlockBuilder.TargetSize == blockSize
      && Data == EncodedRun(Blocks)
      && |BlocksMeta| == |Blocks|
      && OffsetsOf(BlocksMeta) == RunStarts(Blocks)
      && (BlockBuilder.Entries != [] ==> |BlockBuilder.Entries[0].key| > 0)
      && (BlockBuilder.Entries != [] ==> |FirstKey| > 0)
    }

    /** Every sealed block's metadata names its first and last key. */
    ghost predicate MetaKeysExact()
      reads this
    {
      MetaKeysMatch(BlocksMeta, Blocks)
    }

    /**
     * `FirstKey` and `LastKey` are the first and last keys of the open block, and the
     * sealed blocks' metadata is exact. `Add` keeps this; a `FinishBlock` called on
     * its own breaks it, since it leaves `FirstKey` set for the next block.
     */
    ghost predicate KeysExact()
      reads this, BlockBuilder
    {
      KeysMatch(FirstKey, LastKey, BlocksMeta, Blocks, BlockBuilder.Entries)
    }

    /** `NewSsTableBuilder`. */
    constructor (blockSize: U16)
      ensures Valid() && KeysExact() && fresh(BlockBuilder)
      ensures this.blockSize == blockSize && BlockBuilder.Entries == []
      ensures BlocksMeta == [] && Blocks == [] && Data == [] && FirstKey == [] && LastKey == []
    {
      this.blockSize := blockSize;
      BlockBuilder := new Builders.BlockBuilder(blockSize);
      BlocksMeta := [];
      FirstKey := [];
      LastKey := [];
      Data := [];
      Blocks := [];
    }

    /** `EstimatedSize`: the length of the encoded blocks, in 16 bits. */
    function EstimatedSize(): U16
      reads this
    {
      ToU16(|Data|)
    }

    /**
     * `FinishBlock`: records the open block's metadata at the current end of `Data`,
     * appends its encoding, and starts an empty block. `FirstKey` and `LastKey` stay.
     */
    method FinishBlock()
      requires Valid()
      modifies this
      ensures Valid() && fresh(BlockBuilder) && BlockBuilder.Entries == [] && BlockBuilder.Data == []
      ensures Blocks == old(Blocks) + [old(BlockBuilder.Entries)]
      ensures BlocksMeta == old(BlocksMeta) + [BlockMeta.BlockMeta(old(EstimatedSize()), old(FirstKey), old(LastKey))]
      ensures Data == old(Data) + Encoded(BlockOf(old(BlockBuilder.Entries)))
      ensures FirstKey == old(FirstKey) && LastKey == old(LastKey)
      ensures old(KeysExact()) ==> MetaKeysExact()
    {
      ghost var sealed := BlockBuilder.Entries;
      SealKeepsRun(Data, BlocksMeta, Blocks, sealed, FirstKey, LastKey);
      SealKeepsMetaKeys(FirstKey, LastKey, BlocksMeta, Blocks, sealed, EstimatedSize());
      var currentBlock := BlockBuilder.Build();
      BlocksMeta := BlocksMeta + [BlockMeta.BlockMeta(ToU16(|Data|), FirstKey, LastKey)];
      var encoded := Encode(currentBlock);
      Data := Data + encoded;
      BlockBuilder := new Builders.BlockBuilder(blockSize);
      Blocks := Blocks + [sealed];
    }

    /**
     * `Add`: puts the pair in the open block when it fits and updates `LastKey`;
     * otherwise seals the open block and puts the pair in a fresh one, which always
     * accepts it. The "too big" panic cannot happen.
     */
    method Add(key: seq<Byte>, value: seq<Byte>)
      requires Valid() && |key| > 0
      modifies this, BlockBuilder
      ensures Valid()
      ensures old(KeysExact()) ==> KeysExact()
      ensures Fits(old(BlockBuilder.Data), old(BlockBuilder.Offsets), blockSize, key, value) ==>
                && BlockBuilder == old(BlockBuilder)
                && BlockBuilder.Entries == old(BlockBuilder.Entries) + [Entry(key, value)]
                && Blocks == old(Blocks) && BlocksMeta == old(BlocksMeta) && Data == old(Data)
                && FirstKey == (if old(FirstKey) == [] then key else old(FirstKey))
                && LastKey == key
      ensures !Fits(old(BlockBuilder.Data), old(BlockBuilder.Offsets), blockSize, key, value) ==>
                && fresh(BlockBuilder)
                && BlockBuilder.Entries == [Entry(key, value)]
                && Blocks == old(Blocks) + [old(BlockBuilder.Entries)]
                && BlocksMeta == old(BlocksMeta) + [BlockMeta.BlockMeta(old(EstimatedSize()), old(FirstKey), old(LastKey))]
                && Data == old(Data) + Encoded(BlockOf(old(BlockBuilder.Entries)))
                && FirstKey == key && LastKey == key
    {
      if |FirstKey| == 0 {
        FirstKey := key;
        LastKey := key;
      }
      ghost var open := BlockBuilder.Entries;
      var ok := BlockBuilder.Add(key, value);
      if ok {
        KeysAfterAccept(old(FirstKey), old(LastKey), BlocksMeta, Blocks, open, key, value);
        LastKey := key;
        return;
      }
      KeysAfterSeal(FirstKey, LastKey, BlocksMeta, Blocks, open, EstimatedSize(), key, value);
      FinishBlock();
      ok := BlockBuilder.Add(key, value);
      if !ok {
        assert false;
      }
      FirstKey := key;
      LastKey := key;
    }

    /**
     * `Build`: seals the open block, then assembles the file's bytes in a buffer
     * seeded from the block builder's data, which the fresh builder just left
     * empty: so the metadata offset is 0 and the bytes are the encoded metadata
     * followed by that offset, without `Data`. `fs` is how the file system
     * answers: `None` when opening, writing and syncing succeed, otherwise the
     * first failure. The table's `Id` is never set.
     */
    method Build(fs: Option<IoError>) returns (r: Result<SsTable, IoError>)
      requires Valid()
      modifies this
      ensures Valid() && fresh(BlockBuilder) && BlockBuilder.Entries == []
      ensures Blocks == old(Blocks) + [old(BlockBuilder.Entries)]
      ensures BlocksMeta == old(BlocksMeta) + [BlockMeta.BlockMeta(old(EstimatedSize()), old(FirstKey), old(LastKey))]
      ensures Data == old(Data) + Encoded(BlockOf(old(BlockBuilder.Entries)))
      ensures old(KeysExact()) ==> MetaKeysExact()
      ensures fs.Some? ==> r == Failure(fs.value)
      ensures fs.None? ==>
                r == Success(SsTable(0, BlockMeta.Encoded(BlocksMeta) + BE32(0), BlocksMeta, 0,
                                     BlocksMeta[0].firstKey, BlocksMeta[|BlocksMeta| - 1].lastKey))
    {
      FinishBlock();
      var buf := BlockBuilder.Data;
      var metaOffset := |buf|;
      var encodedMeta := BlockMeta.EncodeBlocksMeta(BlocksMeta);
      buf := buf + encodedMeta;
      assert buf == encodedMeta;
      buf := buf + BE32(ToU32(metaOffset));
      if fs.Some? {
        return Failure(fs.value);
      }
      if |BlocksMeta| == 0 {
        assert false;
      }
      var firstKey := BlocksMeta[0].firstKey;
      var lastKey := BlocksMeta[|BlocksMeta| - 1].lastKey;
      r := Success(SsTable(0, buf, BlocksMeta, ToU32(metaOffset), firstKey, lastKey));
    }

    /**
     * `Build` as its layout is evidently meant: the same steps with the buffer seeded
     * from `Data`, so the file holds the encoded blocks, then the encoded metadata,
     * then the metadata's offset, which is the length of `Data`.
     */
    method BuildWithBlocks(fs: Option<IoError>) returns (r: Result<SsTable, IoError>)
      requires Valid()
      modifies this
      ensures Valid() && fresh(BlockBuilder) && BlockBuilder.Entries == []
      ensures Blocks == old(Blocks) + [old(BlockBuilder.Entries)]
      ensures BlocksMeta == old(BlocksMeta) + [BlockMeta.BlockMeta(old(EstimatedSize()), old(FirstKey), old(LastKey))]
      ensures Data == old(Data) + Encoded(BlockOf(old(BlockBuilder.Entries)))
      ensures old(KeysExact()) ==> MetaKeysExact()
      ensures fs.Some? ==> r == Failure(fs.value)
      ensures fs.None? ==>
                r == Success(SsTable(0, TableFile(Data, BlocksMeta), BlocksMeta, ToU32(|Data|),
                                     BlocksMeta[0].firstKey, BlocksMeta[|BlocksMeta| - 1].lastKey))
    {
      FinishBlock();
      var buf := Data;
      var metaOffset := |buf|;
      var encodedMeta := BlockMeta.EncodeBlocksMeta(BlocksMeta);
      buf := buf + encodedMeta;
      buf := buf + BE32(ToU32(metaOffset));
      if fs.Some? {
        return Failure(fs.value);
      }
      if |BlocksMeta| == 0 {
        assert false;
      }
      var firstKey := BlocksMeta[0].firstKey;
      var lastKey := BlocksMeta[|BlocksMeta| - 1].lastKey;
      r := Success(SsTable(0, buf, BlocksMeta, ToU32(metaOffset), firstKey, lastKey));
    }
  }

  /** A pair accepted into the open block becomes its last key, and its first key when it was empty. */
  lemma KeysAfterAccept(firstKey: seq<Byte>, lastKey: seq<Byte>, metas: seq<BlockMeta.BlockMeta>,
                        blocks: seq<seq<Entry>>, open: seq<Entry>, key: seq<Byte>, value: seq<Byte>)
    requires open != [] ==> |open[0].key| > 0
    ensures KeysMatch(firstKey, lastKey, metas, blocks, open) ==>
              KeysMatch(if firstKey == [] then key else firstKey, key, metas, blocks, open + [Entry(key, value)])
  {
    if open != [] {
      assert (open + [Entry(key, value)])[0] == open[0];
    }
  }

  /** Sealing the open block with the current keys as its metadata keeps every block's keys exact. */
  lemma SealKeepsMetaKeys(firstKey: seq<Byte>, lastKey: seq<Byte>, metas: seq<BlockMeta.BlockMeta>,
                          blocks: seq<seq<Entry>>, open: seq<Entry>, offset: U16)
    ensures KeysMatch(firstKey, lastKey, metas, blocks, open) ==>
              MetaKeysMatch(metas + [BlockMeta.BlockMeta(offset, firstKey, lastKey)], blocks + [open])
  {
    assert (metas + [BlockMeta.BlockMeta(offset, firstKey, lastKey)])[..|metas|] == metas;
    assert (blocks + [open])[..|blocks|] == blocks;
  }

  /** After a seal, a pair put alone in the fresh block is its first and last key. */
  lemma KeysAfterSeal(firstKey: seq<Byte>, lastKey: seq<Byte>, metas: seq<BlockMeta.BlockMeta>,
                      blocks: seq<seq<Entry>>, open: seq<Entry>, offset: U16, key: seq<Byte>, value: seq<Byte>)
    ensures KeysMatch(firstKey, lastKey, metas, blocks, open) ==>
              KeysMatch(key, key, metas + [BlockMeta.BlockMeta(offset, firstKey, lastKey)], blocks + [open],
                        [Entry(key, value)])
  {
    SealKeepsMetaKeys(firstKey, lastKey, metas, blocks, open, offset);
  }

  /** Read pointwise: metadata entry `i` names the first and last key of block `i`. */
  lemma {:induction false} MetaKeysAt(metas: seq<BlockMeta.BlockMeta>, blocks: seq<seq<Entry>>, i: nat)
    requires MetaKeysMatch(metas, blocks) && i < |blocks|
    ensures metas[i].firstKey == FirstKeyOf(blocks[i]) && metas[i].lastKey == LastKeyOf(blocks[i])
    decreases |blocks|
  {
    if i < |blocks| - 1 {
      MetaKeysAt(metas[..|metas| - 1], blocks[..|blocks| - 1], i);
    }
  }

  /**
   * Sealing one more block at the end of the run: its encoding extends `data`, and
   * its metadata entry, placed at the current length, extends the offsets.
   */
  lemma SealKeepsRun(data: seq<Byte>, metas: seq<BlockMeta.BlockMeta>, blocks: seq<seq<Entry>>, open: seq<Entry>,
                     firstKey: seq<Byte>, lastKey: seq<Byte>)
    requires data == EncodedRun(blocks) && |metas| == |blocks| && OffsetsOf(metas) == RunStarts(blocks)
    ensures data + Encoded(BlockOf(open)) == EncodedRun(blocks + [open])
    ensures |metas + [BlockMeta.BlockMeta(ToU16(|data|), firstKey, lastKey)]| == |blocks + [open]|
    ensures OffsetsOf(metas + [BlockMeta.BlockMeta(ToU16(|data|), firstKey, lastKey)]) == RunStarts(blocks + [open])
  {
    assert (blocks + [open])[..|blocks|] == blocks;
    RunLengthIsLength(blocks);
    var meta := BlockMeta.BlockMeta(ToU16(|data|), firstKey, lastKey);
    assert (metas + [meta])[..|metas|] == metas;
  }

  lemma {:induction false} RecordsSizeIsLength(entries: seq<Entry>)
    ensures RecordsSize(entries) == |Records(entries)|
  {
    if entries != [] {
      RecordsSizeIsLength(entries[1..]);
    }
  }

  lemma {:induction false} RunLengthIsLength(blocks: seq<seq<Entry>>)
    ensures RunLength(blocks) == |EncodedRun(blocks)|
    decreases |blocks|
  {
    if blocks != [] {
      var last := blocks[|blocks| - 1];
      RunLengthIsLength(blocks[..|blocks| - 1]);
      RecordsSizeIsLength(last);
      EncodedLayout(BlockOf(last));
    }
  }

  lemma {:induction false} RunStartsAt(blocks: seq<seq<Entry>>, i: nat)
    requires i < |blocks|
    ensures RunStarts(blocks)[i] == ToU16(|EncodedRun(blocks[..i])|)
    decreases |blocks|
  {
    var init := blocks[..|blocks| - 1];
    if i < |init| {
      RunStartsAt(init, i);
      assert init[..i] == blocks[..i];
    } else {
      RunLengthIsLength(init);
    }
  }

  lemma {:induction false} OffsetsOfAt(ms: seq<BlockMeta.BlockMeta>, i: nat)
    requires i < |ms|
    ensures OffsetsOf(ms)[i] == ms[i].offset
    decreases |ms|
  {
    if i < |ms| - 1 {
      OffsetsOfAt(ms[..|ms| - 1], i);
    }
  }

  /** The run of the first `j` blocks is a prefix of the run of all of them. */
  lemma {:induction false} EncodedRunPrefix(blocks: seq<seq<Entry>>, j: nat)
    requires j <= |blocks|
    ensures |EncodedRun(blocks[..j])| <= |EncodedRun(blocks)|
    ensures EncodedRun(blocks)[..|EncodedRun(blocks[..j])|] == EncodedRun(blocks[..j])
    decreases |blocks|
  {
    if j < |blocks| {
      var init := blocks[..|blocks| - 1];
      EncodedRunPrefix(init, j);
      assert init[..j] == blocks[..j];
    } else {
      assert blocks[..j] == blocks;
    }
  }

  /** Block `i` is encoded right after the blocks before it. */
  lemma BlockInRun(blocks: seq<seq<Entry>>, i: nat)
    requires i < |blocks|
    ensures var start := |EncodedRun(blocks[..i])|;
            var enc := Encoded(BlockOf(blocks[i]));
            start + |enc| <= |EncodedRun(blocks)| && EncodedRun(blocks)[start..start + |enc|] == enc
  {
    var prefix := blocks[..i + 1];
    assert prefix[..|prefix| - 1] == blocks[..i];
    EncodedRunPrefix(blocks, i + 1);
  }

  /**
   * While the encoded blocks stay below 65536 bytes, each metadata offset is
   * where its block starts in `Data`.
   */
  lemma MetaLocatesBlocks(s: SsTableBuilder, i: nat)
    requires s.Valid() && |s.Data| < 0x1_0000 && i < |s.BlocksMeta|
    ensures s.BlocksMeta[i].offset + |Encoded(BlockOf(s.Blocks[i]))| <= |s.Data|
    ensures s.Data[s.BlocksMeta[i].offset..][..|Encoded(BlockOf(s.Blocks[i]))|] == Encoded(BlockOf(s.Blocks[i]))
  {
    var start := |EncodedRun(s.Blocks[..i])|;
    var enc := Encoded(BlockOf(s.Blocks[i]));
    BlockInRun(s.Blocks, i);
    RunStartsAt(s.Blocks, i);
    OffsetsOfAt(s.BlocksMeta, i);
    assert s.BlocksMeta[i].offset == ToU16(start);
    SmallToU16(start);
    assert s.Data[start..][..|enc|] == s.Data[start..start + |enc|];
  }

  /**
   * Reading a block back from `Data` at its metadata offset gives the block the
   * builder made of that block's pairs, while the encoded blocks stay below 65536 bytes.
   */
  lemma MetaBlockDecodes(s: SsTableBuilder, i: nat)
    requires s.Valid() && |s.Data| < 0x1_0000 && i < |s.BlocksMeta|
    ensures s.BlocksMeta[i].offset + |Encoded(BlockOf(s.Blocks[i]))| <= |s.Data|
    ensures var bytes := s.Data[s.BlocksMeta[i].offset..][..|Encoded(BlockOf(s.Blocks[i]))|];
            Decodable(bytes) && Decoded(bytes) == BlockOf(s.Blocks[i])
  {
    MetaLocatesBlocks(s, i);
    var b := BlockOf(s.Blocks[i]);
    EncodedLayout(b);
    DecodeEncoded(b);
  }

  /**
   * The bytes `Build` writes decode back to the table's metadata, while every key
   * is shorter than 65536 bytes and there are fewer than 2^32 blocks.
   */
  lemma BuiltMetaDecodes(t: SsTable)
    requires t.file == BlockMeta.Encoded(t.blocksMeta) + BE32(0)
    requires |t.blocksMeta| < 0x1_0000_0000
    requires forall i :: 0 <= i < |t.blocksMeta| ==>
               |t.blocksMeta[i].firstKey| < 0x1_0000 && |t.blocksMeta[i].lastKey| < 0x1_0000
    ensures BlockMeta.Decoded(t.file) == Success(t.blocksMeta)
  {
    BlockMeta.DecodeEncoded(t.blocksMeta, BE32(0));
  }

  /**
   * The file `Build` writes leaves the blocks out: once a block is sealed the
   * encoded blocks are never empty, yet the file is only the metadata and a zero
   * offset, not the blocks, metadata and offset of `TableFile`.
   */
  lemma BuildOmitsBlocks(data: seq<Byte>, open: seq<Entry>, metas: seq<BlockMeta.BlockMeta>)
    ensures var sealed := data + Encoded(BlockOf(open));
            |sealed| >= 2 && BlockMeta.Encoded(metas) + BE32(0) != TableFile(sealed, metas)
  {
  }

  /**
   * The layout of `TableFile` reads back: the last four bytes give where the metadata
   * starts, the metadata decodes from there, and the blocks come first.
   */
  lemma TableFileReadsBack(data: seq<Byte>, metas: seq<BlockMeta.BlockMeta>)
    requires |data| < 0x1_0000_0000 && |metas| < 0x1_0000_0000
    requires forall i :: 0 <= i < |metas| ==> |metas[i].firstKey| < 0x1_0000 && |metas[i].lastKey| < 0x1_0000
    ensures var file := TableFile(data, metas);
            |file| >= |data| + 4
            && ReadBE32(file[|file| - 4..]) == |data|
            && BlockMeta.Decoded(file[|data|..]) == Success(metas)
            && file[..|data|] == data
  {
    var enc := BlockMeta.Encoded(metas);
    var offset := ToU32(|data|);
    assert offset == |data|;
    var footer := BE32(offset);
    var file := TableFile(data, metas);
    assert file == (data + enc) + footer;
    FooterReadsBack(data + enc, offset);
    assert file[|data|..] == enc + footer;
    BlockMeta.DecodeEncoded(metas, footer);
  }

  /** The offset appended after `prefix` is read back from the last four bytes. */
  lemma FooterReadsBack(prefix: seq<Byte>, offset: U32)
    ensures var file := prefix + BE32(offset);
            |file| >= 4 && ReadBE32(file[|file| - 4..]) == offset
  {
    var file := prefix + BE32(offset);
    assert file[|file| - 4..] == BE32(offset) + [];
    BE32Inverse(offset, []);
  }

  /**
   * In the layout of `TableFile`, every block reads back from the file at its metadata
   * offset, while the encoded blocks stay below 65536 bytes.
   */
  lemma TableFileHoldsBlocks(s: SsTableBuilder, i: nat)
    requires s.Valid() && |s.Data| < 0x1_0000 && i < |s.BlocksMeta|
    ensures var file := TableFile(s.Data, s.BlocksMeta);
            var len := |Encoded(BlockOf(s.Blocks[i]))|;
            s.BlocksMeta[i].offset + len <= |file|
            && Decodable(file[s.BlocksMeta[i].offset..][..len])
            && Decoded(file[s.BlocksMeta[i].offset..][..len]) == BlockOf(s.Blocks[i])
  {
    MetaBlockDecodes(s, i);
    var file := TableFile(s.Data, s.BlocksMeta);
    var off := s.BlocksMeta[i].offset as int;
    var len := |Encoded(BlockOf(s.Blocks[i]))|;
    assert file[off..][..len] == s.Data[off..][..len];
  }
}
