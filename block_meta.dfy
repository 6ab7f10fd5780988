/**
 * The block-metadata codec of storage/sstable/block_meta.go. The encoding is
 *   count (u32) ‖ { offset (u32) ‖ firstLen (u16) ‖ firstKey ‖ lastLen (u16) ‖ lastKey }*
 * all big-endian, and decoding consumes it through a `bytes.Buffer` cursor.
 */
module BlockMeta {
  import opened Wrappers
  import opened Bytes

  /** Where a block starts in the table's data, and its first and last keys. */
  datatype BlockMeta = BlockMeta(offset: U16, firstKey: seq<Byte>, lastKey: seq<Byte>)

  /** The read that stopped `Decode`, one per error it wraps. */
  datatype MetaError =
    | ShortBlockCount
    | ShortOffset
    | ShortFirstKeyLen
    | ShortFirstKey
    | ShortLastKeyLen
    | ShortLastKey

  /** One entry as `EncodeBlocksMeta` writes it: the offset widened to 32 bits, the key lengths truncated to 16. */
  function EncodedEntry(m: BlockMeta): (r: seq<Byte>)
    ensures |r| == 8 + |m.firstKey| + |m.lastKey|
  {
    BE32(m.offset) + BE16(ToU16(|m.firstKey|)) + m.firstKey + BE16(ToU16(|m.lastKey|)) + m.lastKey
  }

  /** The entries of `ms`, back to back. */
  function EncodedEntries(ms: seq<BlockMeta>): seq<Byte>
  {
    if ms == [] then [] else EncodedEntry(ms[0]) + EncodedEntries(ms[1..])
  }

  /** What `EncodeBlocksMeta` returns: the count truncated to 32 bits, then the entries. */
  function Encoded(ms: seq<BlockMeta>): seq<Byte>
  {
    BE32(ToU32(|ms|)) + EncodedEntries(ms)
  }

  /** The number of bytes the entries of `ms` take: eight bytes of header plus both keys, per entry. */
  function EntriesSize(ms: seq<BlockMeta>): nat
  {
    if ms == [] then 0 else 8 + |ms[0].firstKey| + |ms[0].lastKey| + EntriesSize(ms[1..])
  }

  /** `n` zero bytes: a fresh `make([]byte, n)`. */
  function Zeros(n: nat): (r: seq<Byte>)
    ensures |r| == n && forall i :: 0 <= i < n ==> r[i] == 0
  {
    seq(n, _ => 0)
  }

  /**
   * `bytes.Buffer.Read` into a fresh `n`-byte slice, over the unread bytes `unread`:
   * the slice read and the bytes left, or `None` for `io.EOF`.
   */
  function BufferRead(unread: seq<Byte>, n: nat): (r: Option<(seq<Byte>, seq<Byte>)>)
    ensures r.None? <==> unread == [] && n > 0
    ensures r.Some? ==>
              var m := if n <= |unread| then n else |unread|;
              r.value.0 == unread[..m] + Zeros(n - m) && r.value.1 == unread[m..]
  {
    if n == 0 then Some(([], unread))
    else if unread == [] then None
    else if n <= |unread| then Some((unread[..n], unread[n..]))
    else Some((unread + Zeros(n - |unread|), []))
  }

  /** One loop iteration of `Decode`: the entry read from the front of `unread`, and what is left. */
  function ReadEntry(unread: seq<Byte>): Result<(BlockMeta, seq<Byte>), MetaError>
  {
    if |unread| < 4 then Failure(ShortOffset)
    else ReadFirstKey(ReadBE32(unread), unread[4..])
  }

  function ReadFirstKey(offset: U32, unread: seq<Byte>): Result<(BlockMeta, seq<Byte>), MetaError>
  {
    if |unread| < 2 then Failure(ShortFirstKeyLen)
    else match BufferRead(unread[2..], ReadBE16(unread))
      case None => Failure(ShortFirstKey)
      case Some((firstKey, rest)) => ReadLastKey(offset, firstKey, rest)
  }

  function ReadLastKey(offset: U32, firstKey: seq<Byte>, unread: seq<Byte>): Result<(BlockMeta, seq<Byte>), MetaError>
  {
    if |unread| < 2 then Failure(ShortLastKeyLen)
    else match BufferRead(unread[2..], ReadBE16(unread))
      case None => Failure(ShortLastKey)
      case Some((lastKey, rest)) => Success((BlockMeta(ToU16(offset), firstKey, lastKey), rest))
  }

  /** `n` loop iterations of `Decode` from `unread`: the entries, or the first error. */
  function ReadEntries(unread: seq<Byte>, n: nat): Result<seq<BlockMeta>, MetaError>
    decreases n
  {
    if n == 0 then Success([])
    else match ReadEntry(unread)
      case Failure(e) => Failure(e)
      case Success((m, rest)) => Prepend([m], ReadEntries(rest, n - 1))
  }

  /** The entries `acc` already read, in front of a result still to come. */
  function Prepend(acc: seq<BlockMeta>, r: Result<seq<BlockMeta>, MetaError>): Result<seq<BlockMeta>, MetaError>
  {
    match r
    case Success(ms) => Success(acc + ms)
    case Failure(e) => Failure(e)
  }

  /** What `Decode` returns: the count from the first four bytes, then that many entries. */
  function Decoded(encoded: seq<Byte>): Result<seq<BlockMeta>, MetaError>
  {
    if |encoded| < 4 then Failure(ShortBlockCount) else ReadEntries(encoded[4..], ReadBE32(encoded))
  }

  /** `EncodeBlocksMeta`: writes the count, then each entry field by field. Its error is always nil. */
  method EncodeBlocksMeta(blocksMeta: seq<BlockMeta>) returns (encoded: seq<Byte>)
    ensures encoded == Encoded(blocksMeta)
  {
    var buf := BE32(ToU32(|blocksMeta|));
    for i := 0 to |blocksMeta|
      invariant buf == BE32(ToU32(|blocksMeta|)) + EncodedEntries(blocksMeta[..i])
    {
      var m := blocksMeta[i];
      ghost var written := buf;
      buf := buf + BE32(m.offset);
      buf := buf + BE16(ToU16(|m.firstKey|));
      buf := buf + m.firstKey;
      buf := buf + BE16(ToU16(|m.lastKey|));
      buf := buf + m.lastKey;
      AppendFields(written, BE32(m.offset), BE16(ToU16(|m.firstKey|)), m.firstKey, BE16(ToU16(|m.lastKey|)), m.lastKey);
      EncodedEntriesAppend(blocksMeta[..i], m);
      AppendAssoc(BE32(ToU32(|blocksMeta|)), EncodedEntries(blocksMeta[..i]), EncodedEntry(m));
      assert blocksMeta[..i + 1] == blocksMeta[..i] + [m];
    }
    assert blocksMeta[..|blocksMeta|] == blocksMeta;
    encoded := buf;
  }

  /** `(*BlockMeta).Decode`: reads the count, then that many entries, each field through the buffer. */
  method Decode(encodedBlocksMeta: seq<Byte>) returns (r: Result<seq<BlockMeta>, MetaError>)
    ensures r == Decoded(encodedBlocksMeta)
  {
    var unread := encodedBlocksMeta;
    if |unread| < 4 {
      return Failure(ShortBlockCount);
    }
    var numBlocks := ReadBE32(unread);
    unread := unread[4..];
    var blocksMeta: seq<BlockMeta> := [];
    ghost var expected := ReadEntries(unread, numBlocks);
    if expected.Success? {
      assert [] + expected.value == expected.value;
    }
    for i := 0 to numBlocks
      invariant expected == Prepend(blocksMeta, ReadEntries(unread, numBlocks - i))
    {
      ghost var before := unread;
      if |unread| < 4 {
        ReadEntriesFail(blocksMeta, before, numBlocks - i, ShortOffset);
        return Failure(ShortOffset);
      }
      var offset := ReadBE32(unread);
      unread := unread[4..];
      assert ReadEntry(before) == ReadFirstKey(offset, unread);
      ghost var afterOffset := unread;
      if |unread| < 2 {
        ReadEntriesFail(blocksMeta, before, numBlocks - i, ShortFirstKeyLen);
        return Failure(ShortFirstKeyLen);
      }
      var firstKeyLen := ReadBE16(unread);
      unread := unread[2..];
      var firstRead := BufferRead(unread, firstKeyLen);
      if firstRead.None? {
        assert ReadFirstKey(offset, afterOffset) == Failure(ShortFirstKey);
        ReadEntriesFail(blocksMeta, before, numBlocks - i, ShortFirstKey);
        return Failure(ShortFirstKey);
      }
      var firstKey := firstRead.value.0;
      unread := firstRead.value.1;
      assert ReadFirstKey(offset, afterOffset) == ReadLastKey(offset, firstKey, unread);
      ghost var afterFirstKey := unread;
      if |unread| < 2 {
        ReadEntriesFail(blocksMeta, before, numBlocks - i, ShortLastKeyLen);
        return Failure(ShortLastKeyLen);
      }
      var lastKeyLen := ReadBE16(unread);
      unread := unread[2..];
      var lastRead := BufferRead(unread, lastKeyLen);
      if lastRead.None? {
        assert ReadLastKey(offset, firstKey, afterFirstKey) == Failure(ShortLastKey);
        ReadEntriesFail(blocksMeta, before, numBlocks - i, ShortLastKey);
        return Failure(ShortLastKey);
      }
      var lastKey := lastRead.value.0;
      unread := lastRead.value.1;
      var m := BlockMeta(ToU16(offset), firstKey, lastKey);
      assert ReadLastKey(offset, firstKey, afterFirstKey) == Success((m, unread));
      ReadEntriesStep(blocksMeta, before, numBlocks - i, m, unread);
      blocksMeta := blocksMeta + [m];
    }
    assert ReadEntries(unread, 0) == Success([]);
    assert blocksMeta + [] == blocksMeta;
    return Success(blocksMeta);
  }

  /** An entry that fails to read ends the whole decoding with its error. */
  lemma ReadEntriesFail(acc: seq<BlockMeta>, unread: seq<Byte>, n: nat, e: MetaError)
    requires n > 0 && ReadEntry(unread) == Failure(e)
    ensures Prepend(acc, ReadEntries(unread, n)) == Failure(e)
  {
  }

  /** An entry that reads moves from what is left to what was read. */
  lemma ReadEntriesStep(acc: seq<BlockMeta>, unread: seq<Byte>, n: nat, m: BlockMeta, rest: seq<Byte>)
    requires n > 0 && ReadEntry(unread) == Success((m, rest))
    ensures Prepend(acc, ReadEntries(unread, n)) == Prepend(acc + [m], ReadEntries(rest, n - 1))
  {
    PrependAssoc(acc, m, ReadEntries(rest, n - 1));
  }

  /** Writing five fields one after another appends their concatenation. */
  lemma AppendFields(w: seq<Byte>, a: seq<Byte>, b: seq<Byte>, c: seq<Byte>, d: seq<Byte>, e: seq<Byte>)
    ensures w + a + b + c + d + e == w + (a + b + c + d + e)
  {
  }

  lemma AppendAssoc(a: seq<Byte>, b: seq<Byte>, c: seq<Byte>)
    ensures a + b + c == a + (b + c)
  {
  }

  lemma PrependAssoc(acc: seq<BlockMeta>, m: BlockMeta, r: Result<seq<BlockMeta>, MetaError>)
    ensures Prepend(acc, Prepend([m], r)) == Prepend(acc + [m], r)
  {
    if r.Success? {
      assert acc + ([m] + r.value) == acc + [m] + r.value;
    }
  }

  lemma {:induction false} EncodedEntriesAppend(ms: seq<BlockMeta>, m: BlockMeta)
    ensures EncodedEntries(ms + [m]) == EncodedEntries(ms) + EncodedEntry(m)
  {
    if ms == [] {
      assert [m][1..] == [];
    } else {
      assert (ms + [m])[1..] == ms[1..] + [m];
      EncodedEntriesAppend(ms[1..], m);
    }
  }

  /** The encoding takes four bytes of count plus eight bytes and both keys per entry. */
  lemma {:induction false} EncodedLength(ms: seq<BlockMeta>)
    ensures |Encoded(ms)| == 4 + EntriesSize(ms)
  {
    EncodedEntriesLength(ms);
  }

  lemma {:induction false} EncodedEntriesLength(ms: seq<BlockMeta>)
    ensures |EncodedEntries(ms)| == EntriesSize(ms)
  {
    if ms != [] {
      EncodedEntriesLength(ms[1..]);
    }
  }

  /** A key shorter than 65536 bytes is read back whole, whatever follows it. */
  lemma KeyReadBack(key: seq<Byte>, rest: seq<Byte>)
    requires |key| < 0x1_0000
    ensures ReadBE16(BE16(ToU16(|key|)) + (key + rest)) == |key|
    ensures BufferRead((BE16(ToU16(|key|)) + (key + rest))[2..], |key|) == Some((key, rest))
  {
    BE16Inverse(ToU16(|key|), key + rest);
    var s := BE16(ToU16(|key|)) + (key + rest);
    assert s[2..] == key + rest;
    assert (key + rest)[..|key|] == key && (key + rest)[|key|..] == rest;
    assert Zeros(0) == [];
  }

  /** An encoded entry, followed by anything, reads back as itself and leaves what follows. */
  lemma ReadEntryEncoded(m: BlockMeta, rest: seq<Byte>)
    requires |m.firstKey| < 0x1_0000 && |m.lastKey| < 0x1_0000
    ensures ReadEntry(EncodedEntry(m) + rest) == Success((m, rest))
  {
    var afterLast := BE16(ToU16(|m.lastKey|)) + (m.lastKey + rest);
    var afterOffset := BE16(ToU16(|m.firstKey|)) + (m.firstKey + afterLast);
    assert EncodedEntry(m) + rest == BE32(m.offset) + afterOffset;
    BE32Inverse(m.offset, afterOffset);
    assert (BE32(m.offset) + afterOffset)[4..] == afterOffset;
    KeyReadBack(m.firstKey, afterLast);
    KeyReadBack(m.lastKey, rest);
  }

  lemma {:induction false} ReadEntriesEncoded(ms: seq<BlockMeta>, extra: seq<Byte>)
    requires forall i :: 0 <= i < |ms| ==> |ms[i].firstKey| < 0x1_0000 && |ms[i].lastKey| < 0x1_0000
    ensures ReadEntries(EncodedEntries(ms) + extra, |ms|) == Success(ms)
  {
    if ms != [] {
      var tail := EncodedEntries(ms[1..]) + extra;
      AppendAssoc(EncodedEntry(ms[0]), EncodedEntries(ms[1..]), extra);
      ReadEntryEncoded(ms[0], tail);
      ReadEntriesEncoded(ms[1..], extra);
      assert [ms[0]] + ms[1..] == ms;
    }
  }

  /**
   * Decoding an encoding gives the entries back, while every key is shorter than
   * 65536 bytes and there are fewer than 2^32 entries; bytes after the last entry
   * are ignored.
   */
  lemma DecodeEncoded(ms: seq<BlockMeta>, extra: seq<Byte>)
    requires |ms| < 0x1_0000_0000
    requires forall i :: 0 <= i < |ms| ==> |ms[i].firstKey| < 0x1_0000 && |ms[i].lastKey| < 0x1_0000
    ensures Decoded(Encoded(ms) + extra) == Success(ms)
  {
    var count := ToU32(|ms|);
    assert count == |ms|;
    assert Encoded(ms) + extra == BE32(count) + (EncodedEntries(ms) + extra);
    DecodedCount(count, EncodedEntries(ms) + extra);
    ReadEntriesEncoded(ms, extra);
  }

  /** `Decode` reads the count from the first four bytes and the entries from the rest. */
  lemma DecodedCount(n: U32, rest: seq<Byte>)
    ensures Decoded(BE32(n) + rest) == ReadEntries(rest, n)
  {
    BE32Inverse(n, rest);
    assert (BE32(n) + rest)[4..] == rest;
  }

  /**
   * A key of 65536 bytes does not survive: its length is written as 0, so it
   * decodes as the empty key and the following bytes are misread.
   */
  lemma LongKeyDoesNotRoundTrip(key: seq<Byte>)
    requires |key| == 0x1_0000
    ensures Decoded(Encoded([BlockMeta(0, key, [])])) != Success([BlockMeta(0, key, [])])
  {
    var m := BlockMeta(0, key, []);
    var e := Encoded([m]);
    assert EncodedEntries([m]) == EncodedEntry(m) + EncodedEntries([]);
    var afterOffset := BE16(0) + (key + BE16(0));
    assert e == BE32(1) + (BE32(0) + afterOffset);
    BE32Inverse(1, BE32(0) + afterOffset);
    assert e[4..] == BE32(0) + afterOffset;
    match Decoded(e)
    case Success(ds) =>
      assert ReadEntry(e[4..]).Success?;
      assert |ds| == 1 && ds[0] == ReadEntry(e[4..]).value.0;
      BE32Inverse(0, afterOffset);
      assert (BE32(0) + afterOffset)[4..] == afterOffset;
      BE16Inverse(0, key + BE16(0));
      assert ds[0].firstKey == [];
    case Failure(_) =>
  }

  /**
   * A last key whose declared length runs past the end of the input, with at least
   * one byte left, is read short and padded with zeros to its declared length; the
   * 32-bit offset is narrowed to 16 bits.
   */
  lemma ShortLastKeyIsZeroPadded(offset: U32, firstKey: seq<Byte>, lastKey: seq<Byte>, n: U16)
    requires |firstKey| < 0x1_0000 && 0 < |lastKey| < n as int
    ensures ReadEntry(BE32(offset) + BE16(ToU16(|firstKey|)) + firstKey + BE16(n) + lastKey)
            == Success((BlockMeta(ToU16(offset), firstKey, lastKey + Zeros(n as int - |lastKey|)), []))
  {
    var afterFirst := BE16(n) + lastKey;
    var afterOffset := BE16(ToU16(|firstKey|)) + (firstKey + afterFirst);
    assert BE32(offset) + BE16(ToU16(|firstKey|)) + firstKey + BE16(n) + lastKey == BE32(offset) + afterOffset;
    BE32Inverse(offset, afterOffset);
    assert (BE32(offset) + afterOffset)[4..] == afterOffset;
    KeyReadBack(firstKey, afterFirst);
    BE16Inverse(n, lastKey);
    assert afterFirst[2..] == lastKey;
  }

  /**
   * A key whose declared length runs past the end of the input is read short and
   * padded with zeros: an entry with an empty first key that declares a 3-byte
   * last key but holds one byte `7` decodes with last key `7, 0, 0`, and its
   * 32-bit offset 0x10001 narrowed to 1. (A short first key always fails, since
   * the last key's length is then missing.)
   */
  lemma ShortKeyIsZeroPadded()
    ensures Decoded([0, 0, 0, 1, 0, 1, 0, 1, 0, 0, 0, 3, 7]) == Success([BlockMeta(1, [], [7, 0, 0])])
  {
    var e: seq<Byte> := [0, 0, 0, 1, 0, 1, 0, 1, 0, 0, 0, 3, 7];
    assert ReadBE32(e) == 1;
    assert e[4..][4..] == [0, 0, 0, 3, 7];
    assert ReadEntry(e[4..]) == ReadFirstKey(0x1_0001, [0, 0, 0, 3, 7]);
    assert BufferRead([0, 3, 7], 0) == Some(([], [0, 3, 7]));
    assert [7] + Zeros(2) == [7, 0, 0];
    assert BufferRead([7], 3) == Some(([7, 0, 0], []));
    assert ReadLastKey(0x1_0001, [], [0, 3, 7]) == Success((BlockMeta(1, [], [7, 0, 0]), []));
    assert [0, 0, 0, 3, 7][2..] == [0, 3, 7] && [0, 3, 7][2..] == [7];
    assert ReadEntries([], 0) == Success([]);
    assert [BlockMeta(1, [], [7, 0, 0])] + [] == [BlockMeta(1, [], [7, 0, 0])];
  }
}
