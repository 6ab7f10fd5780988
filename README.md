# minidb write path, modelled in Dafny

This project models the in-memory write path of minidb, a log-structured-merge (LSM)
key-value store written in Go, and proves properties of the model. It covers:

- **Block codec** (`Block`, `block.dfy`). A block is a page of records plus the start
  offset of each record. Its encoding is `data ‖ offsets (2 bytes each, big-endian) ‖
  count (2 bytes)`.
- **Block builder** (`BlockBuilder`, `block_builder.dfy`). Packs `keyLen ‖ key ‖ valueLen ‖
  value` records into a block under a target size. All size arithmetic is `uint16` and
  wraps.
- **Block iterator** (`BlockIterator`, `block_iterator.dfy`). A cursor over one block's
  records, with the last decoded key and value and an error slot.
- **Block metadata codec** (`BlockMeta`, `block_meta.dfy`). Each block's `{offset,
  firstKey, lastKey}` entry, written as `count (u32) ‖ {offset (u32) ‖ len ‖ firstKey ‖
  len ‖ lastKey}*`, and read back through a `bytes.Buffer`.
- **Table builder** (`SsTable`, `sstable.dfy`). Feeds pairs to a block builder, seals
  each full block into the table's data with a metadata entry, and assembles the table
  file.
- **Memtable** (`MemTable`, `mem_table.dfy`). One generation's table of records keyed by
  key, with last-write-wins replacement and a 32-bit byte counter.
- **LSM storage state** (`LsmStorage`, `lsm_storage.dfy`). One current memtable plus
  the immutable, frozen ones. Writes go to the current table. Once its counter reaches
  64 MiB it is frozen. Reads look at the current table, then the frozen ones newest
  first.
- **Key index** (`Index`, `index.dfy`). A map from string keys to `int64`.

Shared definitions:

- `Bytes` (`bytes.dfy`) holds the fixed-width integer types, Go's truncating `uint16(…)`
  and `uint32(…)` conversions, and the big-endian layouts of `encoding/binary`.
- `Wrappers` (`wrappers.dfy`) holds `Option` and `Result`.

Go strings and byte slices are both `seq<Byte>`.

Each stateful Go type is a Dafny class with the same fields, and each Go method is a
method of that class. Every loop of the source is a `for` or `while` loop proved
against a specification function:

- `Encode` against `Encoded`, `Decode` against `Decoded`, `EncodeBlocksMeta` against
  `BlockMeta.Encoded`, and the metadata `Decode` against `BlockMeta.Decoded`.
- The `Seek` scan against `SeekFrom`.
- `getTables` against `Reversed`.
- `get` against `Find`.

One loop is not in the source: `Iterator.Drain` calls `Next` while the iterator is
valid, against `Run`, the records that decode from an index on. It states what a caller
walking a block sees.

The builders carry ghost state: the pairs each block received. Their invariants tie
the bytes they hold to those pairs. Some members only read fields and carry no contract:

- `BlockBuilder.EstimatedCurrentBlockSize` and `IsEmpty`
- `Iterator.Valid`, `GetKey` and `GetValue`
- `SsTableBuilder.EstimatedSize`
- `MemTable.Get` and `Index.Get`

The methods that change those fields state their effect through them.

### Where the code and its specification disagree

The model follows the code in each of these cases:

- **Block decode on short input.** `Decode` of a block slices without checking, so a
  short input panics rather than reporting an error. `Block.Decode` therefore requires
  `Decodable`.
- **Metadata keys running past the end.** `bytes.Buffer.Read` into a freshly made slice
  does not fail on a short read. A key whose declared length runs past the end of the
  input is read short and padded with zeros (`BlockMeta.ShortLastKeyIsZeroPadded`). A key
  read fails only when the buffer is already exhausted.
- **`SetBlock` does not decode.** It rewinds to index 0 without decoding there and
  keeps the error. A fresh iterator is valid at once with the empty key and value, an
  empty block counts as one valid position, and an iterator that reached `io.EOF`
  stays invalid on its next block. See Findings.
- **A `Seek` that misses.** If no record has the key, the code stops at the end of the
  block with the error left as the last decode set it. In a non-empty block that is no
  error, so the iterator is still valid. See Findings.
- **The layout `Build` writes.** `Build` assembles the file from the fresh block
  builder's empty data rather than from the table's data. The file therefore omits the
  blocks and its metadata offset is 0. See Findings.
- **`Build` on an empty builder.** `Build` cannot fail for an empty builder:
  `FinishBlock` always appends a metadata entry, even for an empty block, so the "no
  blocks" panic is unreachable.

## Model

| member | source | states |
|---|---|---|
| Block.Encode | storage/block/block.go:18-32 | returns the data, then every offset as two big-endian bytes in order, then the count truncated to 16 bits (`Encoded`) |
| Block.Decode | storage/block/block.go:34-54 | on an input long enough for its stored count, returns the first `len-2-2n` bytes as data and the `n` offsets read two bytes at a time after them (`Decoded`) |
| Block.EncodedLayout | storage/block/block.go:18-32 | the encoding has length `len(data)+2*len(offsets)+2`, starts with the data, holds offset `i` at `len(data)+2i` and the truncated count in its last two bytes |
| Block.DecodeEncoded | storage/block/block.go:18-54 | decoding an encoding gives the block back whenever it has fewer than 65536 offsets |
| Block.EncodeDecoded | storage/block/block.go:18-54 | every input `Decode` accepts is the encoding of what it decodes to |
| Block.TestBlockEncoding | storage/block/block_test.go:9-30 | the test's block encodes to the expected 13 bytes and decodes back to itself |
| BlockBuilder.BlockBuilder.constructor | storage/block/builder.go:15-19 | a new builder holds no data, no offsets and no pairs, with the given target size |
| BlockBuilder.BlockBuilder.Add | storage/block/builder.go:29-57 | accepts exactly when the builder is empty or the wrapped `uint16` estimate plus required size is at most the target; on acceptance appends the old data length to the offsets and the length-prefixed key and value to the data; on refusal changes nothing |
| BlockBuilder.BlockBuilder.Build | storage/block/builder.go:59-68 | the built block is the block of the accepted pairs: their records and offsets, and the empty block when there are none |
| BlockBuilder.RecordOffsetsIncrease | storage/block/builder.go:38-54 | while the data is below 65536 bytes, each offset is the exact start of its record, every record lies inside the data, and the offsets strictly increase |
| BlockBuilder.AddStaysWithinTarget | storage/block/builder.go:21-37 | after an accepted `Add` on a non-empty builder the estimate is at most the target, provided the new estimate stays below 65536 |
| BlockBuilder.EstimateIsEncodedSize | storage/block/builder.go:21-23 | for a non-empty builder the size estimate is the length of the encoded block, while nothing wraps |
| BlockBuilder.WrappedBudgetAcceptsOversizedRecord | storage/block/builder.go:34-35 | the `uint16` budget check wraps: a one-record builder with target 4096 accepts a 65530-byte key |
| BlockIterator.Iterator.constructor | storage/block/iterator.go:11-18 | the zero iterator has no block, index 0 and no error |
| BlockIterator.Iterator.SetBlock | storage/block/iterator.go:21-25 | rewinds to index 0 and copies the block's data; the error, key and value stay |
| BlockIterator.Iterator.SetBlockAndDecode | storage/block/iterator.go:21-25 | the corrected `SetBlock`: rewinds to index 0 and decodes there, so the first record is current and valid, or an empty block leaves the iterator invalid with `io.EOF`; a walk from there passes through exactly the records that decode from index 0 on |
| BlockIterator.Iterator.Drain | storage/block/iterator.go:89-95 | calling `Next` while valid passes through the current pair and then every record that decodes from the next index on, and ends invalid; from an invalid position it passes through none |
| BlockIterator.Iterator.DecodeEntry | storage/block/iterator.go:27-68 | stores the key and value of the record at the current index and clears the error, or stores the first failing check's error (end of block, bad offset, short key length, key, value length or value) keeping a key read before the failure |
| BlockIterator.Iterator.Seek | storage/block/iterator.go:74-87 | ends at the first record whose key matches, holding its value; without a match ends at index `len(offsets)` holding the last record decoded, and with the error untouched in an empty block; a decode error on the way is excluded, since the code panics there |
| BlockIterator.Iterator.SeekOrEnd | storage/block/iterator.go:74-87 | the corrected `Seek`: as `Seek`, but a miss leaves the iterator at the end of the block and invalid, with `io.EOF` |
| BlockIterator.Iterator.Next | storage/block/iterator.go:89-95 | does nothing once invalid; otherwise advances the index by one and decodes the record there |
| BlockIterator.Iterator.Close | storage/block/iterator.go:105-111 | drops the block, data, key, value and error, keeping the index |
| BlockIterator.BuiltBlockEntries | storage/block/iterator.go:39-67 | in a builder block below 65536 bytes, the record at offset `i` decodes to exactly the `i`-th pair added |
| BlockIterator.RecordParses | storage/block/iterator.go:39-67 | a record followed by anything parses back to its key and value when both are below 65536 bytes |
| BlockIterator.SeekFound | storage/block/iterator.go:74-87 | when the scan ends at `i`, record `i` has the key and every record before it decodes to another key |
| BlockIterator.SeekNotFound | storage/block/iterator.go:74-87 | the scan misses exactly when every record decodes to another key, and then holds the last record |
| BlockIterator.SeekWithoutErrors | storage/block/iterator.go:76-80 | a scan over records that all decode never reaches the panic |
| BlockIterator.BuiltBlockSeek | storage/block/iterator.go:74-87 | on a builder block below 65536 bytes the scan never panics, finds the first pair with the key, or misses exactly when no pair has it |
| BlockIterator.MissedSeekStaysValid | storage/block/iterator.go:74-87 | a miss in a non-empty builder block ends holding the last record, so the iterator stays valid |
| BlockIterator.BuiltBlockRun | storage/block/iterator.go:27-68 | on a builder block below 65536 bytes, the records that decode from index `j` on are exactly the pairs added from `j` on |
| BlockIterator.WalkAsWritten | storage/block/iterator.go:21-25 | a fresh iterator set on a builder block of `k` pairs and advanced while valid passes through `max(k, 1)` valid positions: the first holds the empty key and value, the rest hold pairs 1 to `k - 1` |
| BlockIterator.ReuseAsWritten | storage/block/iterator.go:21-25 | an iterator walked to the end of one block and set on any other passes through no valid position |
| BlockIterator.Walk | storage/block/iterator.go:21-25 | with the corrected `SetBlock`, a fresh iterator on a builder block of `k` pairs passes through exactly `k` valid positions, holding the pairs in the order added |
| BlockIterator.ReuseWalk | storage/block/iterator.go:21-25 | with the corrected `SetBlock`, an iterator already walked over any block walks the next builder block in full |
| BlockMeta.EncodeBlocksMeta | storage/sstable/block_meta.go:15-31 | writes the count as a `uint32`, then per entry the offset widened to 32 bits and each key with its length truncated to 16 bits (`Encoded`) |
| BlockMeta.Decode | storage/sstable/block_meta.go:33-77 | reads the count, then that many entries field by field, narrowing each offset to 16 bits; fails at the first fixed-width read (count, offset or key length) that finds fewer bytes left than its width, or at the first non-empty key read from an exhausted buffer; a key read that finds some bytes but too few succeeds, zero-padded (`Decoded`) |
| BlockMeta.EncodedLength | storage/sstable/block_meta.go:15-31 | the encoding takes four bytes plus eight bytes and both keys per entry |
| BlockMeta.ReadEntryEncoded | storage/sstable/block_meta.go:43-73 | an encoded entry with keys below 65536 bytes reads back as itself, leaving what follows |
| BlockMeta.DecodeEncoded | storage/sstable/block_meta.go:15-77 | decoding an encoding, followed by any bytes, gives the entries back while there are fewer than 2^32 of them and every key is below 65536 bytes |
| BlockMeta.LongKeyDoesNotRoundTrip | storage/sstable/block_meta.go:23-24 | a 65536-byte key has its length written as 0 and does not survive the round trip |
| BlockMeta.ShortKeyIsZeroPadded | storage/sstable/block_meta.go:54-73 | for example, the 13-byte input with an empty first key, a last key declared 3 bytes long with one byte left, and offset `0x10001` decodes to offset 1 and last key `07 00 00` |
| BlockMeta.ShortLastKeyIsZeroPadded | storage/sstable/block_meta.go:44-73 | for every offset, first key and last key: a last key declared longer than the bytes left, with at least one byte left, is read short and zero-padded to its declared length, and the 32-bit offset is narrowed to 16 bits (the general rule is `BufferRead`'s postcondition) |
| SsTable.SsTableBuilder.constructor | storage/sstable/builder.go:25-30 | a new table builder has no blocks, no data, empty keys and an empty block builder with the block size |
| SsTable.SsTableBuilder.FinishBlock | storage/sstable/builder.go:58-69 | appends a metadata entry with the current data length truncated to 16 bits and the block's keys, appends the open block's encoding to the data, and starts an empty block builder; keeps the data equal to the run of sealed blocks and each metadata offset equal to its block's start truncated to 16 bits |
| SsTable.SsTableBuilder.Add | storage/sstable/builder.go:36-56 | when the pair fits, the open block takes it and it becomes the last key (and the first, when none was set); otherwise the open block is sealed and a fresh block holds just the pair, which is then first and last key; keeps the metadata keys exact |
| SsTable.SsTableBuilder.Build | storage/sstable/builder.go:71-115 | seals the open block, then returns the file error if the file system reports one, else a table whose file is the encoded metadata followed by a zero offset, with metadata offset 0 and the first and last metadata keys |
| SsTable.SsTableBuilder.BuildWithBlocks | storage/sstable/builder.go:71-115 | the corrected `Build`: the file is the encoded blocks, then the encoded metadata, then the length of the blocks as a 4-byte big-endian metadata offset |
| SsTable.KeysAfterAccept | storage/sstable/builder.go:36-45 | a pair accepted into the open block becomes its last key, and its first key when none was set |
| SsTable.SealKeepsMetaKeys | storage/sstable/builder.go:58-65 | sealing with the current first and last key records the sealed block's own first and last key |
| SsTable.KeysAfterSeal | storage/sstable/builder.go:48-55 | after a seal, the pair alone in the fresh block is its first and last key |
| SsTable.MetaKeysAt | storage/sstable/builder.go:61-65 | metadata entry `i` names the first and last key of block `i` |
| SsTable.SealKeepsRun | storage/sstable/builder.go:58-67 | sealing a block extends the data by its encoding and the metadata offsets by the old data length |
| SsTable.RunStartsAt | storage/sstable/builder.go:61-67 | the `i`-th recorded start is the length of the blocks before it, in 16 bits |
| SsTable.BlockInRun | storage/sstable/builder.go:67 | block `i` is encoded in the data right after the blocks before it |
| SsTable.MetaLocatesBlocks | storage/sstable/builder.go:58-69 | while the data is below 65536 bytes, each metadata offset is where its block's encoding starts in the data |
| SsTable.MetaBlockDecodes | storage/sstable/builder.go:58-69 | the bytes at a metadata offset decode to the block built from that block's pairs, while the data is below 65536 bytes |
| SsTable.BuiltMetaDecodes | storage/sstable/builder.go:72-85 | the file `Build` assembles decodes back to the table's metadata |
| SsTable.BuildOmitsBlocks | storage/sstable/builder.go:72-75 | once a block is sealed the data is never empty, yet the file `Build` assembles is only the metadata and a zero offset, not the blocks, then the metadata, then a 4-byte big-endian metadata offset |
| SsTable.TableFileReadsBack | storage/sstable/builder.go:73-85 | in the layout `blocks ‖ metadata ‖ metadata offset (4 bytes, big-endian)`, the footer gives where the metadata starts, the metadata decodes from there, and the blocks come first |
| SsTable.TableFileHoldsBlocks | storage/sstable/builder.go:58-85 | in that same layout every block decodes from the file at its metadata offset, while the blocks stay below 65536 bytes |
| MemTable.Grow | storage/mem_table/mem_table.go:34 | the counter after an atomic add is the sum modulo 2^32, and the plain sum while that stays below 2^32 |
| MemTable.LookupAfterReplace | storage/mem_table/mem_table.go:36 | after a replace-or-insert, a lookup finds the new record under its key and what it found before under any other key |
| MemTable.MemTable.constructor | storage/mem_table/mem_table.go:24-31 | a new memtable is empty, with counter 0 and the given id |
| MemTable.MemTable.Set | storage/mem_table/mem_table.go:33-37 | replaces or inserts the record, so `Get` of its key returns it and every other key is unchanged; adds the key and data lengths to the counter modulo 2^32 |
| MemTable.MemTable.Delete | storage/mem_table/mem_table.go:39-43 | stores the key with empty data, so `Get` finds it with empty data; every other key is unchanged; adds the key length to the counter modulo 2^32 |
| LsmStorage.LsmStorageState.constructor | storage/lsm_storage.go:9-17 | an assumed initial state, since the code builds none: one empty current memtable numbered 0, as `freezeCurrentMemTable` (line 71) numbers each new table by the count before it, and no immutable ones |
| LsmStorage.LsmStorageState.Get | storage/lsm_storage.go:19-33 | returns the record from the first table holding the key in reading order, or the zero record and false; equally, a lookup in the merged contents |
| LsmStorage.LsmStorageState.Put | storage/lsm_storage.go:35-49 | writes the record into the current table, freezes it exactly when its counter has reached 64 MiB, updates the merged contents at the key only, and `get` then returns the record |
| LsmStorage.LsmStorageState.Delete | storage/lsm_storage.go:51-65 | writes the key with empty data under the same freeze rule, and `get` then finds the key with empty data |
| LsmStorage.LsmStorageState.FreezeCurrentMemTable | storage/lsm_storage.go:67-74 | appends the current table to the immutable ones and installs a fresh empty table numbered by their count; what reads see is unchanged |
| LsmStorage.LsmStorageState.GetTables | storage/lsm_storage.go:76-91 | returns the current table, then the immutable ones from the newest to the oldest |
| LsmStorage.ReversedAt | storage/lsm_storage.go:84-87 | element `i` of the reversed list is element `len-1-i` of the list |
| LsmStorage.FindMerged | storage/lsm_storage.go:25-32 | reading the tables one by one finds what their merge, newer over older, holds |
| LsmStorage.NewestShadows | storage/lsm_storage.go:25-28 | a key in the first table is answered from it, whatever the later tables hold |
| LsmStorage.AbsentEverywhere | storage/lsm_storage.go:25-32 | a key no table holds, and only such a key, yields the zero record and false |
| LsmStorage.MergedKeys | storage/lsm_storage.go:25-32 | the merged contents hold a key exactly when some table does |
| LsmStorage.WriteUpdatesContents | storage/lsm_storage.go:39 | writing into the current table changes the merged contents at that key only |
| LsmStorage.FreezeKeepsContents | storage/lsm_storage.go:70-71 | freezing the current table and starting an empty one leaves the merged contents unchanged |
| Index.Index.constructor | storage/index.go:7-11 | a new index holds no key |
| Index.Index.Set | storage/index.go:13-15 | maps the key to the value, replacing an earlier one, and leaves every other key unchanged |
| Index.Index.Remove | storage/index.go:22-24 | drops the key so `Get` returns 0 and false, changes nothing if it was absent, and leaves every other key unchanged |

## Left out

- File I/O. `Build`'s open, write and sync become the parameter `fs`, which says which
  step fails, if any. The table holds the bytes written rather than an `*os.File`.
- Concurrency. The reader-writer lock of the LSM state and the atomic counter of the
  memtable are not modelled, and every operation runs alone. The `Lock()` followed by
  `RUnlock()` after a freeze in `put` and `delete` is a lock-misuse fault at run time,
  and it is not modelled.
- The B-tree of the memtable is a map from key to data. A record's key is the key it
  is stored under. The tree's iteration order is not used by the modelled code.
- Error results that are always `nil` are dropped: `EncodeBlocksMeta`'s, those of
  `get`, `put` and `delete`, and `getTables`'. `Block.Decode`'s slicing panic is a
  precondition.
- Go's `nil` and empty slices are both the empty sequence. Slice aliasing between a
  block, its builder and an iterator is not modelled: the iterator's copy of the data
  is a value.
- `make` capacities are dropped. They do not affect results, with one exception: in
  `BlockMeta.Decode` the capacity of the result slice (storage/sstable/block_meta.go:41)
  comes from the stored count, so an input starting `FF FF FF FF` asks for about 240 GB
  before its first offset read fails, which can end the process out of memory. The model
  returns `Failure(ShortOffset)` for that input.
- `storage/sstable/sstable.go` repeats the metadata codec and the table builder
  verbatim. They are modelled once, from `block_meta.go` and `builder.go`. Its
  `SsTable` struct is the `SsTable` datatype.
- The memtable `Id` is a `nat`, not a 64-bit `uint`.
- Test files are not modelled, apart from the block test (`Block.TestBlockEncoding`).
- BlockBuilder.AddStaysWithinTarget: the budget promise is proved only while no
  `uint16` sum wraps. `BlockBuilder.WrappedBudgetAcceptsOversizedRecord` shows that it
  fails otherwise.
- SsTable.MetaLocatesBlocks: metadata offsets are 16-bit (`EstimatedSize` truncates
  `len(Data)`). Locating blocks is proved only while the data stays below 65536 bytes.
- BlockBuilder.BlockBuilder.Add: the panic on an empty key is a precondition, a key of
  at least one byte. `SsTable.SsTableBuilder.Add` inherits it, since it passes the key on.
- LsmStorage.LsmStorageState.constructor: the code has no constructor for the state
  (storage/lsm_storage.go:9-17 only declares it). Its zero value has a nil current
  memtable, on which `get`, `put` and `delete` panic; that start is not modelled. The
  model starts from `NewMemTable(0)` with no immutable tables, and the `Valid` rule that
  each table's id is its position in freeze order rests on that start.
- BlockIterator.Iterator.Seek: the nil-block panic is a precondition (`block.Some?`).
  The zero `Iterator{}` dereferences `i.block.offsets` at storage/block/iterator.go:77.
- BlockIterator.Iterator.SeekOrEnd: the same nil-block precondition as `Seek`.
- BlockIterator.Iterator.DecodeEntry: the nil-block panic at storage/block/iterator.go:28
  is a precondition (`block.Some?`).
- BlockIterator.Iterator.Next: a valid iterator must hold a block (`err == None ==>
  block.Some?`). `Next` on the zero `Iterator{}` reaches the nil dereference in
  `decodeEntry`, and that panic is not modelled.
- SsTable.SsTableBuilder.Add: the pair is stated to be accepted by the fresh block. The
  "too big" panic is unreachable because an empty block builder accepts any pair.

## Findings

| source | as written | input that shows it | evidently intended | confidence | as-written member | corrected member |
|---|---|---|---|---|---|---|
| storage/sstable/builder.go:73 | the file buffer is seeded from `s.BlockBuilder.Data`, which `FinishBlock` has just replaced by an empty builder, so the metadata offset is 0 and the encoded blocks are not in the file | any table with one sealed block: the data holds at least the block's two count bytes, and the file is only the encoded metadata and `00 00 00 00` | seed the buffer from `s.Data`: blocks, metadata, then `len(s.Data)` as the metadata offset | high; not executed | SsTable.BuildOmitsBlocks | SsTable.SsTableBuilder.BuildWithBlocks |
| storage/block/iterator.go:21-25 | `SetBlock` rewinds without decoding and keeps the error, so index 0 holds the previous key and value, an empty block still counts as one valid position, and an iterator that reached `io.EOF` stays invalid on its next block | a fresh iterator set on the block of one pair `("a", "1")`: the first valid position holds key `""`, not `"a"`; on the empty block it is valid once | iterating a block of `k` records with `Next` gives exactly `k` valid positions, holding the records, then turns invalid | medium; not executed | BlockIterator.WalkAsWritten | BlockIterator.Walk |
| storage/block/iterator.go:74-87 | a `Seek` without a match stops at `idx == len(offsets)` without decoding there, so the error stays as the last successful decode left it and `Valid()` is true | a block built from one pair `("a", "")`, sought for `"b"`: the iterator ends valid, holding key `"a"` | a miss leaves the iterator at the end of the block and invalid (`io.EOF`) | medium; not executed | BlockIterator.MissedSeekStaysValid | BlockIterator.Iterator.SeekOrEnd |
