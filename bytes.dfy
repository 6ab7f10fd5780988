/**
 * Fixed-width integers and the big-endian byte layouts that Go's
 * `encoding/binary` (`binary.BigEndian`) produces and reads.
 */
module Bytes {

  type Byte = b: int | 0 <= b < 0x100
  type U16 = x: int | 0 <= x < 0x1_0000
  type U32 = x: int | 0 <= x < 0x1_0000_0000
  type I64 = x: int | -0x8000_0000_0000_0000 <= x < 0x8000_0000_0000_0000

  /** `SIZEOF_UINT16` of storage/block/block.go. */
  const SIZEOF_UINT16: U16 := 2

  /** Go's conversion `uint16(x)` of a non-negative int: keeps the low 16 bits. */
  function ToU16(x: nat): U16 { x % 0x1_0000 }

  /** Go's conversion `uint32(x)` of a non-negative int: keeps the low 32 bits. */
  function ToU32(x: nat): U32 { x % 0x1_0000_0000 }

  lemma SmallToU16(x: nat)
    requires x < 0x1_0000
    ensures ToU16(x) == x
  {
  }

  /** `binary.BigEndian.PutUint16`. */
  function BE16(x: U16): (r: seq<Byte>)
    ensures |r| == 2
  {
    [x / 0x100, x % 0x100]
  }

  /** `binary.BigEndian.Uint16`: reads the first two bytes. */
  function ReadBE16(s: seq<Byte>): U16
    requires |s| >= 2
  {
    (s[0] as int) * 0x100 + s[1]
  }

  /** `binary.BigEndian.PutUint32`: the high half, then the low half. */
  function BE32(x: U32): (r: seq<Byte>)
    ensures |r| == 4
  {
    BE16(x / 0x1_0000) + BE16(x % 0x1_0000)
  }

  /** `binary.BigEndian.Uint32`: reads the first four bytes. */
  function ReadBE32(s: seq<Byte>): U32
    requires |s| >= 4
  {
    (ReadBE16(s) as int) * 0x1_0000 + ReadBE16(s[2..])
  }

  lemma BE16Inverse(x: U16, rest: seq<Byte>)
    ensures ReadBE16(BE16(x) + rest) == x
  {
  }

  lemma ReadBE16Inverse(s: seq<Byte>)
    requires |s| >= 2
    ensures BE16(ReadBE16(s)) == s[..2]
  {
  }

  lemma BE32Inverse(x: U32, rest: seq<Byte>)
    ensures ReadBE32(BE32(x) + rest) == x
  {
    var s := BE32(x) + rest;
    BE16Inverse(x / 0x1_0000, s[2..]);
    assert s[2..] == BE16(x % 0x1_0000) + rest;
    BE16Inverse(x % 0x1_0000, rest);
  }
}
