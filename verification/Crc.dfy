/** The block checksum of bzip2, and the combined checksum of a stream, as 32-bit numbers. */
module Crc {
  import opened Bits
  import opened Rotations

  const POLY: bv32 := 0x04c1_1db7
  const CRC_START := 0xffff_ffff

  /** One bit through the shift register. */
  function CrcBit(crc: bv32): bv32 {
    if crc & 0x8000_0000 != 0 then (crc << 1) ^ POLY else crc << 1
  }

  /** Entry i of the table: the byte i at the top of the register, shifted through. */
  function TableEntry(i: bv32): bv32 {
    CrcBit(CrcBit(CrcBit(CrcBit(CrcBit(CrcBit(CrcBit(CrcBit(i << 24))))))))
  }

  /** BZ_UPDATE_CRC */
  function CrcStep(crc: bv32, c: bv32): bv32 {
    (crc << 8) ^ TableEntry((crc >> 24) ^ c)
  }

  function Number(x: bv32): (r: nat)
    ensures r < WORD
  {
    x as nat
  }

  function CrcByte(crc: nat, c: Byte): (r: nat)
    requires crc < WORD
    ensures r < WORD
  {
    Number(CrcStep(crc as bv32, c as bv32))
  }

  function CrcFrom(crc: nat, s: seq<Byte>): (r: nat)
    requires crc < WORD
    ensures r < WORD
  {
    if s == [] then crc else CrcByte(CrcFrom(crc, s[..|s| - 1]), s[|s| - 1])
  }

  lemma {:induction false} CrcAppend(crc: nat, s: seq<Byte>, t: seq<Byte>)
    requires crc < WORD
    ensures CrcFrom(crc, s + t) == CrcFrom(CrcFrom(crc, s), t)
  {
    hide CrcByte;
    if t == [] {
      assert s + t == s;
    } else {
      assert (s + t)[..|s + t| - 1] == s + t[..|t| - 1];
      CrcAppend(crc, s, t[..|t| - 1]);
    }
  }

  lemma {:induction false} CrcOne(crc: nat, c: Byte)
    requires crc < WORD
    ensures CrcFrom(crc, [c]) == CrcByte(crc, c)
  {
    hide CrcByte;
    assert [c][..0] == [];
  }

  lemma {:induction false} CrcNone(crc: nat)
    requires crc < WORD
    ensures CrcFrom(crc, []) == crc
  {
  }

  /** BZ_FINALISE_CRC */
  function Finalised(crc: nat): (r: nat)
    requires crc < WORD
    ensures r < WORD
  {
    Number((crc as bv32) ^ 0xffff_ffff)
  }

  /** The checksum stored with a block that stands for the bytes s. */
  function BlockCrc(s: seq<Byte>): (r: nat)
    ensures r < WORD
  {
    Finalised(CrcFrom(CRC_START, s))
  }

  /** The combined checksum, turned by one bit, takes in that of a block. */
  function CombineStep(combined: bv32, crc: bv32): bv32 {
    ((combined << 1) | (combined >> 31)) ^ crc
  }

  function Combine(combined: nat, crc: nat): (r: nat)
    requires combined < WORD && crc < WORD
    ensures r < WORD
  {
    Number(CombineStep(combined as bv32, crc as bv32))
  }

  function Combined(crcs: seq<nat>): (r: nat)
    requires forall i | 0 <= i < |crcs| :: crcs[i] < WORD
    ensures r < WORD
  {
    if crcs == [] then 0 else Combine(Combined(crcs[..|crcs| - 1]), crcs[|crcs| - 1])
  }
}
