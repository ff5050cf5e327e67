/** NOR flash: an erase sets every bit of the 4 KiB sectors it touches, and a write can only clear bits. */
module NorFlash {
  import opened Bytes
  import opened BitStrings

  const FLASH_SECTOR: nat := 4096

  function Blank(n: nat): (s: seq<byte>)
    ensures |s| == n && forall i | 0 <= i < n :: s[i] == 0xFF
  {
    seq<byte>(n, _ => 0xFF)
  }

  /** The start of the sector that holds `offset`. */
  function SectorStart(offset: nat): (start: nat)
    ensures start <= offset
  {
    offset / FLASH_SECTOR * FLASH_SECTOR
  }

  /** The end of the last sector touched by bytes up to `end`, in a partition of `length` bytes. */
  function SectorEnd(end: nat, length: nat): (last: nat)
    requires end <= length
    ensures end <= last <= length
  {
    Min((end + FLASH_SECTOR - 1) / FLASH_SECTOR * FLASH_SECTOR, length)
  }

  /** The flash after an erase of a range: whole sectors are lost. */
  function Wiped(flash: seq<byte>, offset: nat, size: nat): (s: seq<byte>)
    requires offset + size <= |flash|
    ensures |s| == |flash|
  {
    var start, last := SectorStart(offset), SectorEnd(offset + size, |flash|);
    Splice(flash, start, Blank(last - start))
  }

  /** The bits that are set in both bytes. */
  function AndByte(a: byte, b: byte): byte {
    var c := And(ToBits(a, 8), ToBits(b, 8));
    ByteRange(c);
    Value(c)
  }

  lemma ByteRange(bits: Bits)
    requires |bits| == 8
    ensures Value(bits) < 256
  {
    ValueRoundTrip(bits);
    EightBits();
  }

  /** A byte written over an erased one is stored as it is. */
  lemma AndBlank(b: byte)
    ensures AndByte(0xFF, b) == b
  {
    var ones, bits := ToBits(0xFF, 8), ToBits(b, 8);
    AllOnes();
    assert And(ones, bits) == bits;
    EightBits();
    BitsRoundTrip(b, 8);
  }

  lemma AllOnes()
    ensures forall i | 0 <= i < 8 :: ToBits(0xFF, 8)[i]
  {
    assert ToBits(0xF, 4) == [true, true, true, true];
    assert ToBits(0xFF, 8) == ToBits(0xF, 4) + [true, true, true, true] by {
      assert ToBits(0x1F, 5) == ToBits(0xF, 4) + [true];
      assert ToBits(0x3F, 6) == ToBits(0x1F, 5) + [true];
      assert ToBits(0x7F, 7) == ToBits(0x3F, 6) + [true];
    }
  }

  /** The flash after writing `data`: where it was not erased, old and new bits mix. */
  function Programmed(flash: seq<byte>, at: nat, data: seq<byte>): (s: seq<byte>)
    requires at + |data| <= |flash|
    ensures |s| == |flash|
  {
    flash[..at]
    + seq<byte>(|data|, i requires 0 <= i < |data| => AndByte(flash[at + i], data[i]))
    + flash[at + |data|..]
  }

  /** Data written to erased flash replaces it. */
  lemma ProgramBlank(flash: seq<byte>, at: nat, data: seq<byte>)
    requires at + |data| <= |flash| && flash[at..at + |data|] == Blank(|data|)
    ensures Programmed(flash, at, data) == Splice(flash, at, data)
  {
    hide AndByte;
    forall i | 0 <= i < |data|
      ensures AndByte(flash[at + i], data[i]) == data[i]
    {
      assert flash[at..at + |data|][i] == 0xFF;
      AndBlank(data[i]);
    }
  }
}
