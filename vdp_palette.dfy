/**
 * The VDP's colour RAM as the palette handler keeps it: 128 bytes, viewed
 * either byte-wise or as 64 host-endian words (a little-endian host: the
 * even byte of a word is its low byte), with only the low 7 address bits
 * decoded, and a pair of dirty flags that every write marks.
 */
module Vdp {
  import opened Bits

  const CRAM_BYTES: int := 0x80

  /** The 8-bit CRAM address the accessors take. */
  type CRamAddr = a: nat | a < 0x100

  /** `address & 0x7F`. */
  function CRamByteIndex(a: CRamAddr): (k: nat)
    ensures k < CRAM_BYTES
  {
    a % 0x80
  }

  /** `(address & 0x7F) >> 1`: the word index, bit 0 ignored. */
  function CRamWordIndex(a: CRamAddr): (i: nat)
    ensures i < CRAM_BYTES / 2
  {
    a % 0x80 / 2
  }

  function CRamReadByte(cram: seq<u8>, a: CRamAddr): u8
    requires |cram| == CRAM_BYTES
  {
    cram[CRamByteIndex(a)]
  }

  /** The word at `i` on a little-endian host: byte 2i is the low byte. */
  function CRamReadWord(cram: seq<u8>, a: CRamAddr): u16
    requires |cram| == CRAM_BYTES
  {
    var i := CRamWordIndex(a);
    Word(cram[2 * i + 1], cram[2 * i])
  }

  function CRamWriteByte(cram: seq<u8>, a: CRamAddr, d: u8): (r: seq<u8>)
    requires |cram| == CRAM_BYTES
    ensures |r| == CRAM_BYTES
  {
    cram[CRamByteIndex(a) := d]
  }

  function CRamWriteWord(cram: seq<u8>, a: CRamAddr, w: u16): (r: seq<u8>)
    requires |cram| == CRAM_BYTES
    ensures |r| == CRAM_BYTES
  {
    var i := CRamWordIndex(a);
    cram[2 * i := Lo(w)][2 * i + 1 := Hi(w)]
  }

  class VdpPalette {
    const cram: array<u8>
    /** The two bits of the dirty-flag byte: the active palette, and the full palette. */
    var dirtyActive: bool
    var dirtyFull: bool

    ghost predicate Valid()
      reads this
    {
      cram.Length == CRAM_BYTES
    }

    /** A palette with zeroed CRAM and clean flags. */
    constructor ()
      ensures Valid() && fresh(cram)
      ensures forall k :: 0 <= k < CRAM_BYTES ==> cram[k] == 0
      ensures !IsDirty()
    {
      cram := new u8[CRAM_BYTES](_ => 0);
      dirtyActive := false;
      dirtyFull := false;
    }

    /** isDirty: the dirty byte is non-zero, that is either flag is set. */
    predicate IsDirty()
      reads this
    {
      dirtyActive || dirtyFull
    }

    method ReadCRam8(a: CRamAddr) returns (r: u8)
      requires Valid()
      ensures r == CRamReadByte(cram[..], a)
    {
      r := cram[a % 0x80];
    }

    method ReadCRam16(a: CRamAddr) returns (r: u16)
      requires Valid()
      ensures r == CRamReadWord(cram[..], a)
    {
      var i := a % 0x80 / 2;
      r := Word(cram[2 * i + 1], cram[2 * i]);
    }

    method WriteCRam8(a: CRamAddr, d: u8)
      requires Valid()
      modifies cram, this`dirtyActive
      ensures cram[..] == CRamWriteByte(old(cram[..]), a, d)
      ensures dirtyActive && IsDirty()
    {
      cram[a % 0x80] := d;
      dirtyActive := true;
    }

    method WriteCRam16(a: CRamAddr, w: u16)
      requires Valid()
      modifies cram, this`dirtyActive
      ensures cram[..] == CRamWriteWord(old(cram[..]), a, w)
      ensures dirtyActive && IsDirty()
    {
      var i := a % 0x80 / 2;
      cram[2 * i] := Lo(w);
      cram[2 * i + 1] := Hi(w);
      dirtyActive := true;
    }
  }

  // ---------------------------------------------------------------------
  // Properties

  /** A byte written is read back at every address with the same low 7 bits; the other bytes keep their value. */
  lemma ByteReadAfterWrite(cram: seq<u8>, a: CRamAddr, b: CRamAddr, d: u8)
    requires |cram| == CRAM_BYTES
    ensures a % 0x80 == b % 0x80 ==> CRamReadByte(CRamWriteByte(cram, a, d), b) == d
    ensures a % 0x80 != b % 0x80 ==> CRamReadByte(CRamWriteByte(cram, a, d), b) == CRamReadByte(cram, b)
  {
  }

  /** A word written is read back at every address with the same bits 1-6; the other words keep their value. */
  lemma WordReadAfterWrite(cram: seq<u8>, a: CRamAddr, b: CRamAddr, w: u16)
    requires |cram| == CRAM_BYTES
    ensures CRamWordIndex(a) == CRamWordIndex(b) ==> CRamReadWord(CRamWriteWord(cram, a, w), b) == w
    ensures CRamWordIndex(a) != CRamWordIndex(b) ==>
      CRamReadWord(CRamWriteWord(cram, a, w), b) == CRamReadWord(cram, b)
  {
    WordSplitsBack(w);
  }

  /** A byte write changes exactly one byte, the one at `address & 0x7F`. */
  lemma ByteWriteIsLocal(cram: seq<u8>, a: CRamAddr, d: u8)
    requires |cram| == CRAM_BYTES
    ensures var r := CRamWriteByte(cram, a, d);
      forall k :: 0 <= k < CRAM_BYTES && k != a % 0x80 ==> r[k] == cram[k]
  {
  }

  /** A word write changes exactly the two bytes of its word. */
  lemma WordWriteIsLocal(cram: seq<u8>, a: CRamAddr, w: u16)
    requires |cram| == CRAM_BYTES
    ensures var r, i := CRamWriteWord(cram, a, w), CRamWordIndex(a);
      && r[2 * i] == Lo(w) && r[2 * i + 1] == Hi(w)
      && forall k :: 0 <= k < CRAM_BYTES && k / 2 != i ==> r[k] == cram[k]
  {
  }

  /** CRAM is 128 bytes mirrored through the 8-bit address space. */
  lemma Mirrored(cram: seq<u8>, a: CRamAddr)
    requires |cram| == CRAM_BYTES && a < 0x80
    ensures CRamReadByte(cram, a + 0x80) == CRamReadByte(cram, a)
    ensures CRamReadWord(cram, a + 0x80) == CRamReadWord(cram, a)
  {
  }

  /** The two views agree: a word is its odd byte over its even byte. */
  lemma WordOfBytes(cram: seq<u8>, a: CRamAddr)
    requires |cram| == CRAM_BYTES && a % 2 == 0
    ensures CRamReadWord(cram, a) == Word(CRamReadByte(cram, a + 1), CRamReadByte(cram, a))
  {
  }
}
