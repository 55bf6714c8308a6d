// The UniPhier GPIO bank of drivers/gpio/gpio-uniphier.c: eight lines
// whose data and direction bits live in two 32-bit registers, every update
// done as a masked read-modify-write.
module Gpio {
  import opened Mmio

  const NrPorts: nat := 8     // UNIPHIER_GPIO_NR_PORTS
  const RegData: nat := 0     // UNIPHIER_GPIO_REG_DATA
  const RegDir: nat := 4      // UNIPHIER_GPIO_REG_DIR (1: input, 0: output)

  /** GENMASK(UNIPHIER_GPIO_NR_PORTS - 1, 0): the bits of the eight lines. */
  const BankMask: bv32 := 0xff

  /** Bit `offset` of the register `reg`, as 0 or 1. */
  function BitOf(w: Window, reg: nat, offset: nat): (v: int)
    requires offset < 32
    ensures v == 0 || v == 1
    ensures v == 1 <==> Read(w, reg) & Bit(offset) != 0
  {
    WordBit(Read(w, reg), offset)
  }

  /** Bit `offset` of a word, as 0 or 1. */
  function WordBit(x: bv32, offset: nat): (v: int)
    requires offset < 32
    ensures v == 0 || v == 1
    ensures v == 1 <==> x & Bit(offset) != 0
  {
    if x & Bit(offset) != 0 then 1 else 0
  }

  /** Bit `offset` of `value << offset` is bit 0 of `value`. */
  lemma ShiftBit(value: bv32, offset: nat)
    requires offset < 32
    ensures (value << offset) & Bit(offset) == (value & 1) << offset
  {
  }

  /** Bit 0 of a word as 0 or 1. */
  function LowBit(value: bv32): (v: int)
    ensures v == 0 || v == 1
    ensures v == 1 <==> value & 1 == 1
  {
    if value & 1 == 1 then 1 else 0
  }

  class Chip {
    /** The register window of the bank (DATA at 0, DIR at 4). */
    var regs: Window
    /** Every write the driver issued, oldest first. */
    var trace: seq<Write32>

    constructor (regs0: Window)
      ensures regs == regs0 && trace == []
    {
      regs := regs0;
      trace := [];
    }

    /** uniphier_gpio_bank_write: read, clear the masked bits, OR in the
        masked value, write back, as one step under the bank lock. */
    method BankWrite(reg: nat, mask: bv32, value: bv32)
      modifies this
      ensures regs == old(regs)[reg := Masked(Read(old(regs), reg), mask, value)]
      ensures trace == old(trace) + [Write32(reg, Masked(Read(old(regs), reg), mask, value))]
    {
      var tmp := BankWord(Read(regs, reg), mask, value);
      regs := regs[reg := tmp];
      trace := trace + [Write32(reg, tmp)];
    }

    /** uniphier_gpio_offset_write: only bit `offset` changes, and it becomes
        bit 0 of `value`. The C `int value` is taken as the 32-bit pattern
        that `value << offset` shifts. */
    method OffsetWrite(reg: nat, offset: nat, value: bv32)
      requires offset < NrPorts
      modifies this
      ensures regs == old(regs)[reg := Masked(Read(old(regs), reg), Bit(offset), value << offset)]
      ensures trace == old(trace) + [Write32(reg, Read(regs, reg))]
      ensures BitOf(regs, reg, offset) == LowBit(value)
      ensures forall o :: 0 <= o < 32 && o != offset ==> BitOf(regs, reg, o) == BitOf(old(regs), reg, o)
      ensures forall r :: r != reg ==> Read(regs, r) == Read(old(regs), r)
    {
      BankWrite(reg, Bit(offset), value << offset);
      ShiftBit(value, offset);
      ghost var before := Read(old(regs), reg);
      assert Read(regs, reg) == Masked(before, Bit(offset), value << offset);
      OtherBitsKept(before, offset, value << offset);
    }

    /** uniphier_gpio_offset_read. */
    function OffsetRead(reg: nat, offset: nat): (v: int)
      requires offset < NrPorts
      reads this
      ensures v == 0 || v == 1
    {
      BitOf(regs, reg, offset)
    }

    /** uniphier_gpio_get_direction: 1 means input. */
    function GetDirection(offset: nat): (v: int)
      requires offset < NrPorts
      reads this
      ensures v == 1 <==> Read(regs, RegDir) & Bit(offset) != 0
    {
      OffsetRead(RegDir, offset)
    }

    /** uniphier_gpio_get. */
    function Get(offset: nat): (v: int)
      requires offset < NrPorts
      reads this
      ensures v == 1 <==> Read(regs, RegData) & Bit(offset) != 0
    {
      OffsetRead(RegData, offset)
    }

    /** uniphier_gpio_direction_input: DIR bit set, nothing else touched. */
    method DirectionInput(offset: nat) returns (ret: int)
      requires offset < NrPorts
      modifies this
      ensures ret == 0
      ensures GetDirection(offset) == 1
      ensures forall o :: 0 <= o < NrPorts ==> Get(o) == old(Get(o))
      ensures forall o :: 0 <= o < NrPorts && o != offset ==> GetDirection(o) == old(GetDirection(o))
      ensures |trace| == |old(trace)| + 1 && trace[|old(trace)|].off == RegDir
    {
      OffsetWrite(RegDir, offset, 1);
      ret := 0;
    }

    /** uniphier_gpio_direction_output: the DATA bit is written first, then
        the DIR bit is cleared, so the line never drives a stale level. */
    method DirectionOutput(offset: nat, value: bv32) returns (ret: int)
      requires offset < NrPorts
      modifies this
      ensures ret == 0
      ensures Get(offset) == LowBit(value) && GetDirection(offset) == 0
      ensures forall o :: 0 <= o < NrPorts && o != offset ==> Get(o) == old(Get(o))
      ensures forall o :: 0 <= o < NrPorts && o != offset ==> GetDirection(o) == old(GetDirection(o))
      ensures |trace| == |old(trace)| + 2
      ensures trace[|old(trace)|].off == RegData && trace[|old(trace)| + 1].off == RegDir
    {
      OffsetWrite(RegData, offset, value);
      OffsetWrite(RegDir, offset, 0);
      ret := 0;
    }

    /** uniphier_gpio_set. */
    method Set(offset: nat, value: bv32)
      requires offset < NrPorts
      modifies this
      ensures Get(offset) == LowBit(value)
      ensures forall o :: 0 <= o < NrPorts && o != offset ==> Get(o) == old(Get(o))
      ensures forall o :: 0 <= o < NrPorts ==> GetDirection(o) == old(GetDirection(o))
      ensures |trace| == |old(trace)| + 1 && trace[|old(trace)|].off == RegData
    {
      OffsetWrite(RegData, offset, value);
    }

    /** uniphier_gpio_set_multiple: both the mask and the bits are cut to the
        eight lines of the bank before the masked write. */
    method SetMultiple(mask: bv32, bits: bv32)
      modifies this
      ensures regs == old(regs)[RegData := Masked(Read(old(regs), RegData), mask & BankMask, bits & BankMask)]
      ensures Read(regs, RegData) & !BankMask == Read(old(regs), RegData) & !BankMask
      ensures Read(regs, RegData) & (mask & BankMask) == bits & (mask & BankMask)
      ensures trace == old(trace) + [Write32(RegData, Read(regs, RegData))]
    {
      ghost var w := Masked(Read(regs, RegData), mask & BankMask, bits & BankMask);
      BankWrite(RegData, mask & BankMask, bits & BankMask);
      assert Read(regs, RegData) == w;
      MaskedWithin(Read(old(regs), RegData), mask, bits, BankMask);
    }
  }

  /** A masked write of a single bit leaves every other bit where it was. */
  lemma OtherBitKept(cur: bv32, offset: nat, o: nat, v: bv32)
    requires offset < 32 && o < 32 && o != offset
    ensures Masked(cur, Bit(offset), v) & Bit(o) == cur & Bit(o)
  {
    assert Bit(o) & Bit(offset) == 0 by { DistinctBits(o, offset); }
  }

  /** ... and so every bit but `offset` reads the same. */
  lemma OtherBitsKept(cur: bv32, offset: nat, v: bv32)
    requires offset < 32
    ensures forall o :: 0 <= o < 32 && o != offset ==> WordBit(Masked(cur, Bit(offset), v), o) == WordBit(cur, o)
  {
    forall o | 0 <= o < 32 && o != offset
      ensures WordBit(Masked(cur, Bit(offset), v), o) == WordBit(cur, o)
    {
      OtherBitKept(cur, offset, o, v);
    }
  }

  /** A masked write whose mask lies inside `bank` keeps every bit outside it. */
  lemma MaskedWithin(cur: bv32, mask: bv32, bits: bv32, bank: bv32)
    ensures Masked(cur, mask & bank, bits & bank) & !bank == cur & !bank
    ensures Masked(cur, mask & bank, bits & bank) & (mask & bank) == bits & (mask & bank)
  {
  }

  /** The word uniphier_gpio_bank_write computes: the current word with
      the masked bits cleared, then `mask & value` ORed in. */
  function BankWord(cur: bv32, mask: bv32, value: bv32): (w: bv32)
    ensures w == Masked(cur, mask, value)
  {
    var tmp := cur & !mask;
    tmp | (mask & value)
  }

  lemma DistinctBits(a: nat, b: nat)
    requires a < 32 && b < 32 && a != b
    ensures Bit(a) & Bit(b) == 0
  {
  }

  /** Setting a line and reading it back gives the value written, for the
      0/1 values the GPIO core passes. */
  method SetThenGet(chip: Chip, offset: nat, v: bv32) returns (r: int)
    requires offset < NrPorts && (v == 0 || v == 1)
    modifies chip
    ensures r == v as int
  {
    chip.Set(offset, v);
    r := chip.Get(offset);
  }
}
