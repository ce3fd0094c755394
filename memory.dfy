/** The 64 KiB byte-addressable memory of the emulator. */
module Mem {
  import opened Bits

  /** Capacity in bytes: 1024 * 64. */
  const MAX_MEM: nat := 1024 * 64

  /** The cycle budget is the emulator's `u8` counter. */
  type Cycles = n: int | 0 <= n < 0x100

  /** The contents of a freshly initialised memory. */
  function Zeroed(): (s: seq<Byte>)
    ensures |s| == MAX_MEM
    ensures forall i :: 0 <= i < MAX_MEM ==> s[i] == 0
  {
    seq(MAX_MEM, _ => 0)
  }

  /** The memory contents after a little-endian word store at `addr`.
      `addr + 1` must not leave the 16-bit address space. */
  function StoreWord(mem: seq<Byte>, value: Word, addr: Word): (r: seq<Byte>)
    requires |mem| == MAX_MEM && addr < 0xFFFF
    ensures |r| == MAX_MEM
    ensures Join(r[addr], r[addr + 1]) == value
    ensures forall i :: 0 <= i < MAX_MEM && i != addr && i != addr + 1 ==> r[i] == mem[i]
  {
    mem[addr := Lo(value)][addr + 1 := Hi(value)]
  }

  class Memory {
    const data: array<Byte>

    ghost predicate Valid()
      reads this
    {
      data.Length == MAX_MEM
    }

    /** A default memory: every cell zero. */
    constructor ()
      ensures Valid() && fresh(data)
      ensures data[..] == Zeroed()
    {
      data := new Byte[MAX_MEM](_ => 0);
    }

    /** Overwrites every cell with zero. */
    method Initialize()
      requires Valid()
      modifies data
      ensures data[..] == Zeroed()
    {
      forall i | 0 <= i < data.Length {
        data[i] := 0;
      }
    }

    /** Stores `value` little-endian at `addr` and `addr + 1` and charges
        2 cycles. The caller must rule out a wrapping `addr + 1` and a budget
        of fewer than 2 cycles. */
    method WriteWord(cycles: Cycles, value: Word, addr: Word) returns (remaining: Cycles)
      requires Valid()
      requires addr < 0xFFFF
      requires cycles >= 2
      modifies data
      ensures data[..] == StoreWord(old(data[..]), value, addr)
      ensures remaining == cycles - 2
    {
      data[addr] := Lo(value);
      data[addr + 1] := Hi(value);
      remaining := cycles - 2;
    }
  }
}
