/** The processor: a register file updated in place, the fetch primitives that
    charge the cycle budget, and the execute loop, proved to follow `Isa.Run`. */
module Cpu {
  import opened Bits
  import opened Status
  import opened Mem
  import Isa

  datatype Option<T> = None | Some(value: T)

  class CPU {
    var pc: Word  // program counter
    var sp: Word  // stack pointer
    var a: Byte   // accumulator
    var x: Byte   // index register X
    var y: Byte   // index register Y
    var ps: Flags // processor status

    /** A default CPU: every register zero. */
    constructor ()
      ensures Regs() == Isa.Regs(0, 0, 0, 0, 0, 0)
    {
      pc, sp, a, x, y, ps := 0, 0, 0, 0, 0, 0;
    }

    function Regs(): Isa.Regs
      reads this
    {
      Isa.Regs(pc, sp, a, x, y, ps)
    }

    /** The machine state this CPU and `memory` stand for. */
    ghost function State(memory: Memory): (m: Isa.Machine)
      reads this, memory, memory.data
      requires memory.Valid()
      ensures Isa.Valid(m)
    {
      Isa.Machine(Regs(), memory.data[..])
    }

    /** Puts the registers in their power-on state and zeroes memory. */
    method Reset(memory: Memory)
      requires memory.Valid()
      modifies this, memory.data
      ensures Regs() == Isa.PowerOn
      ensures memory.data[..] == Zeroed()
    {
      pc := Isa.ResetVector;
      sp := Isa.StackBase;
      a, x, y, ps := 0, 0, 0, 0;
      memory.Initialize();
    }

    /** Reads the byte at the program counter, advances the program counter by
        one and charges one cycle. Memory is not changed. */
    method FetchByte(cycles: Cycles, memory: Memory) returns (data: Byte, remaining: Cycles)
      requires memory.Valid()
      requires pc < 0xFFFF && cycles >= 1
      modifies this`pc
      ensures data == memory.data[old(pc)]
      ensures pc == old(pc) + 1 && remaining == cycles - 1
    {
      data := memory.data[pc];
      pc := pc + 1;
      remaining := cycles - 1;
    }

    /** Reads the little-endian word at the program counter, advances the
        program counter by two and charges two cycles. Memory is not changed. */
    method FetchWord(cycles: Cycles, memory: Memory) returns (data: Word, remaining: Cycles)
      requires memory.Valid()
      requires pc < 0xFFFE && cycles >= 2
      modifies this`pc
      ensures Lo(data) == memory.data[old(pc)] && Hi(data) == memory.data[old(pc) + 1]
      ensures pc == old(pc) + 2 && remaining == cycles - 2
    {
      var lo := memory.data[pc];
      pc := pc + 1;
      var hi := memory.data[pc];
      data := Join(lo, hi);
      pc := pc + 1;
      remaining := cycles - 2;
    }

    /** Reads the byte at a zero-page address and charges one cycle; neither
        the registers nor memory change. */
    method ReadByte(cycles: Cycles, memory: Memory, addr: Byte) returns (data: Byte, remaining: Cycles)
      requires memory.Valid()
      requires cycles >= 1
      ensures data == memory.data[addr] && remaining + 1 == cycles
    {
      data := memory.data[addr];
      remaining := cycles - 1;
    }

    /** Sets Z and N from the accumulator, by OR-ing them into the status. */
    method LdaSetStatus()
      modifies this`ps
      ensures ps == SetStatus(old(ps), a)
    {
      if a == 0 {
        ps := ps | Z;
      }
      if Bit7(a) {
        ps := ps | N;
      }
    }

    /** Runs instructions while the budget is positive. The result is `None`
        when the budget ran out, with the registers and memory as `Isa.Run`
        predicts; it is `Some(f)` when an instruction would have overflowed
        or underflowed a counter, which `Isa.Run` predicts as `Panicked(f)`. */
    method Execute(budget: Cycles, memory: Memory) returns (fault: Option<Isa.Fault>)
      requires memory.Valid()
      modifies this, memory.data
      ensures Isa.Run(old(State(memory)), budget) ==
        if fault.Some? then Isa.Panicked(fault.value) else Isa.Halted(State(memory))
    {
      var cycles := budget;
      while cycles > 0
        invariant Isa.Run(State(memory), cycles) == Isa.Run(old(State(memory)), budget)
        decreases cycles
      {
        ghost var before, c0 := State(memory), cycles;
        if pc == 0xFFFF {
          return Some(Isa.PcOverflow);
        }
        var opcode;
        opcode, cycles := FetchByte(cycles, memory);
        if opcode == Isa.LdaImmediate {
          if pc == 0xFFFF {
            return Some(Isa.PcOverflow);
          }
          if cycles < 1 {
            return Some(Isa.CycleUnderflow);
          }
          a, cycles := FetchByte(cycles, memory);
          LdaSetStatus();
        } else if opcode == Isa.LdaZeroPage {
          if pc == 0xFFFF {
            return Some(Isa.PcOverflow);
          }
          if cycles < 1 {
            return Some(Isa.CycleUnderflow);
          }
          var zpAddr;
          zpAddr, cycles := FetchByte(cycles, memory);
          if cycles < 1 {
            return Some(Isa.CycleUnderflow);
          }
          a, cycles := ReadByte(cycles, memory, zpAddr);
          LdaSetStatus();
        } else if opcode == Isa.LdaZeroPageX {
          if pc == 0xFFFF {
            return Some(Isa.PcOverflow);
          }
          if cycles < 1 {
            return Some(Isa.CycleUnderflow);
          }
          var zpAddr;
          zpAddr, cycles := FetchByte(cycles, memory);
          if zpAddr + x > 0xFF {
            return Some(Isa.ZeroPageOverflow);
          }
          zpAddr := zpAddr + x;
          if cycles < 1 {
            return Some(Isa.CycleUnderflow);
          }
          cycles := cycles - 1;
          if cycles < 1 {
            return Some(Isa.CycleUnderflow);
          }
          a, cycles := ReadByte(cycles, memory, zpAddr);
          LdaSetStatus();
        } else if opcode == Isa.JsrAbsolute {
          if pc >= 0xFFFE {
            return Some(Isa.PcOverflow);
          }
          if cycles < 2 {
            return Some(Isa.CycleUnderflow);
          }
          var subAddr;
          subAddr, cycles := FetchWord(cycles, memory);
          if sp == 0xFFFF {
            return Some(Isa.AddressOverflow);
          }
          if cycles < 2 {
            return Some(Isa.CycleUnderflow);
          }
          cycles := memory.WriteWord(cycles, pc - 1, sp);
          if sp > 0xFFFD {
            return Some(Isa.StackOverflow);
          }
          sp := sp + 2;
          pc := subAddr;
          if cycles < 1 {
            return Some(Isa.CycleUnderflow);
          }
          cycles := cycles - 1;
        }
        assert Isa.Step(before, c0) == Isa.Stepped(State(memory), cycles);
      }
      fault := None;
    }
  }
}
