/** The program that the emulator's entry point assembles and runs: at the
    reset address a JSR to 0x4242, and there an LDA #0x84, run on a budget of
    8 cycles (6 for the JSR, 2 for the LDA). */
module Scenario {
  import opened Bits
  import opened Status
  import opened Mem
  import opened Isa
  import Cpu

  /** Memory after reset and after the entry point stores the program. */
  function InlinedImage(): (s: seq<Byte>)
    ensures |s| == MAX_MEM
  {
    Zeroed()[0xFFFC := JsrAbsolute][0xFFFD := 0x42][0xFFFE := 0x42]
            [0x4242 := LdaImmediate][0x4243 := 0x84]
  }

  /** The inlined program ends with pc just past the LDA, the stack pointer
      moved up by 2, 0x84 in the accumulator with N set and Z clear, and the
      return address 0xFFFE (the JSR's last byte) stored little-endian at 0x0100. */
  lemma InlinedProgramRun()
    ensures Run(Machine(PowerOn, InlinedImage()), 8) ==
      Halted(Machine(Regs(0x4244, 0x0102, 0x84, 0, 0, N), StoreWord(InlinedImage(), 0xFFFE, 0x0100)))
  {
    var m0 := Machine(PowerOn, InlinedImage());
    assert Opcode(m0) == JsrAbsolute;
    JsrAbsoluteStep(m0, 8);
    var m1 := Machine(Regs(0x4242, 0x0102, 0, 0, 0, 0), StoreWord(InlinedImage(), 0xFFFE, 0x0100));
    assert Step(m0, 8).m.mem == m1.mem;
    assert Step(m0, 8) == Stepped(m1, 2);
    assert Opcode(m1) == LdaImmediate && m1.mem[0x4243] == 0x84;
    LdaImmediateStep(m1, 2);
    assert Step(m1, 2) == Stepped(Machine(Regs(0x4244, 0x0102, 0x84, 0, 0, N), m1.mem), 0);
  }

  /** A load of zero at the reset address on a budget of 2: A is 0, Z set, N clear. */
  lemma LoadZeroRun()
    ensures var image := Zeroed()[0xFFFC := LdaImmediate][0xFFFD := 0x00];
      Run(Machine(PowerOn, image), 2) == Halted(Machine(PowerOn.(pc := 0xFFFE, ps := Z), image))
  {
    var image := Zeroed()[0xFFFC := LdaImmediate][0xFFFD := 0x00];
    LdaImmediateStep(Machine(PowerOn, image), 2);
  }

  /** One cycle spent on an opcode the core does not know moves pc past it and nothing else. */
  lemma UnknownOpcodeRun(opcode: Byte)
    requires opcode !in {LdaImmediate, LdaZeroPage, LdaZeroPageX, JsrAbsolute}
    ensures var image := Zeroed()[0xFFFC := opcode];
      Run(Machine(PowerOn, image), 1) == Halted(Machine(PowerOn.(pc := 0xFFFD), image))
  {
    var image := Zeroed()[0xFFFC := opcode];
    UnknownOpcodeStep(Machine(PowerOn, image), 1);
  }

  /** The entry point: reset, store the program, execute 8 cycles, and report
      the registers and the word stored at the old stack pointer. */
  method RunInlinedProgram() returns (fault: Cpu.Option<Fault>, pc: Word, sp: Word, a: Byte, x: Byte, y: Byte, ps: Flags, stacked: Word)
    ensures fault == Cpu.None
    ensures pc == 0x4244 && sp == 0x0102 && a == 0x84 && x == 0 && y == 0
    ensures ps == N && NegativeSet(ps) && !ZeroSet(ps)
    ensures stacked == 0xFFFE
  {
    var memory := new Memory();
    var cpu := new Cpu.CPU();
    cpu.Reset(memory);
    memory.data[0xFFFC] := JsrAbsolute;
    memory.data[0xFFFD] := 0x42;
    memory.data[0xFFFE] := 0x42;
    memory.data[0x4242] := LdaImmediate;
    memory.data[0x4243] := 0x84;
    assert memory.data[..] == InlinedImage();
    assert cpu.State(memory) == Machine(PowerOn, InlinedImage());
    InlinedProgramRun();
    fault := cpu.Execute(8, memory);
    pc, sp, a, x, y, ps := cpu.pc, cpu.sp, cpu.a, cpu.x, cpu.y, cpu.ps;
    stacked := Join(memory.data[0x0100], memory.data[0x0101]);
  }
}
