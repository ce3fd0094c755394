/** The reference semantics of the emulator core: one fetch/decode/execute step
    and the run loop, as functions on a value-level machine state. The `CPU`
    class in module `Cpu` is proved to follow them.

    Arithmetic follows the emulator's debug-build `u8`/`u16` semantics: an
    increment or decrement that would wrap does not wrap, it stops execution
    with a `Fault` naming what overflowed. */
module Isa {
  import opened Bits
  import opened Status
  import opened Mem

  /** Opcodes the core decodes. */
  const LdaImmediate: Byte := 0xA9
  const LdaZeroPage: Byte := 0xA5
  const LdaZeroPageX: Byte := 0xB5
  const JsrAbsolute: Byte := 0x20

  /** Where `reset` leaves the program counter: execution starts with the opcode
      stored at this address (no reset vector is read through it). */
  const ResetVector: Word := 0xFFFC

  /** Where `reset` leaves the stack pointer; the stack grows upward from it. */
  const StackBase: Word := 0x0100

  datatype Regs = Regs(pc: Word, sp: Word, a: Byte, x: Byte, y: Byte, ps: Flags)

  /** The register file right after `reset`. */
  const PowerOn: Regs := Regs(ResetVector, StackBase, 0, 0, 0, 0)

  datatype Machine = Machine(regs: Regs, mem: seq<Byte>)

  ghost predicate Valid(m: Machine)
  {
    |m.mem| == MAX_MEM
  }

  /** What would overflow or underflow in the emulator's native arithmetic. */
  datatype Fault =
    | PcOverflow        // `pc += 1` at 0xFFFF
    | CycleUnderflow    // `cycles -= n` with fewer than n cycles left
    | ZeroPageOverflow  // `zp_addr += x` beyond 0xFF
    | AddressOverflow   // `addr + 1` at 0xFFFF in the word store
    | StackOverflow     // `sp += 2` beyond 0xFFFF

  datatype StepResult = Stepped(m: Machine, cycles: Cycles) | Trapped(fault: Fault)

  datatype Outcome = Halted(m: Machine) | Panicked(fault: Fault)

  /** The documented cycle cost of each instruction, opcode fetch included. */
  function Cost(opcode: Byte): nat
  {
    if opcode == LdaImmediate then 2
    else if opcode == LdaZeroPage then 3
    else if opcode == LdaZeroPageX then 4
    else if opcode == JsrAbsolute then 6
    else 1
  }

  /** The opcode at the program counter. */
  function Opcode(m: Machine): Byte
    requires Valid(m)
  {
    m.mem[m.regs.pc]
  }

  /** What a step may change: the index registers stay, flags are only ever
      set, the stack pointer only grows, and memory changes only in the stack
      area between the old and the new stack pointer. */
  ghost predicate Evolves(m: Machine, m': Machine)
    requires Valid(m) && Valid(m')
  {
    && m'.regs.x == m.regs.x
    && m'.regs.y == m.regs.y
    && m'.regs.ps & m.regs.ps == m.regs.ps
    && m.regs.sp <= m'.regs.sp
    && forall i :: 0 <= i < MAX_MEM && !(m.regs.sp <= i < m'.regs.sp) ==> m'.mem[i] == m.mem[i]
  }

  /** The registers after loading `v` into the accumulator. */
  function Load(r: Regs, v: Byte): Regs
  {
    r.(a := v, ps := SetStatus(r.ps, v))
  }

  /** One iteration of the execute loop with `c > 0` cycles left: fetch an
      opcode and run its handler to completion. A step that completes charges
      exactly the instruction's cost; one that cannot be paid for traps. */
  function Step(m: Machine, c: Cycles): (r: StepResult)
    requires Valid(m) && c > 0
    ensures r.Stepped? ==> Valid(r.m) && r.cycles + Cost(Opcode(m)) == c
    ensures c >= Cost(Opcode(m)) ==> r != Trapped(CycleUnderflow)
  {
    var mem, regs := m.mem, m.regs;
    if regs.pc == 0xFFFF then Trapped(PcOverflow) else
    var opcode, pc, c := mem[regs.pc], regs.pc + 1, c - 1;
    if opcode == LdaImmediate then
      if pc == 0xFFFF then Trapped(PcOverflow)
      else if c < 1 then Trapped(CycleUnderflow)
      else Stepped(Machine(Load(regs.(pc := pc + 1), mem[pc]), mem), c - 1)
    else if opcode == LdaZeroPage then
      if pc == 0xFFFF then Trapped(PcOverflow)
      else if c < 1 then Trapped(CycleUnderflow)
      else
        var zp, c := mem[pc], c - 1;
        if c < 1 then Trapped(CycleUnderflow)
        else Stepped(Machine(Load(regs.(pc := pc + 1), mem[zp]), mem), c - 1)
    else if opcode == LdaZeroPageX then
      if pc == 0xFFFF then Trapped(PcOverflow)
      else if c < 1 then Trapped(CycleUnderflow)
      else
        var zp, c := mem[pc], c - 1;
        if zp + regs.x > 0xFF then Trapped(ZeroPageOverflow)
        else if c < 1 then Trapped(CycleUnderflow)
        else
          var c := c - 1;
          if c < 1 then Trapped(CycleUnderflow)
          else Stepped(Machine(Load(regs.(pc := pc + 1), mem[zp + regs.x]), mem), c - 1)
    else if opcode == JsrAbsolute then
      if pc >= 0xFFFE then Trapped(PcOverflow)
      else if c < 2 then Trapped(CycleUnderflow)
      else
        var target, pc, c := Join(mem[pc], mem[pc + 1]), pc + 2, c - 2;
        if regs.sp == 0xFFFF then Trapped(AddressOverflow)
        else if c < 2 then Trapped(CycleUnderflow)
        else
          var mem, c := StoreWord(mem, pc - 1, regs.sp), c - 2;
          if regs.sp > 0xFFFD then Trapped(StackOverflow)
          else if c < 1 then Trapped(CycleUnderflow)
          else Stepped(Machine(regs.(pc := target, sp := regs.sp + 2), mem), c - 1)
    else
      Stepped(Machine(regs.(pc := pc), mem), c)
  }

  /** The execute loop: step while cycles remain. */
  function Run(m: Machine, c: Cycles): (r: Outcome)
    requires Valid(m)
    ensures r.Halted? ==> Valid(r.m)
    decreases c
  {
    if c == 0 then Halted(m)
    else
      match Step(m, c)
      case Trapped(f) => Panicked(f)
      case Stepped(m', c') => Run(m', c')
  }

  /** Every completed step keeps what `Evolves` describes. */
  lemma StepEvolves(m: Machine, c: Cycles)
    requires Valid(m) && c > 0
    ensures Step(m, c).Stepped? ==> Evolves(m, Step(m, c).m)
  {
    var r := Step(m, c);
    if r.Stepped? {
      var sp := m.regs.sp;
      if Opcode(m) == JsrAbsolute {
        assert r.m.regs == m.regs.(pc := r.m.regs.pc, sp := sp + 2);
        assert forall i :: 0 <= i < MAX_MEM && i != sp && i != sp + 1 ==> r.m.mem[i] == m.mem[i];
      } else {
        assert r.m.mem == m.mem;
        assert r.m.regs == Load(m.regs.(pc := r.m.regs.pc), r.m.regs.a) || r.m.regs == m.regs.(pc := r.m.regs.pc);
      }
    }
  }

  lemma EvolvesTransitive(m1: Machine, m2: Machine, m3: Machine)
    requires Valid(m1) && Valid(m2) && Valid(m3)
    requires Evolves(m1, m2) && Evolves(m2, m3)
    ensures Evolves(m1, m3)
  {
  }

  /** A whole run keeps what every step keeps: X and Y never change, no flag is
      ever cleared, the stack only grows, and nothing outside the stack area it
      grew over is written. */
  lemma {:induction false} RunEvolves(m: Machine, c: Cycles)
    requires Valid(m)
    ensures Run(m, c).Halted? ==> Evolves(m, Run(m, c).m)
    decreases c
  {
    if c > 0 {
      match Step(m, c)
      case Trapped(_) =>
      case Stepped(m', c') =>
        StepEvolves(m, c);
        RunEvolves(m', c');
        if Run(m', c').Halted? {
          EvolvesTransitive(m, m', Run(m', c').m);
        }
    }
  }

  /** LDA #imm: 2 cycles, loads the operand byte and sets Z/N from it. */
  lemma LdaImmediateStep(m: Machine, c: Cycles)
    requires Valid(m) && Opcode(m) == LdaImmediate
    requires m.regs.pc < 0xFFFE && c >= 2
    ensures var operand := m.mem[m.regs.pc + 1];
      Step(m, c) == Stepped(Machine(Load(m.regs.(pc := m.regs.pc + 2), operand), m.mem), c - 2)
  {
  }

  /** LDA zp: 3 cycles, loads the byte at the zero-page address given by the operand. */
  lemma LdaZeroPageStep(m: Machine, c: Cycles)
    requires Valid(m) && Opcode(m) == LdaZeroPage
    requires m.regs.pc < 0xFFFE && c >= 3
    ensures var v := m.mem[m.mem[m.regs.pc + 1]];
      Step(m, c) == Stepped(Machine(Load(m.regs.(pc := m.regs.pc + 2), v), m.mem), c - 3)
  {
  }

  /** LDA zp,X: 4 cycles, loads the byte at operand + X when that stays in the
      zero page; beyond it the `u8` addition overflows. */
  lemma LdaZeroPageXStep(m: Machine, c: Cycles)
    requires Valid(m) && Opcode(m) == LdaZeroPageX
    requires m.regs.pc < 0xFFFE && c >= 4
    ensures var zp := m.mem[m.regs.pc + 1];
      Step(m, c) ==
        if zp + m.regs.x > 0xFF then Trapped(ZeroPageOverflow)
        else Stepped(Machine(Load(m.regs.(pc := m.regs.pc + 2), m.mem[zp + m.regs.x]), m.mem), c - 4)
  {
  }

  /** JSR abs: 6 cycles; jumps to the little-endian operand, stores the address
      of the instruction's last byte (the pc after it, minus one) little-endian
      at the stack pointer, and moves the stack pointer up by 2. */
  lemma JsrAbsoluteStep(m: Machine, c: Cycles)
    requires Valid(m) && Opcode(m) == JsrAbsolute
    requires m.regs.pc < 0xFFFD && m.regs.sp < 0xFFFE && c >= 6
    ensures var pc, sp := m.regs.pc, m.regs.sp;
      && Step(m, c).Stepped?
      && Step(m, c).cycles == c - 6
      && Step(m, c).m.regs == m.regs.(pc := Join(m.mem[pc + 1], m.mem[pc + 2]), sp := sp + 2)
      && Join(Step(m, c).m.mem[sp], Step(m, c).m.mem[sp + 1]) == (pc + 3) - 1
      && forall i :: 0 <= i < MAX_MEM && i != sp && i != sp + 1 ==> Step(m, c).m.mem[i] == m.mem[i]
  {
  }

  /** Any other opcode is skipped: 1 cycle, the pc moves past it, nothing else changes. */
  lemma UnknownOpcodeStep(m: Machine, c: Cycles)
    requires Valid(m) && Opcode(m) !in {LdaImmediate, LdaZeroPage, LdaZeroPageX, JsrAbsolute}
    requires m.regs.pc < 0xFFFF && c >= 1
    ensures Step(m, c) == Stepped(Machine(m.regs.(pc := m.regs.pc + 1), m.mem), c - 1)
  {
  }
}
