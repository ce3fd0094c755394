# rusty_6502 core, modelled in Dafny

A model of a small cycle-counted MOS 6502 emulator. It has 64 KiB of byte
memory and a register file: program counter, stack pointer, accumulator, X, Y
and processor status. `reset` puts the registers in a fixed state and zeroes
memory. An execute loop fetches an opcode while its `u8` cycle budget is
positive and runs the handler. It decodes four instructions: LDA immediate,
LDA zero page, LDA zero page,X and JSR absolute. Every memory access charges
the budget.

Modules:

- `Bits` (bits.dfy): bytes and words as bounded integers, and little-endian
  split and join.
- `Status` (status.dfy): the status register as a `bv8` bit field, the Z and
  N flags, and the flag update done after a load.
- `Mem` (memory.dfy): the `Memory` class over a 65536-cell `array`, with its
  initialisation and word store. `StoreWord` is the value-level word store.
- `Isa` (isa.dfy): the reference semantics. `Step` is one loop iteration and
  `Run` is the whole loop, both as functions on a value-level machine. It also
  holds per-instruction lemmas and the invariant `Evolves` that every run
  keeps.
- `Cpu` (cpu.dfy): the `CPU` class. Its fields are updated in place. It has
  the fetch primitives, `LdaSetStatus` and `Execute`. `Execute` is proved to
  end in the state `Isa.Run` predicts.
- `Scenario` (scenario.dfy): the program that the emulator's `main`
  assembles, run both through `Isa.Run` and through the `CPU` class.

### Overflow policy

The emulator's arithmetic is native `u8`/`u16`. A debug build panics on
wrap-around, and the model follows that semantics. Wrap-around can happen at
five places:

- `pc += 1` at 0xFFFF;
- `addr + 1` in `write_word` at 0xFFFF;
- `cycles -= n` with fewer than `n` cycles left;
- `zp_addr += x` beyond 0xFF;
- `sp += 2` beyond 0xFFFF (src/main.rs:140).

The subtraction `pc - 1` in JSR (src/main.rs:139) cannot wrap: pc is at
least 3 once the operand word has been fetched.

The primitives (`FetchByte`, `FetchWord`, `ReadByte`, `WriteWord`) take
`requires` clauses that exclude the wrap. `Execute` checks the same
conditions in the source's order before each primitive. When one fails it
stops and returns `Some(fault)`, where the fault names what would have
wrapped. `Isa.Step` and `Isa.Run` predict this as `Trapped` and `Panicked`.
Nothing wraps silently.

### Decisions about the code's behaviour

- No reset vector is read. `reset` sets pc to 0xFFFC, and the first opcode
  executed is the byte stored at 0xFFFC itself.
- `addr + 1` in `write_word` is `u16` arithmetic. At 0xFFFF it panics in a
  debug build, and it is modelled as the fault `AddressOverflow`.
- The cycle budget is a `u8`. An instruction that needs more cycles than
  remain panics on the subtraction, and it is modelled as the fault
  `CycleUnderflow`.
- The stack pointer is a 16-bit address. It starts at 0x0100 and grows upward
  by 2 per JSR.
- LDA zero page,X does not wrap within the zero page. A sum above 0xFF is the
  fault `ZeroPageOverflow`.

## Model

| member | source | states |
|---|---|---|
| `Bits.Join` | src/main.rs:98-109 | the little-endian word built from a low and a high byte splits back into exactly those two bytes |
| `Bits.SplitJoin` | src/main.rs:26-30 | joining the low and high byte of any word gives the word back |
| `Status.SetStatus` | src/main.rs:148-151 | after a load, Z is set iff the value is 0 or Z was set; N is set iff bit 7 of the value is 1 or N was set; no other bit changes; no set bit is cleared |
| `Mem.Zeroed` | src/main.rs:21-23 | the initialised memory has 65536 cells, all zero |
| `Mem.StoreWord` | src/main.rs:26-30 | after a word store at addr (addr < 0xFFFF), the bytes at addr and addr+1 rejoin little-endian to the stored value, and every other cell is unchanged |
| `Mem.Memory.constructor` | src/main.rs:12-18 | a default memory is 65536 zero cells |
| `Mem.Memory.Initialize` | src/main.rs:21-23 | every cell is zero afterwards |
| `Mem.Memory.WriteWord` | src/main.rs:26-30 | memory becomes `StoreWord` of the old memory, and the budget drops by exactly 2 |
| `Isa.Step` | src/main.rs:120-145 | a completed iteration charges exactly the instruction's cost (LDA# 2, LDA zp 3, LDA zp,X 4, JSR 6, anything else 1); a budget that covers the cost never underflows |
| `Isa.Run` | src/main.rs:118-146 | the loop steps while cycles remain and terminates because every step lowers the budget by its cost (at least 1); a halted run still has a 64 KiB memory |
| `Isa.StepEvolves` | src/main.rs:121-144 | one completed instruction keeps X and Y, clears no flag, never lowers sp, and writes memory only in [old sp, new sp) |
| `Isa.RunEvolves` | src/main.rs:118-146 | a whole halted run keeps the same invariant: X and Y unchanged, flags only accumulate, the stack only grows, and memory outside the area the stack grew over is untouched |
| `Isa.LdaImmediateStep` | src/main.rs:122-125 | LDA# consumes 2 cycles, loads the operand byte, advances pc by 2, updates flags from the value, and leaves x, y, sp and memory alone |
| `Isa.LdaZeroPageStep` | src/main.rs:126-130 | LDA zp consumes 3 cycles and loads mem[operand], leaving x, y, sp and memory alone |
| `Isa.LdaZeroPageXStep` | src/main.rs:131-136 | LDA zp,X consumes 4 cycles and loads mem[operand + x], or faults when operand + x exceeds 0xFF |
| `Isa.JsrAbsoluteStep` | src/main.rs:137-142 | JSR consumes 6 cycles; the new pc is the little-endian target; sp grows by 2; the old sp and sp+1 hold (pc after the 3-byte instruction) − 1 little-endian; a, x, y and ps are unchanged; no other cell changes |
| `Isa.UnknownOpcodeStep` | src/main.rs:143 | an unknown opcode costs 1 cycle and advances pc by 1; registers other than pc, and memory, are unchanged |
| `Cpu.CPU.constructor` | src/main.rs:68-76 | a default CPU has every register zero |
| `Cpu.CPU.Reset` | src/main.rs:79-88 | afterwards pc = 0xFFFC, sp = 0x0100, a = x = y = ps = 0, and all 65536 cells are zero |
| `Cpu.CPU.FetchByte` | src/main.rs:90-96 | returns mem[pc]; pc grows by 1; the budget drops by 1; memory is unchanged |
| `Cpu.CPU.FetchWord` | src/main.rs:98-109 | returns the word whose low byte is mem[pc] and high byte mem[pc+1]; pc grows by 2; the budget drops by 2; memory is unchanged |
| `Cpu.CPU.ReadByte` | src/main.rs:111-116 | returns mem[addr] for a zero-page address, and the budget drops by 1; registers and memory are unchanged |
| `Cpu.CPU.LdaSetStatus` | src/main.rs:148-151 | the new status is `SetStatus` of the old status and the accumulator |
| `Cpu.CPU.Execute` | src/main.rs:118-146 | the final registers and memory are what `Isa.Run` of the initial state and budget predicts, or the fault it predicts is returned |
| `Scenario.InlinedProgramRun` | src/main.rs:158-169 | the inlined program on 8 cycles ends with pc = 0x4244, sp = 0x0102, a = 0x84, N set, Z clear, and 0xFFFE stored little-endian at 0x0100 |
| `Scenario.RunInlinedProgram` | src/main.rs:154-172 | running the entry point's setup through the `CPU` class raises no fault and ends with pc = 0x4244, sp = 0x0102, a = 0x84, x = y = 0, ps = N (N set, Z clear), and 0xFFFE stacked little-endian at 0x0100 |
| `Scenario.LoadZeroRun` | src/main.rs:122-125 | LDA #0 at the reset address on 2 cycles leaves a = 0, sets Z and leaves N clear |
| `Scenario.UnknownOpcodeRun` | src/main.rs:143 | one cycle on an unknown opcode at the reset address only advances pc by 1 |

## Left out

- Console output: the diagnostic printed for an unhandled opcode is not
  modelled, and that case does nothing beyond the opcode fetch. `dbg!(cpu)` at
  the end of `main` is not modelled either.
- Trait plumbing: the `Debug` derives are left out. The `Default` derives are
  the two constructors. The `Index`/`IndexMut` implementations (a `u16` to
  `usize` cast) are direct array access.
- The flag constants C, I, D, B and V are commented out in the source and not
  used, so they are not modelled.
- Release-build wrap-around is not modelled. Every place it could happen is a
  fault instead (see the overflow policy above).
- The state after a fault is not specified, because the emulator's process
  aborts on a panic. A panicking `write_word` has already stored its first
  byte, and the model does not say so.
- Real 6502 behaviour that the code does not implement is not modelled:
  reading the reset vector, an 8-bit downward stack, zero-page wrap for ZP,X,
  decimal mode, interrupts and the remaining opcodes.
