# LS-8 emulator core, modelled in Dafny

This project models the fetch–decode–execute core of the LS-8 emulator in
`ls8/cpu.py`. The LS-8 is an 8-bit teaching machine with 256 RAM cells,
eight registers (R7 booted to 0xF4), a program counter and a flags register.

The model is functional. A `Machine.State` holds the attributes
`CPU.__init__` creates: `ram`, `registers`, `pc`, `ir`, `fl` and the optional
ALU table. The handlers `hlt`, `ldi`, `mul` and `prn`, and the method `alu`,
are pure functions. Each returns a `PyRuntime.Result`, so every exception the
Python code can raise is an explicit error value.

`Control.Cycle` is one iteration of `run`'s loop:

1. fetch `ram[pc]`;
2. look it up in the dispatch dict;
3. call the handler;
4. advance pc by `(opcode >> 6) + 1`, re-reading the opcode at pc.

The result is `Running`, `Halted` or `Faulted`. `Control.Run` repeats the
cycle for at most `fuel` iterations. `Control.RunCpu` is the whole of `run`:
load the image, build the dict, loop.

The model follows the code as written, not an idealised LS-8:

- Cells and registers are unbounded Python integers. `ldi` stores whatever the
  image holds, and ADD and MUL are not reduced modulo 256, although the LS-8
  is an 8-bit machine.
- Subscripts follow Python list indexing. A negative index designates a cell
  counted back from the end. An index outside the list raises IndexError.
  So negative register numbers and addresses alias instead of failing.
- Python evaluates the right-hand side of an assignment before its
  subscript. So `ldi` fetches the immediate at `pc+2` before the register
  number at `pc+1`, and the model does the same.
- The dispatch dict `run` builds holds only HLT (0x01) and LDI (0x82). MUL
  (0xA2) is reachable only through the separate dict that `build_alu_ops`
  stores, and `run` never calls it. Under the main table, a MUL byte raises
  KeyError (`Programs.MultiplyFaultsOnMul`).
- Line 95 binds HLT to `self.halt`, but the method is named `hlt`
  (line 35). As written, `run` therefore raises AttributeError while building
  the dict, before the first cycle. This is modelled (see Findings). The rest
  of the model uses the evident intent, HLT bound to `hlt`.
- `load` parses every line with `int(line[:8], 2)`, so a blank or `#` line
  raises ValueError. Parsing is outside the model (see Left out).
- `prn(self, op)` is a method of the class but takes an operand, while `run`
  calls handlers with no argument. A display may bind it, but dispatching to
  it raises TypeError (`RunLaws.PrnBindsButRaises`).

## Model

| member | source | states |
|---|---|---|
| Machine.Boot | ls8/cpu.py:9-18 | booting yields 256 zero RAM cells, registers R0–R6 zero and R7 = 0xF4, pc, ir and fl zero, and no ALU table |
| Machine.RamWrite | ls8/cpu.py:23-24 | `ram_write` succeeds exactly for addresses Python can subscript, raises IndexError with that address otherwise, and changes nothing but RAM, whose size it keeps |
| Machine.RamRead | ls8/cpu.py:20-21 | `ram_read` returns the cell an address designates, counting back from the end for a negative address, and raises IndexError with that address exactly when Python cannot subscript it |
| MachineLaws.ReadAfterWrite | ls8/cpu.py:20-24 | `ram_read(a)` after `ram_write(a, v)` yields `v`, and every cell designated by another address reads as before |
| MachineLaws.WriteFailsIffReadFails | ls8/cpu.py:20-24 | `ram_write` raises at an address exactly when `ram_read` does, with the same IndexError |
| MachineLaws.WriteBackIsIdentity | ls8/cpu.py:20-24 | writing back the value just read leaves the state unchanged |
| MachineLaws.LastWriteWins | ls8/cpu.py:23-24 | of two writes to one address only the second is visible |
| MachineLaws.NegativeAddressAliases | ls8/cpu.py:20-21 | reading address `-k` reads cell `256 - k`, as Python list indexing does |
| Machine.Load | ls8/cpu.py:32-33 | loading puts program byte `a` at address `a`, leaves the cells past the program and all other attributes unchanged, and raises IndexError at address 256 exactly when the program is longer than RAM |
| Machine.LoadFrom | ls8/cpu.py:32-33 | the remaining iterations of the load loop write their bytes in place and nothing else, or raise IndexError at the end of RAM |
| MachineLaws.LoadIntoBoot | ls8/cpu.py:32-33 | loading into freshly booted RAM yields exactly the image followed by zeros; a longer image raises IndexError at 256 |
| Machine.ExecHlt | ls8/cpu.py:35-36 | `hlt` never raises, returns False and changes nothing |
| Machine.ExecLdi | ls8/cpu.py:43-47 | `ldi` succeeds exactly when `pc+1`, `pc+2` and the register number are in range; it sets register `ram[pc+1]` to `ram[pc+2]`, changes no other register, leaves RAM and pc alone, and returns True; with `pc+2` out of range it raises IndexError for that address |
| Machine.ExecMul | ls8/cpu.py:49-55 | `mul` succeeds exactly when both operand addresses and both register numbers are in range; it sets `reg[a]` to the unbounded product `reg[a] * reg[b]`, changes nothing else, and returns True |
| Machine.Execute | ls8/cpu.py:35-55 | every handler leaves RAM, pc, ir, fl and the ALU table untouched and keeps eight registers; it returns False exactly for `hlt`, which never raises; calling `prn` with no argument raises TypeError |
| Machine.Alu | ls8/cpu.py:60-70 | `alu("ADD", a, b)` makes `reg[a]` the sum and `"MUL"` the product, changing no other register; any other operation raises the ALU error and changes nothing; out-of-range register numbers raise IndexError |
| MachineLaws.MulIsAluMul | ls8/cpu.py:49-68 | the `mul` handler behaves exactly as `alu("MUL", ram[pc+1], ram[pc+2])` followed by returning True, failing in the same cases |
| MachineLaws.LdiThenAddDoubles | ls8/cpu.py:43-66 | `ldi r, v` followed by `alu("ADD", r, r)` leaves `2 * v` in `r` and every other register as before the load |
| MachineLaws.HandlersPreserveValid | ls8/cpu.py:35-55 | no handler changes the 256-cell RAM or the 8-register file size |
| Control.ResolveHandler | ls8/cpu.py:58 | a `self.<name>` lookup that fails raises AttributeError naming the attribute |
| Control.ResolvesHandlerNames | ls8/cpu.py:35-55 | a name resolves exactly when it is one of the handler methods `hlt`, `ldi`, `mul`, `prn`, and then to the handler defined under that name |
| Control.ResolvesOwnName | ls8/cpu.py:35-55 | every handler is found under the name it is defined with |
| Control.BuildFrom | ls8/cpu.py:95-96 | a dict display builds exactly when every name lookup succeeds; the error is that of the first lookup that fails; the keys are the listed opcodes, each bound to the handler of its last entry, and earlier bindings of unlisted keys are kept |
| Control.BuildTable | ls8/cpu.py:95-96 | a display over the CPU's attributes builds exactly when every name is a handler method, and otherwise raises AttributeError |
| Control.AluTableBuilds | ls8/cpu.py:57-58 | the `build_alu_ops` display evaluates to {0xA2: mul} |
| Control.BuildAluOps | ls8/cpu.py:57-58 | `build_alu_ops` stores the dict its display evaluates to and changes nothing else |
| Control.WrittenTableFails | ls8/cpu.py:95-96 | the run table as written raises AttributeError for `halt` |
| Control.IntendedTableBuilds | ls8/cpu.py:95-96 | with HLT bound to `hlt`, the run table is exactly {0x01: hlt, 0x82: ldi} |
| PyRuntime.ShiftRight6 | ls8/cpu.py:102 | Python's `x >> 6` on an unbounded integer is division by 64 rounded towards minus infinity |
| Control.Advance | ls8/cpu.py:102 | the pc step of a byte opcode is its top two bits (as an 8-bit shift) plus one, so it lies in 1..4; it is positive for every non-negative opcode |
| Control.Cycle | ls8/cpu.py:100-102 | a cycle changes at most the registers and pc, and keeps the register file's size |
| Control.CycleSpec | ls8/cpu.py:101-102 | a cycle raises exactly when pc is out of range (IndexError), the opcode is not in the table (KeyError) or the handler raises, and then leaves the state unchanged; it halts exactly when the opcode is bound to `hlt`; otherwise pc advances by the step of the opcode fetched before the handler ran, since the handler cannot change the re-read byte |
| Control.Loop | ls8/cpu.py:98-102 | iterating a step that keeps RAM, ir, fl and the ALU table keeps them too, however many steps run |
| Control.Run | ls8/cpu.py:98-102 | `run`'s loop never writes RAM, ir, fl or the ALU table and keeps the register file's size |
| Control.RunCpu | ls8/cpu.py:92-102 | `run` raises IndexError while loading a program longer than RAM, otherwise reaches its loop exactly when every handler name in the display resolves, and the loop ends with the loaded RAM image |
| RunLaws.LoopUnfold | ls8/cpu.py:100-102 | a loop with fuel executes one step and continues from its outcome |
| RunLaws.LoopSplit | ls8/cpu.py:100-102 | running `a + b` cycles is running `a` cycles and then, if still running, `b` more |
| RunLaws.LoopOneMore | ls8/cpu.py:100-102 | one more unit of fuel executes exactly one more cycle unless the loop has already stopped |
| RunLaws.StopIsFinal | ls8/cpu.py:98-101 | after HLT or an exception no further cycle executes, whatever the remaining fuel |
| RunLaws.StopsAtFirstStoppingStep | ls8/cpu.py:98-101 | the loop ends with a given halt or fault exactly when some cycle within the fuel started from a running state and produced it |
| RunLaws.RunningThroughout | ls8/cpu.py:100-101 | a loop still running after `n` cycles was running after every earlier cycle |
| RunLaws.UnknownOpcodeAborts | ls8/cpu.py:101 | an opcode missing from the dispatch dict raises KeyError on the spot, changes nothing and ends the run |
| RunLaws.PrnBindsButRaises | ls8/cpu.py:38-41 | a display binding `prn` builds, but dispatching to it raises TypeError, changes nothing and ends the run |
| RunLaws.LoopStops | ls8/cpu.py:100-102 | a loop whose steps move pc strictly forward from inside RAM halts or raises within `|ram| - pc + 1` steps |
| RunLaws.CyclesProgress | ls8/cpu.py:101-102 | with non-negative opcodes in the table, every cycle that continues from a non-negative pc started inside RAM and moved pc forward |
| RunLaws.RunStops | ls8/cpu.py:100-102 | with non-negative opcodes in the table, from pc at most 256 the loop halts or raises within `256 - pc + 1` cycles |
| RunLaws.MainRunStopsFromBoot | ls8/cpu.py:92-102 | with the run table, every program loaded at boot halts or raises within 257 cycles |
| RunLaws.MainCycleCases | ls8/cpu.py:95-102 | under {HLT, LDI}: HLT halts with pc + 1 and nothing else changed; LDI sets one register and advances pc by 3, or raises leaving the state as it was; every other opcode, MUL included, raises KeyError with the state unchanged |
| RunLaws.AluTableCycle | ls8/cpu.py:49-58 | dispatching MUL through the table `build_alu_ops` stores multiplies `reg[ram[pc+1]]` by `reg[ram[pc+2]]`, changes no other register and advances pc by 3 |
| RunLaws.HaltedJustPastHlt | ls8/cpu.py:101-102 | a run that halted leaves pc one past a HLT byte: the final HLT advances pc too |
| RunLaws.AsWrittenNeverRuns | ls8/cpu.py:92-96 | `run` as written never executes a cycle: it raises AttributeError for `halt`, or IndexError while loading an oversized program |
| RunLaws.IntendedReachesLoop | ls8/cpu.py:92-100 | with HLT bound to `hlt`, a program that fits is loaded and then looped over with the run table |
| Programs.TwoLoads | ls8/cpu.py:43-47 | an image starting LDI R0,8; LDI R1,9 has R0 = 8, R1 = 9, the other registers as booted and pc = 6 after two cycles |
| Programs.LoadTwoHalts | ls8/cpu.py:92-102 | LDI R0,8; LDI R1,9; HLT halts after three cycles with R0 = 8, R1 = 9, the other registers as booted, RAM holding the image and pc = 7 |
| Programs.MultiplyFaultsOnMul | ls8/cpu.py:95-101 | LDI R0,8; LDI R1,9; MUL R0,R1; PRN R0; HLT raises KeyError on the MUL byte, leaving pc = 6 with the two loads done |

## Left out

- `load`'s file handling and parsing (ls8/cpu.py:26-31 and the `int(line[:8], 2)` of line 33): it reads `sys.argv[1]`, opens the file and parses text. `Machine.Load` takes the already-parsed values instead.
- The printing in `prn` (ls8/cpu.py:38-41) and `trace` (ls8/cpu.py:72-90). `prn` is in no dispatch table and is modelled only as a handler that cannot be called without its operand. `trace` refers to an attribute `reg` the class does not define.
- Control.ResolveHandler: resolves only the handler methods `hlt`, `ldi`, `mul` and `prn`. The class's other attributes (`alu`, `load`, `trace`, `ram_read`, `ram_write`, `build_alu_ops`, `run` and the data attributes) count as missing, because no display in the code names them and binding them would need their call signatures too.
- `sys.exit()` (ls8/cpu.py:104): process termination after the loop.
- The unbounded `while running` loop: `Control.Run` takes a fuel bound. `RunLaws.MainRunStopsFromBoot` shows 257 cycles always suffice for the run table, so the bound loses no behaviour there.
- Exception payloads: the messages Python attaches to IndexError, KeyError and AttributeError are not modelled, only the kind and the offending index, key or name.
- The stack, CALL/RET/JMP, interrupts, IRET, PUSH/POP, ST, PRA and the flags semantics: none of them exists in the code. Only R7's boot value hints at a stack.
- `cimp/cpu.c`: an unfinished C skeleton with an empty `switch` and an `ldi` without a body or return. It has no behaviour to model.

## Findings

| source | as written | input that shows it | evidently intended | confidence | as-written member | corrected member |
|---|---|---|---|---|---|---|
| ls8/cpu.py:95 | the run table binds HLT to `self.halt`, which the class does not define (the handler is `hlt`, line 35) | any program of at most 256 bytes: `run` raises AttributeError for `halt` before the first cycle | HLT dispatches to `hlt` | high; not executed | RunLaws.AsWrittenNeverRuns | Control.IntendedTableBuilds |
