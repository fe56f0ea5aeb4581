# Five-stage pipeline simulator: a verified model of the stepping engine

The C++ simulator steps a five-stage in-order pipeline (IF, ID, EX, MEM, WB) one
clock cycle at a time. It runs a tiny instruction set given as text lines:
`add rd, rs1, rs2`, `lw rd, imm(rs1)`, `sw rs2, imm(rs1)` and `beq rs1, rs2, imm`.
This project models the `Pipeline` class (`docs/pipeline.h`, `docs/pipeline.cpp`)
in Dafny and proves what it does.

- `wrappers.dfy`: module `Wrappers`, an `Option` type.
- `lexing.dfy`: module `Lexing`.
  - Splitting a line into whitespace-separated tokens, as successive `>>` extractions from a string stream do.
  - `std::stoi` in base 10, with its two failure cases: no digits, or a value outside 32-bit `int`.
  - Decimal printing, proved to be the inverse of the conversion.
- `decoder.dfy`: module `Decoder`.
  - The `Instruction` record and `Decode`, which turns one line into a record.
  - A small assembler (`Render`) for the four well-formed instruction forms.
  - The round trip: decoding what the assembler prints gives back the intended record.
- `engine.dfy`: module `Engine`.
  - The `Stage` record and a value snapshot `Machine` of the whole simulator.
  - The forwarding function and the three hazard detectors.
  - `StepSpec`, the reference definition of one `step()`, built from per-stage functions.
  - `Reset` (what `loadProgram` does) and `Run` (k consecutive steps).
- `pipeline.dfy`: module `Simulator`, class `Pipeline`.
  - Fields mirror the C++ members: five `Stage` slots, a 32-entry `array<int>` register file, a `map<int, int>` memory, the program, `pc`, `cycle`, the stall flag and the hazard report.
  - `Step` updates them in place, stage by stage, with the same early returns as the C++.
  - `Step` is proved to leave exactly `StepSpec(old(State()))`.
  - `LoadProgram` is proved to leave exactly `Reset(old(State()), lines)`.
- `engine_properties.dfy`: module `EngineProperties`, lemmas about one cycle and about several cycles.
- `scenarios.dfy`: module `Scenarios`, a worked two-instruction program run from a fresh pipeline until it drains.

`WellFormed` is the invariant of every reachable state:
- 32 registers, and register 0 holds 0;
- `pc` is a multiple of 4;
- every instruction in a stage has a destination in 0..31, at most one kind flag, and destination 0 when it is a store or a branch;
- IF and ID have never been executed;
- a valid ALU instruction waiting in EX still has result 0;
- the stall flag is set exactly when a hazard was reported.

The constructor establishes `WellFormed`, and `LoadProgram` and `Step` preserve it. This is what makes "register 0 is never nonzero" hold after any sequence of calls.

## Model

| member | source | states |
|---|---|---|
| Lexing.Words | docs/pipeline.cpp:34-36 | every token extracted from a line is nonempty and contains no whitespace |
| Lexing.WordsUnwords | docs/pipeline.cpp:34-36 | splitting tokens joined by single spaces gives back exactly those tokens, so the tokenizer reads back what the assembler writes |
| Lexing.StoI | docs/pipeline.cpp:40 | a successful `std::stoi` conversion lies in the 32-bit `int` range |
| Lexing.StoIValue | docs/pipeline.cpp:40 | text without any digit fails, and so does text starting with a character that is not white space, a sign or a digit (`L1`, `a5`); text starting with a digit is read up to the first non-digit; a run of digits, alone or after a minus sign, gives its value exactly when that fits in an `int`, and fails otherwise |
| Lexing.StoIShowInt | docs/pipeline.cpp:64 | converting the decimal text of any 32-bit integer gives that integer back |
| Lexing.DigitsValueShowNat | docs/pipeline.cpp:40 | the digits printed for n have value n |
| Decoder.CleanReg | docs/pipeline.cpp:44-47 | at most one trailing comma is removed, and a token not ending in a comma is unchanged |
| Decoder.ParseReg | docs/pipeline.cpp:38-42 | a token shorter than 2 characters, or not starting with `x`/`X`, is register 0; a successful conversion lies in `int` range |
| Decoder.ParseRegValue | docs/pipeline.cpp:38-42 | for `x` and `X` alike, the digits after the letter give the register number when it fits in an `int`; a letter followed by no digit, or by a character that is not white space, a sign or a digit (`xa1`), makes the conversion throw |
| Decoder.Find | docs/pipeline.cpp:61-62 | `find` succeeds exactly when the character occurs, and then returns its first position |
| Decoder.WithMemOperand | docs/pipeline.cpp:61-67 | only `imm` and `rs1` can change; an operand missing `(` or `)` leaves the instruction as it is |
| Decoder.BranchOffset | docs/pipeline.cpp:86-90 | the branch immediate is always a 32-bit `int`: the exception is caught |
| Decoder.BranchOffsetValue | docs/pipeline.cpp:86-90 | a label without any digit gives 0, and so does a symbolic label starting with a letter or other non-sign, non-digit (`L1`, `loop2`); a label starting with a digit is read up to the first non-digit; a value that does not fit in an `int` gives 0 |
| Decoder.BranchOffsetExamples | docs/pipeline.cpp:86-90 | `L1` and `loop2` branch by 0, and `2,` branches by 2 |
| Decoder.BranchOffsetShowInt | docs/pipeline.cpp:86-90 | the decimal text of any 32-bit integer is read back as that offset |
| Decoder.Decode | docs/pipeline.cpp:31-93 | the line is kept as text; each kind flag is set exactly when the opcode is `add`/`lw`/`sw`/`beq`; stores and branches have `rd` 0; an unknown opcode gives the default record; the `beq` immediate is the caught conversion of token 3 |
| Decoder.MalformedMemOperand | docs/pipeline.cpp:56-79 | `lw`/`sw` whose operand lacks a parenthesis keep `imm` and `rs1` at 0 |
| Decoder.BranchDecodeFailure | docs/pipeline.cpp:80-91 | `beq` fails to decode exactly when one of its register tokens fails, never because of its immediate |
| Decoder.AddDecodeFailure | docs/pipeline.cpp:49-55 | `add` fails to decode exactly when one of its three register tokens fails |
| Decoder.MemDecodeFailure | docs/pipeline.cpp:56-79 | `lw`/`sw` fail to decode exactly when the register token fails, or when the operand has both parentheses and the immediate or the base register fails; an immediate without digits always fails |
| Decoder.CloseBeforeOpen | docs/pipeline.cpp:61-66 | when a `)` precedes the first `(`, the base register is read from everything after the `(`, and the immediate from the text before it, `)` included |
| Decoder.CloseBeforeOpenExample | docs/pipeline.cpp:61-66 | the operand `8)(x3` gives immediate 8 and base register 3 |
| Decoder.DecodeRender | docs/pipeline.cpp:31-93 | every well-formed `add`/`lw`/`sw`/`beq` with registers below 32 and a 32-bit immediate decodes to its intended record and is fetchable |
| Engine.HazardMessage | docs/pipeline.cpp:178-195 | the message is "Hazard: None" exactly when no hazard was reported |
| Engine.WordIndex | docs/pipeline.cpp:203-205 | `pc / 4` truncates toward zero: for non-negative `pc` it is the floor quotient |
| Engine.Finished | docs/pipeline.cpp:19-22 | for a non-negative `pc`, the pipeline is finished exactly when `pc` is at least 4 times the program size and every stage is empty |
| Engine.StageText | docs/pipeline.cpp:213-217 | an empty stage shows "nop"; a valid stage shows the very line its instruction was decoded from |
| Engine.Forward | docs/pipeline.cpp:124-131 | registers outside 0..31 forward 0; a nonzero register that neither MEM nor EX supplies forwards the value it holds once WB has committed |
| Engine.DetectData | docs/pipeline.cpp:95-108 | a data hazard needs a valid ID with a nonzero source, and is reported whenever WB, MEM or EX can supply a nonzero source of ID |
| Engine.DetectLoadUse | docs/pipeline.cpp:110-115 | every load-use hazard is also a data hazard |
| Engine.DetectControl | docs/pipeline.cpp:117-122 | a control hazard needs a valid branch in EX, and a branch comparing a register with itself always raises it |
| Engine.Execute | docs/pipeline.cpp:140-157 | EX computation changes only the scratch fields: validity, instruction and `pc` stay; a bubble or an inert instruction is untouched |
| Engine.Writeback | docs/pipeline.cpp:159-162 | the register file keeps 32 entries, register 0 is never written, and nothing is written without a valid non-store in WB |
| Engine.Access | docs/pipeline.cpp:164-176 | the memory stage changes only MEM's result and the memory |
| Engine.DatapathShape | docs/pipeline.cpp:140-176 | EX computation, writeback and memory access change only EX's scratch fields, MEM's result, registers and memory, and count the cycle |
| Engine.FetchSlot | docs/pipeline.cpp:202-210 | the slot filled by the fetch satisfies the stage invariants (destination in 0..31, at most one kind, `pc` a multiple of 4) and has unexecuted scratch fields |
| Engine.Flush | docs/pipeline.cpp:179-187 | the control-hazard resolution yields a well-formed state |
| Engine.Stall | docs/pipeline.cpp:189-195 | the load-use resolution yields a well-formed state |
| Engine.Advance | docs/pipeline.cpp:199-210 | the normal shift and fetch yield a well-formed state |
| Engine.Shift | docs/pipeline.cpp:199-207 | moving every stage one step on, with an unexecuted well-formed slot in IF and `pc` moved by 4 or kept, preserves the machine invariant |
| Engine.StepSpec | docs/pipeline.cpp:133-211 | one cycle keeps the invariant and the program; it changes nothing when finished, and otherwise adds exactly 1 to the cycle count |
| Engine.Reset | docs/pipeline.cpp:10-17 | loading keeps registers and memory, keeps the invariant, and leaves a finished pipeline exactly when the program is empty |
| Engine.Zeros | docs/pipeline.cpp:5-8 | the constructor's register file has 32 zero entries |
| Engine.Run | docs/pipeline.cpp:133-211 | repeated steps keep the invariant and the program; a finished pipeline stays exactly as it is; the cycle count grows by at most the number of steps, and by exactly that number while the pipeline is not finished |
| Simulator.Pipeline.constructor | docs/pipeline.cpp:5-8 | a fresh pipeline is the initial state: bubbles, no program, zero registers, empty memory, `pc` and `cycle` 0 |
| Simulator.Pipeline.LoadProgram | docs/pipeline.cpp:10-17 | the new state is the reset of the old one; registers and memory are not written |
| Simulator.Pipeline.Step | docs/pipeline.cpp:133-211 | the in-place update yields exactly `StepSpec` of the old state, and keeps the invariant |
| Simulator.Pipeline.ExecuteStage | docs/pipeline.cpp:140-157 | only EX changes, to its computation on forwarded operands |
| Simulator.Pipeline.WritebackStage | docs/pipeline.cpp:159-162 | only the register file changes, as WB's commit prescribes |
| Simulator.Pipeline.MemoryStage | docs/pipeline.cpp:164-176 | the state changes exactly as the memory access prescribes |
| Simulator.Pipeline.ResolveHazards | docs/pipeline.cpp:178-210 | the early-return chain yields the flush, the bubble or the shift with fetch, according to which hazard is detected first |
| Simulator.Pipeline.IsFinished | docs/pipeline.cpp:19-22 | for a non-negative `pc`, the object reports finished exactly when `pc` is at least 4 times the program size and all five stages are empty |
| Simulator.Pipeline.PC | docs/pipeline.cpp:25 | the reported `pc` is a multiple of 4 |
| Simulator.Pipeline.Message | docs/pipeline.cpp:27 | the message is "Hazard: None" exactly when the last cycle inserted no stall |
| Simulator.Pipeline.Registers | docs/pipeline.cpp:28 | the snapshot has 32 entries and entry 0 is 0 |
| EngineProperties.ForwardOrder | docs/pipeline.cpp:124-131 | forwarding gives 0 outside 0..31; otherwise it gives the first supplier among WB (valid non-store), MEM (valid), EX (valid ALU) and the register file |
| EngineProperties.StoreForwardsIntoRegisterZero | docs/pipeline.cpp:124-131 | with a store in MEM and no WB supplier, reading x0 forwards the store's address |
| EngineProperties.RegisterZeroCanForwardNonzero | docs/pipeline.cpp:124-131 | there is a well-formed state where register 0 holds 0 but forwarding x0 gives a nonzero value |
| EngineProperties.StaleSelfForward | docs/pipeline.cpp:129 | an ALU instruction in EX that is the only supplier of its destination forwards 0; if it reads its own destination as `rs1`, its sum is just the forwarded `rs2` |
| EngineProperties.QuietOperandsReadRegisters | docs/pipeline.cpp:95-108 | without a data hazard, every nonzero source of ID forwards the register file value |
| EngineProperties.StepShiftsBack | docs/pipeline.cpp:185-200 | in all three hazard cases, MEM moves to WB and EX moves to MEM, and hazard resolution leaves memory as the memory stage left it |
| EngineProperties.AccessEffect | docs/pipeline.cpp:164-176 | the memory stage alone: a valid store adds or overwrites exactly its address with the forwarded `rs2` and keeps every other key; a valid load replaces MEM's result by the word read, or 0 when unmapped; anything else leaves memory and MEM as they were |
| EngineProperties.StepExecutes | docs/pipeline.cpp:140-157 | the EX instruction reaches MEM carrying forwarded rs1 + rs2 (ALU), rs1 + imm (load/store), or the equality decision with target `pc + 4*imm` when taken and the stale target otherwise (branch) |
| EngineProperties.StepRegisters | docs/pipeline.cpp:159-162 | at most one register changes, only WB's nonzero destination, only for a valid non-store; register 0 stays 0 |
| EngineProperties.StepMemory | docs/pipeline.cpp:164-176 | only a valid store writes memory: one key, its address, holding the forwarded `rs2`; every other key is kept; a load reads the word or 0 and inserts nothing; MEM reaches WB |
| EngineProperties.StoreTakesYoungerAluValue | docs/pipeline.cpp:173 | a store whose source is produced by the ALU instruction right behind it stores that younger instruction's fresh sum |
| EngineProperties.StepControlHazard | docs/pipeline.cpp:117-122 | a control hazard occurs exactly for a valid branch in EX with equal freshly forwarded operands; then stall is set, IF and ID are invalidated, WB gets MEM, MEM and EX both hold EX, `pc` moves only if EX decided taken, and nothing is fetched |
| EngineProperties.StepLoadUseHazard | docs/pipeline.cpp:189-195 | a load-use hazard occurs exactly when there is no control hazard and a valid load in EX with nonzero destination feeds a valid ID; then stall is set, WB gets MEM, MEM gets EX, EX becomes a bubble, and IF, ID and `pc` hold |
| EngineProperties.StepAdvances | docs/pipeline.cpp:199-210 | without a hazard, the stall flag is clear and the stages shift; IF receives the decoded line at `pc/4`, which it then displays, and `pc` grows by 4, or IF is emptied when the program is exhausted |
| EngineProperties.ProducerForwardsToNextInstruction | docs/pipeline.cpp:124-146 | one cycle after a valid `add` leaves EX, the instruction behind it, now in EX, forwards the producer's sum from MEM, unless the instruction ahead of the producer, now in WB, writes the same register and so supplies its older value first |
| EngineProperties.AluInEXRaisesNoHazard | docs/pipeline.cpp:95-122 | a valid `add` in EX raises neither hazard, whatever lies ahead of it, so the next cycle inserts no stall |
| EngineProperties.BranchDetectorSkipsEX | docs/pipeline.cpp:117-131 | while the control-hazard detector runs, EX holds a branch, so the EX forwarding path never supplies its operands |
| EngineProperties.LoadUseStallsOnce | docs/pipeline.cpp:189-195 | after a load-use stall the waiting instruction is still in ID and the next cycle raises no hazard |
| EngineProperties.LoadUseDeliversLoadedValue | docs/pipeline.cpp:164-200 | two cycles after the stall, the waiting instruction is in EX and forwarding its source gives the loaded value (0 when unmapped) |
| EngineProperties.InertInstructionsDoNothing | docs/pipeline.h:9-16 | an instruction with default fields writes no register, writes no memory, and passes through EX unchanged |
| EngineProperties.BranchDecidedTwice | docs/pipeline.cpp:152-184 | with `lw x0, …` directly followed by `beq x0, x2, 2` (a load into x0 raises no load-use stall), the pipeline can flush IF and ID without redirecting `pc`, and can let a branch EX decided taken go without flush or redirect |
| EngineProperties.StoreThenLoadRoundTrip | docs/pipeline.cpp:140-176 | a load that computes the address of the store in front of it reaches WB two cycles later carrying the stored value, with or without a load-use stall in between |
| EngineProperties.StoreThenAdjacentLoadMisses | docs/pipeline.cpp:128 | `sw x1, 100(x0)` directly followed by `lw x2, 100(x0)` with x1 = 7: the store writes 7 at 100, but the load forwards x0 from the store, computes address 200 and brings 0 to x2 |
| EngineProperties.SelfComparingBranchRedirects | docs/pipeline.cpp:179-187 | `beq x, x, imm` in EX always flushes IF and ID and sets `pc` to its own `pc + 4*imm` |
| EngineProperties.SelfComparingBranchNeverDrains | docs/pipeline.cpp:185 | a branch comparing a register with itself stays in EX forever, so the pipeline never finishes, for any number of steps |
| EngineProperties.InitialIsFinished | docs/pipeline.h:58-66 | a fresh pipeline is well formed, finished, and has all registers at 0 |
| EngineProperties.LoadIdempotent | docs/pipeline.cpp:10-17 | loading the same program twice is the same as loading it once |
| Scenarios.Fill | docs/pipeline.cpp:199-210 | for `add x1, x0, x0; add x2, x1, x1`, the state three cycles after loading has both lines fetched (`pc` 8), the first in EX and the second in ID |
| Scenarios.Drain | docs/pipeline.cpp:140-211 | four more cycles write back the zero sums, leaving the registers unchanged, and drain every stage, ending at cycle 7 with `pc` 8 |
| Scenarios.Compute | docs/pipeline.cpp:124-157 | after cycle 4 the first `add` is in MEM and supplies x1 (WB does not); cycle 5 computes x2 as that forwarded x1 twice, leaving both sums 0 in MEM and WB |
| Scenarios.Commit | docs/pipeline.cpp:159-162 | cycles 6 and 7 write back the zero sums, leaving the registers unchanged, and leave every stage empty, with cycle 7 and `pc` 8 |
| Scenarios.EndToEnd | docs/pipeline.cpp:133-211 | from a fresh pipeline, seven steps finish the program with x1 = x2 = 0, cycle 7 and `pc` 8 |
| Scenarios.EndToEndRendered | docs/pipeline.cpp:31-93 | the same holds for the text lines the assembler prints for the two instructions |

## Behaviour as written

Where the code differs from its intended design, the model follows the code. Each point is proved as written, by the lemma named with it.

- Decoding can fail.
  - `std::stoi` throws, uncaught, on a register token such as `xa`, and on a non-numeric `lw`/`sw` immediate (docs/pipeline.cpp:40, 64, 76).
  - `Decode` returns `None` in those cases (`AddDecodeFailure`, `MemDecodeFailure`, `ParseRegValue`).
  - Only the `beq` immediate's failure is caught, and gives 0 (`BranchOffsetValue`, `BranchDecodeFailure`): a symbolic label such as `L1` or `loop2` branches by 0, not to the label (`BranchOffsetExamples`).
- The base register of a memory operand lies between the first `(` and the first `)` anywhere in the operand, not the first `)` after the `(`.
  - When the `)` comes first, the unsigned length wraps around and the base is the rest of the operand: `8)(x3` gives base x3 and immediate 8 (`CloseBeforeOpen`, `CloseBeforeOpenExample`).
- Forwarding does not treat register 0 specially.
  - A store or branch in MEM has destination 0, so reading x0 gives MEM's result (`StoreForwardsIntoRegisterZero`, `RegisterZeroCanForwardNonzero`).
  - Writeback alone protects register 0.
- While EX computes its own operands, the EX forwarding path can only match the instruction in EX itself, whose result is not computed yet, so it yields 0 (`StaleSelfForward`).
  - The same path does deliver a fresh sum later in the cycle, after EX has computed, to a store in MEM (`StoreTakesYoungerAluValue`).
  - The branch detector never uses it: it runs only while EX holds a branch, and the EX path needs an ALU instruction there (`BranchDetectorSkipsEX`). What the detector does see are the WB and MEM values after writeback and the memory stage (`BranchDecidedTwice`).
  - Back-to-back `add`s still work without a stall (`AluInEXRaisesNoHazard`), through MEM forwarding one cycle later, unless an older instruction now in WB writes the same register (`ProducerForwardsToNextInstruction`).
- A store followed by a load of the same address reads the stored value back when the load computes that address (`StoreThenLoadRoundTrip`).
  - For `sw x1, 100(x0)` directly followed by `lw x2, 100(x0)` it does not: the load forwards x0 from the store in MEM, whose destination is 0, and reads address 200 (`StoreThenAdjacentLoadMisses`).
- A control hazard leaves the branch in EX.
  - A branch whose operands stay equal, such as `beq x1, x1, k`, re-triggers every cycle, and the program never drains (`SelfComparingBranchNeverDrains`).
- The branch outcome is computed twice: once in EX, and again by the detector after a load in MEM has replaced its address by the loaded value. Only the first decides the redirect. A load into x0 directly ahead of a branch reading x0 shows it (`BranchDecidedTwice`).
- `branchTarget` is written only when taken, so a branch not taken keeps the value copied from ID (`StepExecutes`).
- `loadProgram` keeps registers and memory (`Engine.Reset`).

## Left out

- `Simulator.Pipeline.Step` requires `StepDefined`.
  - This excludes the cycles whose C++ counterpart throws or has undefined behaviour when it reaches the fetch.
  - The fetched line must decode without an uncaught `std::stoi` exception and name a destination register in 0..31.
  - The destination bound is conservative. The C++ indexes `regs[rd]` only at writeback (docs/pipeline.cpp:160-161), so fetching a line with destination 40 is defined, and a flush can discard it before writeback. The model rejects such a cycle at the fetch: for `beq x0, x0, 2` followed by `add x40, x1, x1`, `Step` cannot be called on the cycle that fetches the `add`, and `Run` returns `None` there.
  - `pc / 4` must not be negative; `program[pc / 4]` is out of bounds otherwise.
  - `Engine.Run` returns `None` when it meets such a cycle.
- `Engine.Execute`: sums, effective addresses, `imm * 4` and `pc + 4` are unbounded integers. Signed 32-bit overflow, which is undefined behaviour in C++, is not modelled. Register values and memory words are unbounded for the same reason.
- The memory map's ascending iteration order, which only the display uses, is not modelled: `Memory()` returns a Dafny `map`.
- The hazard message is kept as the enumeration `Hazard`. `HazardMessage` gives its three strings.
- `detectDataHazard` is modelled as `Engine.DetectData` and related to forwarding and to the load-use detector. `step` never calls it, so it affects no state.
- Tokenizing with `std::istringstream` is modelled as a whitespace split (`Lexing.Words`). Locale-dependent classification and stream error states are not modelled.
- `std::stoi` is modelled for base 10 only, as the code uses it.
- The getters `Cycle`, `StallInserted`, `Memory` and `StageIF` through `StageWB` are plain reads. Their only contract is the `reads` frame, which shows they change nothing.
- The Qt user interface (docs/mainwindow.cpp, docs/mainwindow.h) is not part of this model. That includes reloading the program when the text changes and dropping blank lines.
