/**
 * The pipeline engine as values: a snapshot of the whole simulator state, the
 * forwarding network, the three hazard detectors, and the reference
 * definition of one clock cycle that the `Pipeline` class is proved against.
 */
module Engine {
  import opened Wrappers
  import opened Decoder

  /** The register file has 32 entries; entry 0 is the zero register. */
  const NumRegs: nat := 32

  /**
   * One pipeline register (IF, ID, EX, MEM or WB). `result` is the scratch
   * value the stages reuse: an ALU sum, an effective address, or a loaded
   * value. The branch fields matter only for a branch in EX.
   */
  datatype Stage = Stage(
    valid: bool,
    instr: Instruction,
    pc: int,
    result: int,
    branchTaken: bool,
    branchTarget: int)

  /** The default-initialised slot: a bubble. */
  const Bubble: Stage := Stage(false, Blank(""), 0, 0, false, 0)

  /** What the last cycle did about hazards; it determines the hazard message. */
  datatype Hazard = NoHazard | ControlHazard | LoadUseHazard

  function HazardMessage(h: Hazard): (msg: string)
    ensures (msg == "Hazard: None") <==> h == NoHazard
  {
    match h
    case NoHazard => "Hazard: None"
    case ControlHazard => "Control hazard: branch taken"
    case LoadUseHazard => "Load-use hazard: stall"
  }

  /** Everything a `Pipeline` holds. */
  datatype Machine = Machine(
    IF: Stage, ID: Stage, EX: Stage, MEM: Stage, WB: Stage,
    program: seq<string>,
    regs: seq<int>,
    memory: map<int, int>,
    pc: int,
    cycle: nat,
    stall: bool,
    hazard: Hazard)

  /** `pc / 4` as C++ computes it on `int`: the quotient is truncated toward zero. */
  function WordIndex(pc: int): (i: int)
    ensures pc >= 0 ==> i >= 0 && i * 4 <= pc < i * 4 + 4
    ensures pc < 0 ==> i <= 0 && i * 4 - 4 < pc <= i * 4
  {
    if pc >= 0 then pc / 4 else -((-pc) / 4)
  }

  predicate Drained(m: Machine)
  {
    !m.IF.valid && !m.ID.valid && !m.EX.valid && !m.MEM.valid && !m.WB.valid
  }

  /** No instruction is left to fetch and every stage holds a bubble. */
  predicate Finished(m: Machine)
    // for a non-negative pc, "pc / 4 is past the program" is "pc is at least 4 * size"
    ensures m.pc >= 0 ==> (Finished(m) <==> m.pc >= 4 * |m.program| && Drained(m))
  {
    WordIndex(m.pc) >= |m.program| && Drained(m)
  }

  /** The text a stage shows: its instruction's line, or "nop" for a bubble. */
  function StageText(s: Stage): (text: string)
    ensures !s.valid ==> text == "nop"
    // a valid slot shows the very line its instruction was decoded from
    ensures forall line :: s.valid && Decode(line) == Some(s.instr) ==> text == line
  {
    if s.valid then s.instr.text else "nop"
  }

  // ---------------------------------------------------------------------------
  // Invariants of every reachable state
  // ---------------------------------------------------------------------------

  /** What every instruction that reaches a stage satisfies (given by Decode). */
  predicate WellFormedStage(s: Stage)
  {
    && 0 <= s.instr.rd < NumRegs
    && KindCount(s.instr) <= 1
    && (s.instr.isStore || s.instr.isBranch ==> s.instr.rd == 0)
    && s.pc % 4 == 0
  }

  /** A slot whose scratch fields have never been written. */
  predicate Unexecuted(s: Stage)
  {
    s.result == 0 && !s.branchTaken && s.branchTarget == 0
  }

  predicate WellFormed(m: Machine)
  {
    && |m.regs| == NumRegs
    && m.regs[0] == 0
    && m.pc % 4 == 0
    && WellFormedStage(m.IF) && WellFormedStage(m.ID) && WellFormedStage(m.EX)
    && WellFormedStage(m.MEM) && WellFormedStage(m.WB)
    // IF's scratch fields are never assigned, and ID only ever copies IF
    && Unexecuted(m.IF) && Unexecuted(m.ID)
    // an ALU instruction in EX has not computed yet: its result is the copy from ID
    && (m.EX.valid && m.EX.instr.isALU ==> m.EX.result == 0)
    && (m.stall <==> m.hazard != NoHazard)
  }

  // ---------------------------------------------------------------------------
  // Forwarding and hazard detection
  // ---------------------------------------------------------------------------

  /** WB can supply `r`: a valid instruction that is not a store, with destination `r`. */
  predicate WBSupplies(m: Machine, r: int)
  {
    m.WB.valid && !m.WB.instr.isStore && m.WB.instr.rd == r
  }

  /** MEM can supply `r`: any valid instruction with destination `r`. */
  predicate MEMSupplies(m: Machine, r: int)
  {
    m.MEM.valid && m.MEM.instr.rd == r
  }

  /** EX can supply `r`: a valid ALU instruction with destination `r`. */
  predicate EXSupplies(m: Machine, r: int)
  {
    m.EX.valid && m.EX.instr.rd == r && m.EX.instr.isALU
  }

  /** The operand value for register `r`: WB, then MEM, then EX, then the register file. */
  function Forward(m: Machine, r: int): (v: int)
    requires |m.regs| == NumRegs
    ensures !(0 <= r < NumRegs) ==> v == 0
    // unless MEM or EX supplies it, a register forwards what it holds once WB has committed
    ensures 0 < r < NumRegs && 0 <= m.WB.instr.rd < NumRegs && !MEMSupplies(m, r) && !EXSupplies(m, r)
      ==> v == Writeback(m)[r]
  {
    if r < 0 || r >= NumRegs then 0
    else if WBSupplies(m, r) then m.WB.result
    else if MEMSupplies(m, r) then m.MEM.result
    else if EXSupplies(m, r) then m.EX.result
    else m.regs[r]
  }

  /** An ID operand names the nonzero destination of a valid instruction further on. */
  predicate DetectData(m: Machine)
    ensures DetectData(m) ==> m.ID.valid && (m.ID.instr.rs1 != 0 || m.ID.instr.rs2 != 0)
    // every stage that forwarding would take a nonzero source of ID from is reported
    ensures m.ID.valid && m.ID.instr.rs1 != 0 &&
      (WBSupplies(m, m.ID.instr.rs1) || MEMSupplies(m, m.ID.instr.rs1) || EXSupplies(m, m.ID.instr.rs1))
      ==> DetectData(m)
    ensures m.ID.valid && m.ID.instr.rs2 != 0 &&
      (WBSupplies(m, m.ID.instr.rs2) || MEMSupplies(m, m.ID.instr.rs2) || EXSupplies(m, m.ID.instr.rs2))
      ==> DetectData(m)
  {
    var r1, r2 := m.ID.instr.rs1, m.ID.instr.rs2;
    if !m.ID.valid || (r1 == 0 && r2 == 0) then false
    else
      || (m.EX.valid && m.EX.instr.rd != 0 && (r1 == m.EX.instr.rd || r2 == m.EX.instr.rd))
      || (m.MEM.valid && m.MEM.instr.rd != 0 && (r1 == m.MEM.instr.rd || r2 == m.MEM.instr.rd))
      || (m.WB.valid && m.WB.instr.rd != 0 && (r1 == m.WB.instr.rd || r2 == m.WB.instr.rd))
  }

  /** A load in EX writes a nonzero register that the valid instruction in ID reads. */
  predicate DetectLoadUse(m: Machine)
    // a load-use hazard is a particular data hazard
    ensures DetectLoadUse(m) ==> DetectData(m)
  {
    if !m.EX.valid || !m.EX.instr.isLoad || !m.ID.valid then false
    else
      var dst := m.EX.instr.rd;
      dst != 0 && (m.ID.instr.rs1 == dst || m.ID.instr.rs2 == dst)
  }

  /** A branch in EX whose operands, forwarded in the state given, are equal. */
  predicate DetectControl(m: Machine)
    requires |m.regs| == NumRegs
    ensures DetectControl(m) ==> m.EX.valid && m.EX.instr.isBranch
    // a branch comparing a register with itself always raises the hazard
    ensures m.EX.valid && m.EX.instr.isBranch && m.EX.instr.rs1 == m.EX.instr.rs2 ==> DetectControl(m)
  {
    m.EX.valid && m.EX.instr.isBranch &&
    Forward(m, m.EX.instr.rs1) == Forward(m, m.EX.instr.rs2)
  }

  // ---------------------------------------------------------------------------
  // One clock cycle
  // ---------------------------------------------------------------------------

  /** The cycle count goes up and the hazard report is cleared. */
  function Begin(m: Machine): Machine
  {
    m.(cycle := m.cycle + 1, stall := false, hazard := NoHazard)
  }

  /** The EX slot after its computation on forwarded operands. */
  function Execute(m: Machine): (s: Stage)
    requires |m.regs| == NumRegs
    // only the scratch fields are computed; the instruction, its pc and validity stay
    ensures s.valid == m.EX.valid && s.instr == m.EX.instr && s.pc == m.EX.pc
    ensures !m.EX.valid || Inert(m.EX.instr) ==> s == m.EX
  {
    var e := m.EX;
    if !e.valid then e
    else if e.instr.isALU then
      e.(result := Forward(m, e.instr.rs1) + Forward(m, e.instr.rs2))
    else if e.instr.isLoad || e.instr.isStore then
      e.(result := Forward(m, e.instr.rs1) + e.instr.imm)
    else if e.instr.isBranch then
      var taken := Forward(m, e.instr.rs1) == Forward(m, e.instr.rs2);
      e.(branchTaken := taken, branchTarget := if taken then e.pc + e.instr.imm * 4 else e.branchTarget)
    else e
  }

  /** The register file after WB commits. */
  function Writeback(m: Machine): (regs: seq<int>)
    requires |m.regs| == NumRegs && 0 <= m.WB.instr.rd < NumRegs
    ensures |regs| == NumRegs
    // register 0 is never written
    ensures regs[0] == m.regs[0]
    ensures !m.WB.valid || m.WB.instr.isStore ==> regs == m.regs
  {
    if m.WB.valid && !m.WB.instr.isStore && m.WB.instr.rd != 0
    then m.regs[m.WB.instr.rd := m.WB.result]
    else m.regs
  }

  /** The memory stage: a load replaces MEM's address by the value read, a store writes memory. */
  function Access(m: Machine): (r: Machine)
    requires |m.regs| == NumRegs
    // only MEM's result and memory change
    ensures r.IF == m.IF && r.ID == m.ID && r.EX == m.EX && r.WB == m.WB
    ensures r.MEM.(result := m.MEM.result) == m.MEM
    ensures r.regs == m.regs && r.pc == m.pc && r.program == m.program && r.cycle == m.cycle
  {
    if m.MEM.valid && m.MEM.instr.isLoad then
      var addr := m.MEM.result;
      m.(MEM := m.MEM.(result := if addr in m.memory then m.memory[addr] else 0))
    else if m.MEM.valid && m.MEM.instr.isStore then
      m.(memory := m.memory[m.MEM.result := Forward(m, m.MEM.instr.rs2)])
    else m
  }

  /** The state after EX computation, writeback and memory access, before hazards are resolved. */
  function Datapath(m: Machine): Machine
    requires |m.regs| == NumRegs && 0 <= m.WB.instr.rd < NumRegs
  {
    var b := Begin(m);
    var e := b.(EX := Execute(b));
    Access(e.(regs := Writeback(e)))
  }

  /**
   * The invariants that hold between the memory stage and hazard resolution:
   * those of WellFormed, except that EX may hold a freshly computed result.
   */
  predicate Pending(d: Machine)
  {
    && |d.regs| == NumRegs
    && d.regs[0] == 0
    && d.pc % 4 == 0
    && WellFormedStage(d.IF) && WellFormedStage(d.ID) && WellFormedStage(d.EX)
    && WellFormedStage(d.MEM) && WellFormedStage(d.WB)
    && Unexecuted(d.IF) && Unexecuted(d.ID)
    && (d.EX.valid && d.EX.instr.isBranch && d.EX.branchTaken ==> d.EX.branchTarget % 4 == 0)
  }

  /** What the datapath changes and what it leaves for the hazard resolution. */
  lemma DatapathShape(m: Machine)
    requires WellFormed(m)
    ensures var d := Datapath(m);
      && Pending(d)
      && d.IF == m.IF && d.ID == m.ID && d.WB == m.WB
      && d.pc == m.pc && d.program == m.program && d.cycle == m.cycle + 1
      && d.EX.(result := m.EX.result, branchTaken := m.EX.branchTaken, branchTarget := m.EX.branchTarget) == m.EX
      && d.MEM.(result := m.MEM.result) == m.MEM
  {
  }

  /** Which hazard the datapath state shows, control hazards first. */
  function Classify(d: Machine): Hazard
    requires |d.regs| == NumRegs
  {
    if DetectControl(d) then ControlHazard
    else if DetectLoadUse(d) then LoadUseHazard
    else NoHazard
  }

  /** Fetching at `pc` is defined: the line exists at a non-negative index and decodes. */
  predicate FetchDefined(m: Machine)
  {
    var i := WordIndex(m.pc);
    i < |m.program| ==> 0 <= i && Fetchable(m.program[i])
  }

  /**
   * A cycle whose C++ counterpart has defined behaviour: when it reaches the
   * fetch, the fetched line decodes without an exception and names a
   * destination inside the register file.
   */
  predicate StepDefined(m: Machine)
    requires WellFormed(m)
  {
    Finished(m) || Classify(Datapath(m)) != NoHazard || FetchDefined(m)
  }

  /** IF after the fetch: the decoded line at `pc / 4`, or an invalid slot past the end. */
  function FetchSlot(m: Machine): (s: Stage)
    requires FetchDefined(m)
    ensures Unexecuted(m.IF) ==> Unexecuted(s)
    ensures WellFormedStage(m.IF) && m.pc % 4 == 0 ==> WellFormedStage(s)
  {
    var i := WordIndex(m.pc);
    if i < |m.program| then
      var inst := Decode(m.program[i]).value;
      assert 0 <= inst.rd < NumRegs && KindCount(inst) <= 1;
      m.IF.(valid := true, instr := inst, pc := m.pc)
    else
      m.IF.(valid := false)
  }

  /**
   * Control hazard: flush IF and ID, redirect pc if EX decided the branch was
   * taken, move MEM to WB and copy EX into MEM. EX itself is left in place.
   */
  function Flush(d: Machine): (r: Machine)
    requires Pending(d) && DetectControl(d)
    ensures WellFormed(r)
  {
    d.(IF := d.IF.(valid := false), ID := d.ID.(valid := false),
       pc := if d.EX.branchTaken then d.EX.branchTarget else d.pc,
       WB := d.MEM, MEM := d.EX,
       stall := true, hazard := ControlHazard)
  }

  /** Load-use hazard: move MEM to WB and EX to MEM, put a bubble in EX, hold IF, ID and pc. */
  function Stall(d: Machine): (r: Machine)
    requires Pending(d)
    ensures WellFormed(r)
  {
    d.(WB := d.MEM, MEM := d.EX, EX := d.EX.(valid := false),
       stall := true, hazard := LoadUseHazard)
  }

  /** No hazard: every stage moves one step on and IF is refilled; pc moves on when a line was fetched. */
  function Advance(d: Machine): (r: Machine)
    requires Pending(d) && !d.stall && d.hazard == NoHazard && FetchDefined(d)
    ensures WellFormed(r)
  {
    Shift(d, FetchSlot(d), WordIndex(d.pc) < |d.program|)
  }

  /** `d` with every stage moved one step on and `slot` in IF; pc moves to the next word when a line was fetched. */
  function Shift(d: Machine, slot: Stage, fetched: bool): (r: Machine)
    requires Pending(d) && !d.stall && d.hazard == NoHazard
    requires WellFormedStage(slot) && Unexecuted(slot)
    ensures WellFormed(r)
  {
    var pc := if fetched then d.pc + 4 else d.pc;
    Machine(slot, d.IF, d.ID, d.EX, d.MEM, d.program, d.regs, d.memory, pc, d.cycle, d.stall, d.hazard)
  }

  /**
   * One clock cycle. A finished pipeline is left as it is. Otherwise EX
   * computes, WB commits, MEM accesses memory, and then exactly one of: a
   * control-hazard flush, a load-use bubble, or the normal shift and fetch.
   */
  function StepSpec(m: Machine): (r: Machine)
    requires WellFormed(m) && StepDefined(m)
    ensures WellFormed(r)
    ensures Finished(m) ==> r == m
    ensures !Finished(m) ==> r.cycle == m.cycle + 1
    ensures r.program == m.program
  {
    if Finished(m) then m
    else
      var d := Datapath(m);
      DatapathShape(m);
      match Classify(d)
      case ControlHazard => Flush(d)
      case LoadUseHazard => Stall(d)
      case NoHazard => Advance(d)
  }

  /** Loading a program: stages, pc, cycle and hazard report reset; registers and memory kept. */
  function Reset(m: Machine, lines: seq<string>): (r: Machine)
    ensures WellFormed(m) ==> WellFormed(r)
    ensures r.regs == m.regs && r.memory == m.memory
    ensures Finished(r) <==> lines == []
  {
    m.(program := lines, pc := 0, cycle := 0, stall := false, hazard := NoHazard,
       IF := Bubble, ID := Bubble, EX := Bubble, MEM := Bubble, WB := Bubble)
  }

  /** `n` registers holding 0. */
  function Zeros(n: nat): (z: seq<int>)
    ensures |z| == n && forall i :: 0 <= i < n ==> z[i] == 0
  {
    if n == 0 then [] else Zeros(n - 1) + [0]
  }

  /** The state a freshly constructed pipeline is in. */
  const Initial: Machine :=
    Machine(Bubble, Bubble, Bubble, Bubble, Bubble, [], Zeros(NumRegs), map[], 0, 0, false, NoHazard)

  /**
   * `k` consecutive cycles; None when one of them has undefined behaviour in
   * the C++ program (see StepDefined).
   */
  function Run(m: Machine, k: nat): (r: Option<Machine>)
    requires WellFormed(m)
    ensures r.Some? ==> WellFormed(r.value) && r.value.program == m.program
    ensures Finished(m) ==> r == Some(m)
    ensures r.Some? ==> m.cycle <= r.value.cycle <= m.cycle + k
    ensures r.Some? && !Finished(r.value) ==> r.value.cycle == m.cycle + k
    decreases k
  {
    if k == 0 then Some(m)
    else if !StepDefined(m) then None
    else Run(StepSpec(m), k - 1)
  }
}
