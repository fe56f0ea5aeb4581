/**
 * Properties of the engine: what forwarding returns, how the detectors relate,
 * what one cycle does to each part of the state in each hazard case, and what
 * follows over several cycles, including the behaviours the code has as
 * written (stale EX forwarding, the branch left in EX, the branch decided
 * twice).
 */
module EngineProperties {
  import opened Wrappers
  import opened Decoder
  import opened Engine

  // ---------------------------------------------------------------------------
  // Forwarding
  // ---------------------------------------------------------------------------

  /**
   * Forwarding returns 0 outside the register file, and otherwise takes the
   * first supplier in the order WB, MEM, EX, register file; the older WB value
   * wins over a newer MEM one. Register 0 is not treated specially.
   */
  lemma ForwardOrder(m: Machine, r: int)
    requires |m.regs| == NumRegs
    ensures !(0 <= r < NumRegs) ==> Forward(m, r) == 0
    ensures 0 <= r < NumRegs && WBSupplies(m, r) ==> Forward(m, r) == m.WB.result
    ensures 0 <= r < NumRegs && !WBSupplies(m, r) && MEMSupplies(m, r) ==> Forward(m, r) == m.MEM.result
    ensures 0 <= r < NumRegs && !WBSupplies(m, r) && !MEMSupplies(m, r) && EXSupplies(m, r)
            ==> Forward(m, r) == m.EX.result
    ensures 0 <= r < NumRegs && !WBSupplies(m, r) && !MEMSupplies(m, r) && !EXSupplies(m, r)
            ==> Forward(m, r) == m.regs[r]
  {
  }

  /** A valid store in MEM has destination 0, so reading x0 forwards its address. */
  lemma StoreForwardsIntoRegisterZero(m: Machine)
    requires WellFormed(m) && m.MEM.valid && m.MEM.instr.isStore && !WBSupplies(m, 0)
    ensures Forward(m, 0) == m.MEM.result
  {
  }

  /** Hence forwarding can give register 0 a nonzero value, although the register itself stays 0. */
  // The witness is built on `Initial`, with no program and `pc` 0: forwarding reads only the stages and registers.
  lemma RegisterZeroCanForwardNonzero()
    ensures exists m :: WellFormed(m) && m.regs[0] == 0 && Forward(m, 0) != 0
  {
    var store := Stage(true, Blank("sw x0, 8(x0)").(isStore := true, imm := 8), 0, 8, false, 0);
    var m := Initial.(MEM := store);
    assert WellFormed(m);
    assert Forward(m, 0) == 8;
  }

  /**
   * An ALU instruction in EX that is the only supplier of its own source reads
   * its own result field, which is still the 0 copied from ID.
   */
  lemma StaleSelfForward(m: Machine)
    requires WellFormed(m) && m.EX.valid && m.EX.instr.isALU
    requires !WBSupplies(m, m.EX.instr.rd) && !MEMSupplies(m, m.EX.instr.rd)
    ensures Forward(m, m.EX.instr.rd) == 0
    ensures m.EX.instr.rs1 == m.EX.instr.rd ==>
      Execute(Begin(m)).result == Forward(m, m.EX.instr.rs2)
  {
  }

  /**
   * Without a data hazard, forwarding an operand of the valid instruction in
   * ID reads the register file.
   */
  lemma QuietOperandsReadRegisters(m: Machine, r: int)
    requires WellFormed(m) && m.ID.valid && !DetectData(m)
    requires r == m.ID.instr.rs1 || r == m.ID.instr.rs2
    requires 0 < r < NumRegs
    ensures Forward(m, r) == m.regs[r]
  {
  }

  // ---------------------------------------------------------------------------
  // One cycle
  // ---------------------------------------------------------------------------

  /** In every hazard case, MEM moves to WB and EX, as the datapath left them, to MEM. */
  lemma StepShiftsBack(m: Machine)
    requires WellFormed(m) && StepDefined(m) && !Finished(m)
    ensures StepSpec(m).MEM == Datapath(m).EX && StepSpec(m).WB == Datapath(m).MEM
    ensures StepSpec(m).memory == Datapath(m).memory
  {
    DatapathShape(m);
  }

  /** The memory stage on its own: what it does to memory and to the slot in MEM. */
  lemma AccessEffect(e: Machine)
    requires |e.regs| == NumRegs && WellFormedStage(e.MEM)
    ensures var d, x := Access(e), e.MEM;
      && (!(x.valid && x.instr.isStore) ==> d.memory == e.memory)
      && (x.valid && x.instr.isStore ==>
            && d.memory.Keys == e.memory.Keys + {x.result}
            && d.memory[x.result] == Forward(d, x.instr.rs2)
            && forall a :: a in e.memory && a != x.result ==> d.memory[a] == e.memory[a])
      && d.MEM.(result := x.result) == x
      && (x.valid && x.instr.isLoad ==>
            d.MEM.result == if x.result in e.memory then e.memory[x.result] else 0)
      && (!(x.valid && x.instr.isLoad) ==> d.MEM == x)
  {
  }

  /** The instruction in EX always moves to MEM, carrying what EX computed from forwarded operands. */
  lemma StepExecutes(m: Machine)
    requires WellFormed(m) && StepDefined(m) && !Finished(m)
    ensures var n, e := StepSpec(m), m.EX.instr;
      && n.MEM.valid == m.EX.valid && n.MEM.instr == e && n.MEM.pc == m.EX.pc
      && (m.EX.valid && e.isALU ==> n.MEM.result == Forward(m, e.rs1) + Forward(m, e.rs2))
      && (m.EX.valid && (e.isLoad || e.isStore) ==> n.MEM.result == Forward(m, e.rs1) + e.imm)
      && (m.EX.valid && e.isBranch ==>
            && n.MEM.branchTaken == (Forward(m, e.rs1) == Forward(m, e.rs2))
            && n.MEM.branchTarget == if n.MEM.branchTaken then m.EX.pc + 4 * e.imm else m.EX.branchTarget)
  {
    StepShiftsBack(m);
    var b := Begin(m);
    assert Datapath(m).EX == Execute(b);
    assert forall r :: Forward(b, r) == Forward(m, r);
  }

  /**
   * At most one register changes: WB's destination, when WB holds a valid
   * instruction that is not a store and names a register other than 0.
   */
  lemma StepRegisters(m: Machine)
    requires WellFormed(m) && StepDefined(m) && !Finished(m)
    ensures var n, w := StepSpec(m), m.WB;
      && n.regs[0] == 0
      && (w.valid && !w.instr.isStore && w.instr.rd != 0 ==> n.regs[w.instr.rd] == w.result)
      && forall i :: 0 <= i < NumRegs && n.regs[i] != m.regs[i] ==>
           i == w.instr.rd && i != 0 && w.valid && !w.instr.isStore
  {
    DatapathShape(m);
  }

  /**
   * At most one memory word changes: a valid store in MEM writes its source
   * operand, forwarded after writeback, at the address EX computed; a valid
   * load reads the word, or 0 when unmapped, and inserts nothing.
   */
  lemma StepMemory(m: Machine)
    requires WellFormed(m) && StepDefined(m) && !Finished(m)
    ensures var n, d, x := StepSpec(m), Datapath(m), m.MEM;
      && (!(x.valid && x.instr.isStore) ==> n.memory == m.memory)
      && (x.valid && x.instr.isStore ==>
            && n.memory.Keys == m.memory.Keys + {x.result}
            && n.memory[x.result] == Forward(d, x.instr.rs2)
            && forall a :: a in m.memory && a != x.result ==> n.memory[a] == m.memory[a])
      && n.WB.(result := x.result) == x
      && (x.valid && x.instr.isLoad ==>
            n.WB.result == if x.result in m.memory then m.memory[x.result] else 0)
      && (!(x.valid && x.instr.isLoad) ==> n.WB == x)
  {
    StepShiftsBack(m);
    var b := Begin(m);
    var e := b.(EX := Execute(b));
    AccessEffect(e.(regs := Writeback(e)));
  }

  /**
   * A store whose source is written by the ALU instruction right behind it
   * stores that younger instruction's freshly computed sum.
   */
  lemma StoreTakesYoungerAluValue(m: Machine)
    requires WellFormed(m) && StepDefined(m) && !Finished(m)
    requires m.MEM.valid && m.MEM.instr.isStore
    requires EXSupplies(m, m.MEM.instr.rs2) && m.MEM.instr.rs2 != 0
    requires !WBSupplies(m, m.MEM.instr.rs2)
    ensures StepSpec(m).memory[m.MEM.result] == StepSpec(m).MEM.result
  {
    DatapathShape(m);
  }

  /**
   * Control hazard: it is detected when EX holds a valid branch whose operands,
   * forwarded after writeback and memory access, are equal. The stall flag is
   * set, IF and ID are invalidated, MEM moves to WB, EX is copied into MEM and
   * stays in EX, pc follows EX's own taken decision, and nothing is fetched.
   */
  lemma StepControlHazard(m: Machine)
    requires WellFormed(m) && StepDefined(m) && !Finished(m)
    ensures var d := Datapath(m);
      Classify(d) == ControlHazard <==>
        m.EX.valid && m.EX.instr.isBranch && Forward(d, m.EX.instr.rs1) == Forward(d, m.EX.instr.rs2)
    ensures var n, d := StepSpec(m), Datapath(m);
      Classify(d) == ControlHazard ==>
        && n.stall && n.hazard == ControlHazard
        && n.IF == m.IF.(valid := false) && n.ID == m.ID.(valid := false)
        && n.WB == d.MEM && n.MEM == d.EX && n.EX == d.EX
        && n.pc == (if d.EX.branchTaken then m.EX.pc + 4 * m.EX.instr.imm else m.pc)
  {
    DatapathShape(m);
  }

  /**
   * Load-use hazard, checked only without a control hazard: EX holds a valid
   * load with a nonzero destination that the valid instruction in ID reads.
   * MEM moves to WB, EX to MEM, a bubble enters EX, and IF, ID and pc hold.
   */
  lemma StepLoadUseHazard(m: Machine)
    requires WellFormed(m) && StepDefined(m) && !Finished(m)
    ensures var d := Datapath(m);
      Classify(d) == LoadUseHazard <==>
        && !DetectControl(d)
        && m.EX.valid && m.EX.instr.isLoad && m.EX.instr.rd != 0 && m.ID.valid
        && (m.ID.instr.rs1 == m.EX.instr.rd || m.ID.instr.rs2 == m.EX.instr.rd)
    ensures var n, d := StepSpec(m), Datapath(m);
      Classify(d) == LoadUseHazard ==>
        && n.stall && n.hazard == LoadUseHazard
        && n.WB == d.MEM && n.MEM == d.EX && n.EX == d.EX.(valid := false)
        && n.IF == m.IF && n.ID == m.ID && n.pc == m.pc
  {
    DatapathShape(m);
  }

  /**
   * No hazard: the stall flag is clear, the stages shift by one, and IF is
   * refilled from the line at pc / 4 (pc moving on by 4) or emptied at the end
   * of the program.
   */
  lemma StepAdvances(m: Machine)
    requires WellFormed(m) && StepDefined(m) && !Finished(m)
    requires Classify(Datapath(m)) == NoHazard
    ensures var n, d, i := StepSpec(m), Datapath(m), WordIndex(m.pc);
      && !n.stall && n.hazard == NoHazard
      && n.WB == d.MEM && n.MEM == d.EX && n.EX == m.ID && n.ID == m.IF
      && (i < |m.program| ==>
            && 0 <= i && Decode(m.program[i]).Some?
            && n.IF == m.IF.(valid := true, instr := Decode(m.program[i]).value, pc := m.pc)
            && StageText(n.IF) == m.program[i]
            && n.pc == m.pc + 4)
      && (i >= |m.program| ==> n.IF == m.IF.(valid := false) && n.pc == m.pc)
  {
    DatapathShape(m);
  }

  /**
   * Back-to-back ALU instructions need no stall: when the producer in EX moves
   * on, the consumer following it sees the producer's sum through MEM
   * forwarding, unless an older instruction now in WB writes the same register.
   */
  lemma ProducerForwardsToNextInstruction(m: Machine)
    requires WellFormed(m) && StepDefined(m) && !Finished(m)
    requires m.EX.valid && m.EX.instr.isALU && !MEMSupplies(m, m.EX.instr.rd)
    ensures Classify(Datapath(m)) == NoHazard && !StepSpec(m).stall
    ensures var n, e := StepSpec(m), m.EX.instr;
      && n.EX == m.ID
      && Forward(n, e.rd) == Forward(m, e.rs1) + Forward(m, e.rs2)
  {
    AluInEXRaisesNoHazard(m);
    StepAdvances(m);
    StepExecutes(m);
  }

  /**
   * A valid ALU instruction in EX raises no hazard whatever lies ahead of it:
   * the control hazard needs a branch there and the load-use hazard a load.
   */
  lemma AluInEXRaisesNoHazard(m: Machine)
    requires WellFormed(m) && m.EX.valid && m.EX.instr.isALU
    ensures Classify(Datapath(m)) == NoHazard
    ensures StepDefined(m) && !Finished(m) ==> !StepSpec(m).stall
  {
    DatapathShape(m);
    if StepDefined(m) && !Finished(m) {
      StepAdvances(m);
    }
  }

  /**
   * The branch detector never sees the EX forwarding path: it runs only while
   * EX holds a branch, and that path needs an ALU instruction in EX.
   */
  lemma BranchDetectorSkipsEX(m: Machine, r: int)
    requires WellFormedStage(m.EX)
    ensures m.EX.valid && m.EX.instr.isBranch ==> !EXSupplies(m, r)
    ensures |m.regs| == NumRegs && DetectControl(m) ==> !EXSupplies(m, r)
  {
  }

  /** One load-use stall suffices: the next cycle raises no hazard, and the waiting instruction is still in ID. */
  lemma LoadUseStallsOnce(m: Machine)
    requires WellFormed(m) && StepDefined(m) && !Finished(m)
    requires Classify(Datapath(m)) == LoadUseHazard
    ensures var n := StepSpec(m);
      && n.ID == m.ID && !n.EX.valid
      && (!Finished(n) ==> Classify(Datapath(n)) == NoHazard)
  {
    DatapathShape(m);
    var n := StepSpec(m);
    StepLoadUseHazard(m);
    if !Finished(n) {
      DatapathShape(n);
    }
  }

  /**
   * After the one stall, the instruction that waited enters EX with the loaded
   * value (0 for an unmapped address) waiting for it in WB.
   */
  lemma LoadUseDeliversLoadedValue(m: Machine)
    requires WellFormed(m) && StepDefined(m) && !Finished(m)
    requires Classify(Datapath(m)) == LoadUseHazard
    requires StepDefined(StepSpec(m))
    ensures var n := StepSpec(m);
      var n2, a := StepSpec(n), n.MEM.result;
      && !Finished(n)
      && n2.EX == m.ID
      && Forward(n2, m.EX.instr.rd) == if a in n.memory then n.memory[a] else 0
  {
    var n := StepSpec(m);
    StepLoadUseHazard(m);
    StepShiftsBack(m);
    assert n.MEM.valid && n.MEM.instr == m.EX.instr;
    LoadUseStallsOnce(m);
    StepAdvances(n);
    StepMemory(n);
  }

  /** An unrecognised line is inert: it writes no register or memory, and passes EX unchanged. */
  lemma InertInstructionsDoNothing(m: Machine)
    requires WellFormed(m) && StepDefined(m) && !Finished(m)
    ensures Inert(m.WB.instr) ==> StepSpec(m).regs == m.regs
    ensures Inert(m.MEM.instr) ==> StepSpec(m).memory == m.memory
    ensures Inert(m.EX.instr) ==> StepSpec(m).MEM == m.EX
  {
    DatapathShape(m);
  }

  /**
   * The branch is decided twice. EX decides from operands forwarded before
   * the memory stage; the detector decides again after a load in MEM has
   * replaced its address by the loaded value. So the pipeline can flush IF and
   * ID without redirecting pc, and can ignore a branch EX found taken.
   */
  lemma BranchDecidedTwice()
    ensures exists m ::
      && WellFormed(m) && StepDefined(m) && !Finished(m)
      && Classify(Datapath(m)) == ControlHazard && !Datapath(m).EX.branchTaken
      && StepSpec(m).pc == m.pc
    ensures exists m ::
      && WellFormed(m) && StepDefined(m) && !Finished(m)
      && Classify(Datapath(m)) == NoHazard && Datapath(m).EX.branchTaken
      && StepSpec(m).pc == m.pc
  {
    // `lw x0, 100(x0)` directly followed by `beq x0, x2, 2`: a load into x0 raises
    // no load-use stall, so the branch reaches EX with the load in MEM.
    // EX compares the address 100 (x0 forwarded from MEM) with x2 = 0 and decides
    // not taken; the detector compares the loaded word 0 with 0 and flushes.
    // The witnesses are built on `Initial`, with no program and `pc` 0: program and
    // pc only decide what IF fetches, not how EX and the detector decide. With
    // lines left to fetch, the second witness would move pc on by 4, never to the target.
    var load := Stage(true, Blank("lw x0, 100(x0)").(isLoad := true, imm := 100), 0, 100, false, 0);
    var branch := Stage(true, Blank("beq x0, x2, 2").(rs2 := 2, isBranch := true, imm := 2), 4, 0, false, 0);
    var m1 := Initial.(EX := branch, MEM := load);
    assert Forward(Begin(m1), 0) == 100;
    assert Forward(Datapath(m1), 0) == 0;
    assert Classify(Datapath(m1)) == ControlHazard;
    assert StepSpec(m1).pc == m1.pc;
    // the same with `lw x0, 0(x0)` and address 0 holding 5: EX compares 0 with 0
    // and decides taken, the detector compares 5 with 0 and lets the branch go
    var load0 := Stage(true, Blank("lw x0, 0(x0)").(isLoad := true), 0, 0, false, 0);
    var m2 := Initial.(EX := branch, MEM := load0, memory := map[0 := 5]);
    assert Forward(Begin(m2), 0) == 0;
    assert Forward(Datapath(m2), 0) == 5;
    assert Classify(Datapath(m2)) == NoHazard;
    assert StepSpec(m2).pc == m2.pc;
  }

  // ---------------------------------------------------------------------------
  // A store followed by a load of the same address
  // ---------------------------------------------------------------------------

  /**
   * A load that computes the address a store in front of it wrote reads the
   * stored value: two cycles after the store is in MEM (a load-use stall in
   * between changes nothing), the load reaches WB carrying the word stored.
   */
  lemma StoreThenLoadRoundTrip(m: Machine)
    requires WellFormed(m) && StepDefined(m) && !Finished(m)
    requires m.MEM.valid && m.MEM.instr.isStore && m.EX.valid && m.EX.instr.isLoad
    requires Forward(m, m.EX.instr.rs1) + m.EX.instr.imm == m.MEM.result
    requires StepDefined(StepSpec(m))
    ensures var n, a := StepSpec(m), m.MEM.result;
      && a in n.memory && n.memory[a] == Forward(Datapath(m), m.MEM.instr.rs2)
      && !Finished(n)
      && StepSpec(n).WB.instr == m.EX.instr && StepSpec(n).WB.result == n.memory[a]
  {
    var n := StepSpec(m);
    StoreCommitsBeforeLoad(m);
    StepMemory(n);
  }

  /** The first cycle of the round trip: the store writes, and the load moves to MEM with the same address. */
  lemma StoreCommitsBeforeLoad(m: Machine)
    requires WellFormed(m) && StepDefined(m) && !Finished(m)
    requires m.MEM.valid && m.MEM.instr.isStore && m.EX.valid && m.EX.instr.isLoad
    requires Forward(m, m.EX.instr.rs1) + m.EX.instr.imm == m.MEM.result
    ensures var n, a := StepSpec(m), m.MEM.result;
      && WellFormed(n) && !Finished(n)
      && a in n.memory && n.memory[a] == Forward(Datapath(m), m.MEM.instr.rs2)
      && n.MEM.valid && n.MEM.instr == m.EX.instr && n.MEM.result == a
  {
    StepExecutes(m);
    StepMemory(m);
  }

  /**
   * As written, the round trip fails for a store directly followed by a load
   * based on x0: with x1 = 7, `sw x1, 100(x0)` in MEM and `lw x2, 100(x0)` in
   * EX, the load forwards x0 from the store in MEM (its destination is 0) and
   * so computes address 200, while the store writes 7 at 100. Two cycles on,
   * x2 is about to receive the unmapped word 0 instead of 7.
   */
  lemma StoreThenAdjacentLoadMisses()
    ensures exists m ::
      && WellFormed(m) && StepDefined(m) && !Finished(m)
      && m.regs[1] == 7 && StepDefined(StepSpec(m))
      && 100 in StepSpec(m).memory && StepSpec(m).memory[100] == 7 && StepSpec(m).MEM.result == 200
      && StepSpec(StepSpec(m)).WB.instr.rd == 2 && StepSpec(StepSpec(m)).WB.result == 0
  {
    // Built on `Initial`, with no program and `pc` 0, so the two steps fetch nothing.
    // With lines left to fetch only IF, ID and pc would differ, not the MEM and WB
    // results, registers or memory shown.
    var store := Stage(true, Blank("sw x1, 100(x0)").(rs2 := 1, isStore := true, imm := 100), 0, 100, false, 0);
    var load := Stage(true, Blank("lw x2, 100(x0)").(rd := 2, isLoad := true, imm := 100), 4, 0, false, 0);
    var m := Initial.(MEM := store, EX := load, regs := Zeros(NumRegs)[1 := 7]);
    assert WellFormed(m) && !Finished(m);
    assert Forward(Begin(m), 0) == 100;
    StepExecutes(m);
    StepMemory(m);
    var n := StepSpec(m);
    assert n.MEM.result == 200 && n.memory == map[100 := 7];
    assert !Finished(n) && StepDefined(n);
    StepMemory(n);
    assert StepSpec(n).WB.result == 0;
  }

  // ---------------------------------------------------------------------------
  // Several cycles
  // ---------------------------------------------------------------------------

  /** A branch comparing a register with itself is taken: IF and ID are flushed and pc jumps to its target. */
  lemma SelfComparingBranchRedirects(m: Machine)
    requires WellFormed(m) && !Finished(m)
    requires m.EX.valid && m.EX.instr.isBranch && m.EX.instr.rs1 == m.EX.instr.rs2
    ensures StepDefined(m)
    ensures var n := StepSpec(m);
      && n.stall && n.hazard == ControlHazard
      && !n.IF.valid && !n.ID.valid
      && n.pc == m.EX.pc + 4 * m.EX.instr.imm
  {
    DatapathShape(m);
    assert Classify(Datapath(m)) == ControlHazard;
    StepControlHazard(m);
  }

  /**
   * A branch comparing a register with itself always raises a control hazard,
   * and since the flush leaves EX in place it stays in EX forever: such a
   * program never finishes.
   */
  lemma {:induction false} SelfComparingBranchNeverDrains(m: Machine, k: nat)
    requires WellFormed(m) && m.EX.valid && m.EX.instr.isBranch && m.EX.instr.rs1 == m.EX.instr.rs2
    ensures Run(m, k).Some?
    ensures !Finished(Run(m, k).value)
    ensures Run(m, k).value.EX.valid && Run(m, k).value.EX.instr == m.EX.instr
    decreases k
  {
    if k > 0 {
      DatapathShape(m);
      assert Classify(Datapath(m)) == ControlHazard;
      var n := StepSpec(m);
      assert n.EX.valid && n.EX.instr == m.EX.instr;
      SelfComparingBranchNeverDrains(n, k - 1);
    }
  }

  // ---------------------------------------------------------------------------
  // Loading and construction
  // ---------------------------------------------------------------------------

  /** A fresh pipeline satisfies the invariants and is already finished. */
  lemma InitialIsFinished()
    ensures WellFormed(Initial) && Finished(Initial)
    ensures forall i :: 0 <= i < NumRegs ==> Initial.regs[i] == 0
  {
  }

  /** Loading the same program twice is the same as loading it once. */
  lemma LoadIdempotent(m: Machine, lines: seq<string>)
    ensures Reset(Reset(m, lines), lines) == Reset(m, lines)
  {
  }
}
