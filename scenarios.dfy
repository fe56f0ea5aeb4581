/**
 * A worked program: `add x1, x0, x0` followed by `add x2, x1, x1`, run from a
 * fresh pipeline until it drains.
 */
module Scenarios {
  import opened Wrappers
  import opened Decoder
  import opened Engine
  import opened EngineProperties

  /** The state after three cycles: both lines fetched, the first in EX, the second in ID. */
  predicate BothFetched(m: Machine, l1: string, l2: string)
  {
    && WellFormed(m) && m.program == [l1, l2] && m.pc == 8 && m.cycle == 3
    && m.regs == Initial.regs
    && !m.IF.valid && !m.MEM.valid && !m.WB.valid
    && m.ID.valid && m.ID.instr == Blank(l2).(rd := 2, rs1 := 1, rs2 := 1, isALU := true)
    && m.EX.valid && m.EX.instr == Blank(l1).(rd := 1, isALU := true)
  }

  /** The first three cycles only fetch and shift. */
  lemma Fill(l1: string, l2: string) returns (m3: Machine)
    requires Decode(l1) == Some(Blank(l1).(rd := 1, isALU := true))
    requires Decode(l2) == Some(Blank(l2).(rd := 2, rs1 := 1, rs2 := 1, isALU := true))
    ensures Run(Reset(Initial, [l1, l2]), 3) == Some(m3)
    ensures BothFetched(m3, l1, l2)
    ensures Run(Reset(Initial, [l1, l2]), 7) == Run(m3, 4)
  {
    var m0 := Reset(Initial, [l1, l2]);
    DatapathShape(m0);
    var m1 := StepSpec(m0);
    StepAdvances(m0);
    DatapathShape(m1);
    var m2 := StepSpec(m1);
    StepAdvances(m1);
    DatapathShape(m2);
    m3 := StepSpec(m2);
    StepAdvances(m2);
    assert Run(m0, 3) == Some(m3);
    assert Run(m0, 7) == Run(m3, 4);
  }

  /** The state after five cycles: both sums computed, the second in MEM, the first in WB. */
  predicate BothComputed(m: Machine, l1: string, l2: string)
  {
    && WellFormed(m) && m.program == [l1, l2] && m.pc == 8 && m.cycle == 5
    && m.regs == Initial.regs
    && !m.IF.valid && !m.ID.valid && !m.EX.valid
    && m.MEM.valid && m.MEM.instr == Blank(l2).(rd := 2, rs1 := 1, rs2 := 1, isALU := true) && m.MEM.result == 0
    && m.WB.valid && m.WB.instr == Blank(l1).(rd := 1, isALU := true) && m.WB.result == 0
  }

  /** Four more cycles compute both sums, commit them and empty every stage. */
  lemma Drain(m: Machine, l1: string, l2: string)
    requires Decode(l1) == Some(Blank(l1).(rd := 1, isALU := true))
    requires Decode(l2) == Some(Blank(l2).(rd := 2, rs1 := 1, rs2 := 1, isALU := true))
    requires BothFetched(m, l1, l2)
    ensures Run(m, 4).Some?
    ensures var n := Run(m, 4).value;
      Finished(n) && n.cycle == 7 && n.pc == 8 && n.regs == m.regs
  {
    var m4, m5 := Compute(m, l1, l2);
    Commit(m5, l1, l2);
  }

  /**
   * Cycles 4 and 5: EX computes 0 + 0 for x1, then x1 + x1 for x2, with x1
   * forwarded from the first `add`, which is in MEM after cycle 4.
   */
  lemma Compute(m: Machine, l1: string, l2: string) returns (m4: Machine, m5: Machine)
    requires BothFetched(m, l1, l2)
    ensures m4 == StepSpec(m) && m5 == StepSpec(m4)
    ensures MEMSupplies(m4, 1) && !WBSupplies(m4, 1) && Forward(m4, 1) == m4.MEM.result
    ensures m5.MEM.result == Forward(m4, 1) + Forward(m4, 1)
    ensures BothComputed(m5, l1, l2)
    ensures Run(m, 4) == Run(m5, 2)
  {
    DatapathShape(m);
    m4 := StepSpec(m);
    StepAdvances(m);
    StepExecutes(m);
    DatapathShape(m4);
    m5 := StepSpec(m4);
    StepAdvances(m4);
    StepExecutes(m4);
    assert Run(m, 4) == Run(m5, 2);
  }

  /** Cycles 6 and 7: WB commits x1 and then x2, both 0, and the pipeline is empty. */
  lemma Commit(m5: Machine, l1: string, l2: string)
    requires BothComputed(m5, l1, l2)
    ensures Run(m5, 2).Some?
    ensures var n := Run(m5, 2).value;
      Finished(n) && n.cycle == 7 && n.pc == 8 && n.regs == m5.regs
  {
    DatapathShape(m5);
    var m6 := StepSpec(m5);
    StepAdvances(m5);
    StepRegisters(m5);
    DatapathShape(m6);
    var m7 := StepSpec(m6);
    StepAdvances(m6);
    StepRegisters(m6);
    assert Run(m5, 2) == Some(m7);
  }

  /**
   * Seven cycles drain the program: x1 and x2 end at 0, the cycle count is 7
   * and pc stops at 8, past the second line.
   */
  lemma EndToEnd(l1: string, l2: string)
    requires Decode(l1) == Some(Blank(l1).(rd := 1, isALU := true))
    requires Decode(l2) == Some(Blank(l2).(rd := 2, rs1 := 1, rs2 := 1, isALU := true))
    ensures var r := Run(Reset(Initial, [l1, l2]), 7);
      && r.Some? && Finished(r.value) && r.value.cycle == 7 && r.value.pc == 8
      && r.value.regs[1] == 0 && r.value.regs[2] == 0
  {
    var m3 := Fill(l1, l2);
    Drain(m3, l1, l2);
  }

  /** The same for the lines the assembler prints for the two instructions. */
  lemma EndToEndRendered()
    ensures var r := Run(Reset(Initial, [Render(Add(1, 0, 0)), Render(Add(2, 1, 1))]), 7);
      && r.Some? && Finished(r.value) && r.value.cycle == 7 && r.value.pc == 8
      && r.value.regs[1] == 0 && r.value.regs[2] == 0
  {
    DecodeRender(Add(1, 0, 0));
    DecodeRender(Add(2, 1, 1));
    EndToEnd(Render(Add(1, 0, 0)), Render(Add(2, 1, 1)));
  }
}
