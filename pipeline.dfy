/**
 * The simulator object (pipeline.h:27-67, pipeline.cpp:5-29, 133-217): five
 * stage slots, a fixed 32-entry register file, a sparse memory, the program,
 * pc, cycle counter and hazard report, updated in place by LoadProgram and
 * Step. Each mutating method is proved to produce exactly the state that the
 * reference definitions in Engine give.
 */
module Simulator {
  import opened Decoder
  import opened Engine

  class Pipeline {
    var IF: Stage
    var ID: Stage
    var EX: Stage
    var MEM: Stage
    var WB: Stage
    var program: seq<string>
    const regs: array<int>
    var memory: map<int, int>
    var pc: int
    var cycle: nat
    var stall: bool
    var hazard: Hazard

    /** The whole state as a value. */
    function State(): Machine
      reads this, regs
    {
      Machine(IF, ID, EX, MEM, WB, program, regs[..], memory, pc, cycle, stall, hazard)
    }

    ghost predicate Valid()
      reads this, regs
    {
      regs.Length == NumRegs && WellFormed(State())
    }

    /** A fresh pipeline: bubbles everywhere, no program, zeroed registers, empty memory. */
    constructor ()
      ensures Valid() && fresh(regs)
      ensures State() == Initial
    {
      IF, ID, EX, MEM, WB := Bubble, Bubble, Bubble, Bubble, Bubble;
      program := [];
      regs := new int[NumRegs](_ => 0);
      memory := map[];
      pc, cycle := 0, 0;
      stall := false;
      hazard := NoHazard;
    }

    /** Installs a program and resets the pipeline; registers and memory keep their contents. */
    method LoadProgram(lines: seq<string>)
      requires Valid()
      modifies this
      ensures Valid()
      ensures State() == Reset(old(State()), lines)
    {
      program := lines;
      pc := 0;
      cycle := 0;
      stall := false;
      hazard := NoHazard;
      IF, ID, EX, MEM, WB := Bubble, Bubble, Bubble, Bubble, Bubble;
    }

    /** No line is left to fetch and every stage holds a bubble. */
    predicate IsFinished()
      reads this, regs
      ensures pc >= 0 ==>
        (IsFinished() <==> pc >= 4 * |program| && !IF.valid && !ID.valid && !EX.valid && !MEM.valid && !WB.valid)
    {
      Finished(State())
    }

    /** Advances the pipeline by one clock cycle. */
    method Step()
      requires Valid() && StepDefined(State())
      modifies this, regs
      ensures Valid()
      ensures State() == StepSpec(old(State()))
    {
      if IsFinished() {
        return;
      }
      ghost var m := State();
      DatapathShape(m);
      cycle := cycle + 1;
      stall := false;
      hazard := NoHazard;
      assert State() == Begin(m);
      ExecuteStage();
      WritebackStage();
      MemoryStage();
      assert State() == Datapath(m);
      ResolveHazards();
    }

    /**
     * Control hazard (flush), else load-use hazard (bubble), else the normal
     * shift followed by a fetch.
     */
    method ResolveHazards()
      requires regs.Length == NumRegs && Pending(State()) && !stall && hazard == NoHazard
      requires Classify(State()) == NoHazard ==> FetchDefined(State())
      modifies this
      ensures State() == match Classify(old(State()))
        case ControlHazard => Flush(old(State()))
        case LoadUseHazard => Stall(old(State()))
        case NoHazard => Advance(old(State()))
    {
      if DetectControl(State()) {
        stall := true;
        hazard := ControlHazard;
        IF := IF.(valid := false);
        ID := ID.(valid := false);
        if EX.branchTaken {
          pc := EX.branchTarget;
        }
        WB := MEM;
        MEM := EX;
        return;
      }

      if DetectLoadUse(State()) {
        stall := true;
        hazard := LoadUseHazard;
        WB := MEM;
        MEM := EX;
        EX := EX.(valid := false);
        return;
      }

      WB, MEM, EX, ID := MEM, EX, ID, IF;
      var i := WordIndex(pc);
      if i < |program| {
        IF := IF.(valid := true);
        IF := IF.(instr := Decode(program[i]).value);
        IF := IF.(pc := pc);
        pc := pc + 4;
      } else {
        IF := IF.(valid := false);
      }
    }

    /** EX computes its result, address or branch decision from forwarded operands. */
    method ExecuteStage()
      requires regs.Length == NumRegs
      modifies this
      ensures State() == old(State()).(EX := Execute(old(State())))
    {
      if EX.valid {
        var instr := EX.instr;
        if instr.isALU {
          var op1 := Forward(State(), instr.rs1);
          var op2 := Forward(State(), instr.rs2);
          EX := EX.(result := op1 + op2);
        } else if instr.isLoad || instr.isStore {
          EX := EX.(result := Forward(State(), instr.rs1) + instr.imm);
        } else if instr.isBranch {
          var val1 := Forward(State(), instr.rs1);
          var val2 := Forward(State(), instr.rs2);
          EX := EX.(branchTaken := val1 == val2);
          if EX.branchTaken {
            EX := EX.(branchTarget := EX.pc + instr.imm * 4);
          }
        }
      }
    }

    /** WB commits its result unless it is a store or targets register 0. */
    method WritebackStage()
      requires regs.Length == NumRegs && 0 <= WB.instr.rd < NumRegs
      modifies regs
      ensures State() == old(State()).(regs := Writeback(old(State())))
    {
      if WB.valid && !WB.instr.isStore && WB.instr.rd != 0 {
        regs[WB.instr.rd] := WB.result;
      }
    }

    /** A load in MEM reads memory (0 when unmapped); a store in MEM writes its forwarded source. */
    method MemoryStage()
      requires regs.Length == NumRegs
      modifies this
      ensures State() == Access(old(State()))
    {
      if MEM.valid {
        if MEM.instr.isLoad {
          var addr := MEM.result;
          MEM := MEM.(result := if addr in memory then memory[addr] else 0);
        } else if MEM.instr.isStore {
          var addr := MEM.result;
          var val := Forward(State(), MEM.instr.rs2);
          memory := memory[addr := val];
        }
      }
    }

    // ---------------------------------------------------------------------------
    // Queries
    // ---------------------------------------------------------------------------

    function Cycle(): nat
      reads this
    {
      cycle
    }

    function PC(): (r: int)
      reads this, regs
      requires Valid()
      ensures r % 4 == 0
    {
      pc
    }

    function StallInserted(): bool
      reads this
    {
      stall
    }

    function Message(): (msg: string)
      reads this, regs
      requires Valid()
      ensures (msg == "Hazard: None") <==> !StallInserted()
    {
      HazardMessage(hazard)
    }

    function Registers(): (r: seq<int>)
      reads this, regs
      requires Valid()
      ensures |r| == NumRegs && r[0] == 0
    {
      regs[..]
    }

    function Memory(): map<int, int>
      reads this
    {
      memory
    }

    function StageIF(): string reads this { StageText(IF) }
    function StageID(): string reads this { StageText(ID) }
    function StageEX(): string reads this { StageText(EX) }
    function StageMEM(): string reads this { StageText(MEM) }
    function StageWB(): string reads this { StageText(WB) }
  }
}
