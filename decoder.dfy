/**
 * Decoding of one program line into an Instruction record (pipeline.h:9-16,
 * pipeline.cpp:31-93), and a small assembler that renders well-formed
 * instructions as text, so that decoding can be checked against it.
 */
module Decoder {
  import opened Wrappers
  import opened Lexing

  /**
   * A decoded instruction. Register indices and the immediate are the values
   * the text named; at most one of the four kind flags is set.
   */
  datatype Instruction = Instruction(
    text: string,
    rd: int, rs1: int, rs2: int, imm: int,
    isLoad: bool, isStore: bool, isALU: bool, isBranch: bool)

  /** The default-initialised record for `text`: indices and immediate 0, no kind flag. */
  function Blank(text: string): Instruction
  {
    Instruction(text, 0, 0, 0, 0, false, false, false, false)
  }

  /** An instruction with no effect on forwarding, hazards, writeback or memory. */
  predicate Inert(i: Instruction)
  {
    i == Blank(i.text)
  }

  function KindCount(i: Instruction): nat
  {
    (if i.isLoad then 1 else 0) + (if i.isStore then 1 else 0) +
    (if i.isALU then 1 else 0) + (if i.isBranch then 1 else 0)
  }

  /** The first whitespace-separated token of a line. */
  function Opcode(line: string): string
  {
    Token(Words(line), 0)
  }

  predicate IsOpcode(op: string)
  {
    op == "add" || op == "lw" || op == "sw" || op == "beq"
  }

  /** A register token with one trailing comma removed. */
  function CleanReg(t: string): (r: string)
    // at most one trailing comma goes, and a token without one is unchanged
    ensures r == t || t == r + ","
    ensures t == [] || t[|t| - 1] != ',' ==> r == t
  {
    if t != [] && t[|t| - 1] == ',' then t[..|t| - 1] else t
  }

  /**
   * A register token `x<n>` or `X<n>` gives `n` as `std::stoi` reads it; any
   * other token gives register 0. None: the conversion fails (the C++ code
   * throws, uncaught).
   */
  function ParseReg(t: string): (r: Option<int>)
    ensures |t| < 2 || (t[0] != 'x' && t[0] != 'X') ==> r == Some(0)
    ensures r.Some? ==> InIntRange(r.value)
  {
    if |t| >= 2 && (t[0] == 'x' || t[0] == 'X') then StoI(t[1..]) else Some(0)
  }

  /** The index of the first occurrence of `c` in `s`, like `std::string::find`. */
  function Find(s: string, c: char): (r: Option<nat>)
    ensures r.Some? <==> c in s
    ensures r.Some? ==> r.value < |s| && s[r.value] == c && c !in s[..r.value]
  {
    if s == [] then None
    else if s[0] == c then Some(0)
    else
      match Find(s[1..], c)
      case None => None
      case Some(k) =>
        assert s[..k + 1] == [s[0]] + s[1..][..k];
        Some(k + 1)
  }

  /**
   * `mem.substr(l + 1, rp - l - 1)`: the text between the parentheses. When the
   * first ')' precedes the first '(' the unsigned count wraps around to a huge
   * value and the substring runs to the end of the operand.
   */
  function BaseText(mem: string, l: nat, rp: nat): string
    requires l < |mem| && rp < |mem|
  {
    if l < rp then mem[l + 1..rp] else mem[l + 1..]
  }

  /**
   * Fills `imm` and `rs1` of a load or store from an `imm(xN)` operand when it
   * holds both a '(' and a ')'; otherwise leaves the instruction as it is.
   */
  function WithMemOperand(inst: Instruction, mem: string): (r: Option<Instruction>)
    ensures r.Some? ==> r.value.(imm := inst.imm, rs1 := inst.rs1) == inst
    ensures '(' !in mem || ')' !in mem ==> r == Some(inst)
  {
    match (Find(mem, '('), Find(mem, ')'))
    case (Some(l), Some(rp)) =>
      var imm :- StoI(mem[..l]);
      var rs1 :- ParseReg(CleanReg(BaseText(mem, l, rp)));
      Some(inst.(imm := imm, rs1 := rs1))
    case _ => Some(inst)
  }

  /** The immediate of a branch: a failed conversion is caught and gives 0. */
  function BranchOffset(t: string): (imm: int)
    ensures InIntRange(imm)
  {
    match StoI(t)
    case Some(v) => v
    case None => 0
  }

  /**
   * Decodes one line. None stands for the uncaught exception `std::stoi`
   * raises on a malformed register number or load/store immediate.
   */
  function Decode(line: string): (r: Option<Instruction>)
    ensures r.Some? ==> r.value.text == line && KindCount(r.value) <= 1
    ensures r.Some? ==>
      && (r.value.isALU <==> Opcode(line) == "add")
      && (r.value.isLoad <==> Opcode(line) == "lw")
      && (r.value.isStore <==> Opcode(line) == "sw")
      && (r.value.isBranch <==> Opcode(line) == "beq")
    ensures r.Some? && (r.value.isStore || r.value.isBranch) ==> r.value.rd == 0
    ensures !IsOpcode(Opcode(line)) ==> r == Some(Blank(line))
    ensures Opcode(line) == "beq" && r.Some? ==> r.value.imm == BranchOffset(Token(Words(line), 3))
  {
    var ws := Words(line);
    var op := Token(ws, 0);
    var inst := Blank(line);
    if op == "add" then
      var rd :- ParseReg(CleanReg(Token(ws, 1)));
      var rs1 :- ParseReg(CleanReg(Token(ws, 2)));
      var rs2 :- ParseReg(CleanReg(Token(ws, 3)));
      Some(inst.(rd := rd, rs1 := rs1, rs2 := rs2, isALU := true))
    else if op == "lw" then
      var rd :- ParseReg(CleanReg(Token(ws, 1)));
      WithMemOperand(inst.(rd := rd, isLoad := true), Token(ws, 2))
    else if op == "sw" then
      var rs2 :- ParseReg(CleanReg(Token(ws, 1)));
      WithMemOperand(inst.(rs2 := rs2, isStore := true), Token(ws, 2))
    else if op == "beq" then
      var rs1 :- ParseReg(CleanReg(Token(ws, 1)));
      var rs2 :- ParseReg(CleanReg(Token(ws, 2)));
      Some(inst.(rs1 := rs1, rs2 := rs2, imm := BranchOffset(Token(ws, 3)), isBranch := true))
    else
      Some(inst)
  }

  /** A line the pipeline can fetch: it decodes, and its destination indexes the register file. */
  predicate Fetchable(line: string)
  {
    Decode(line).Some? && 0 <= Decode(line).value.rd < 32
  }

  /**
   * `x<digits>` and `X<digits>` name the register the digits give, when that
   * fits in an int; a register letter followed by no digit at all makes the
   * conversion throw.
   */
  lemma ParseRegValue(t: string)
    requires |t| >= 2 && (t[0] == 'x' || t[0] == 'X')
    ensures AllDigits(t[1..]) ==>
      (ParseReg(t).Some? <==> DigitsValue(t[1..]) <= IntMax) &&
      (ParseReg(t).Some? ==> ParseReg(t).value == DigitsValue(t[1..]))
    ensures NoDigit(t[1..]) ==> ParseReg(t) == None
    ensures !IsSpace(t[1]) && !IsDigit(t[1]) && t[1] != '-' && t[1] != '+' ==> ParseReg(t) == None
  {
    StoIValue(t[1..]);
  }

  /**
   * The caught conversion: a label without any digit, or one starting with a
   * letter or other non-digit that is not a sign (`L1`, `loop2`), gives offset
   * 0; a label starting with a digit is read up to the first non-digit; a run
   * of digits gives its value; a value that does not fit in an int gives 0.
   */
  lemma BranchOffsetValue(t: string)
    ensures NoDigit(t) ==> BranchOffset(t) == 0
    ensures t != [] && !IsSpace(t[0]) && !IsDigit(t[0]) && t[0] != '-' && t[0] != '+' ==> BranchOffset(t) == 0
    ensures t != [] && IsDigit(t[0]) ==>
      BranchOffset(t) == if DigitsValue(DigitRun(t)) <= IntMax then DigitsValue(DigitRun(t)) else 0
    ensures t != [] && AllDigits(t) ==>
      BranchOffset(t) == if DigitsValue(t) <= IntMax then DigitsValue(t) else 0
  {
    StoIValue(t);
  }

  /** Symbolic labels branch by 0; a trailing comma after the number is ignored. */
  lemma BranchOffsetExamples()
    ensures BranchOffset("L1") == 0 && BranchOffset("loop2") == 0
    ensures BranchOffset("2,") == 2
  {
    BranchOffsetValue("L1");
    BranchOffsetValue("loop2");
    var two: string := ['2', ','];
    BranchOffsetValue(two);
    assert DigitRun(two[1..]) == [];
    assert DigitRun(two) == ['2'];
    assert DigitsValue(['2']) == 2;
    assert two == "2,";
  }

  /** The decimal text of a 32-bit integer is read back as the branch offset. */
  lemma BranchOffsetShowInt(i: int)
    requires InIntRange(i)
    ensures BranchOffset(ShowInt(i)) == i
  {
    StoIShowInt(i);
  }

  /** A load or store whose operand lacks a parenthesis keeps immediate and base register 0. */
  lemma MalformedMemOperand(line: string)
    requires Opcode(line) == "lw" || Opcode(line) == "sw"
    requires '(' !in Token(Words(line), 2) || ')' !in Token(Words(line), 2)
    requires Decode(line).Some?
    ensures Decode(line).value.imm == 0 && Decode(line).value.rs1 == 0
  {
  }

  /** A branch fails to decode only through its register operands, never through its immediate. */
  lemma BranchDecodeFailure(line: string)
    requires Opcode(line) == "beq"
    ensures Decode(line).None? <==>
      ParseReg(CleanReg(Token(Words(line), 1))).None? ||
      ParseReg(CleanReg(Token(Words(line), 2))).None?
  {
  }

  /** An `add` fails to decode exactly when one of its three register tokens fails. */
  lemma AddDecodeFailure(line: string)
    requires Opcode(line) == "add"
    ensures var ws := Words(line);
      Decode(line).None? <==>
        || ParseReg(CleanReg(Token(ws, 1))).None?
        || ParseReg(CleanReg(Token(ws, 2))).None?
        || ParseReg(CleanReg(Token(ws, 3))).None?
  {
  }

  /**
   * A load or store fails to decode exactly when its register token fails, or
   * when its operand holds both parentheses and the immediate before the '(' or
   * the base register fails; an immediate without any digit always fails.
   */
  lemma MemDecodeFailure(line: string)
    requires Opcode(line) == "lw" || Opcode(line) == "sw"
    ensures var ws := Words(line);
      var mem, l, rp := Token(ws, 2), Find(Token(ws, 2), '('), Find(Token(ws, 2), ')');
      Decode(line).None? <==>
        || ParseReg(CleanReg(Token(ws, 1))).None?
        || (l.Some? && rp.Some? &&
            (StoI(mem[..l.value]).None? || ParseReg(CleanReg(BaseText(mem, l.value, rp.value))).None?))
    ensures var ws := Words(line);
      var mem, l := Token(ws, 2), Find(Token(ws, 2), '(');
      l.Some? && ')' in mem && NoDigit(mem[..l.value]) ==> Decode(line).None?
  {
    var mem := Token(Words(line), 2);
    var l := Find(mem, '(');
    if l.Some? {
      StoIValue(mem[..l.value]);
    }
  }

  // ---------------------------------------------------------------------------
  // An assembler for the four recognised forms, and the decoding round trip
  // ---------------------------------------------------------------------------

  datatype Asm =
    | Add(rd: nat, rs1: nat, rs2: nat)
    | Lw(rd: nat, offset: int, base: nat)
    | Sw(src: nat, offset: int, base: nat)
    | Beq(rs1: nat, rs2: nat, offset: int)

  predicate AsmValid(a: Asm)
  {
    match a
    case Add(rd, rs1, rs2) => rd < 32 && rs1 < 32 && rs2 < 32
    case Lw(rd, offset, base) => rd < 32 && base < 32 && InIntRange(offset)
    case Sw(src, offset, base) => src < 32 && base < 32 && InIntRange(offset)
    case Beq(rs1, rs2, offset) => rs1 < 32 && rs2 < 32 && InIntRange(offset)
  }

  function RegName(r: nat): string
  {
    "x" + ShowNat(r)
  }

  function MemText(offset: int, base: nat): string
  {
    ShowInt(offset) + "(" + RegName(base) + ")"
  }

  /** The canonical text of an instruction: `add x1, x2, x3`, `lw x1, 8(x2)`, `sw x1, -4(x2)`, `beq x1, x2, 3`. */
  function Render(a: Asm): string
  {
    match a
    case Add(rd, rs1, rs2) => Unwords(["add", RegName(rd) + ",", RegName(rs1) + ",", RegName(rs2)])
    case Lw(rd, offset, base) => Unwords(["lw", RegName(rd) + ",", MemText(offset, base)])
    case Sw(src, offset, base) => Unwords(["sw", RegName(src) + ",", MemText(offset, base)])
    case Beq(rs1, rs2, offset) => Unwords(["beq", RegName(rs1) + ",", RegName(rs2) + ",", ShowInt(offset)])
  }

  /** The record an instruction should decode to. */
  function Meaning(a: Asm, text: string): Instruction
  {
    match a
    case Add(rd, rs1, rs2) => Blank(text).(rd := rd, rs1 := rs1, rs2 := rs2, isALU := true)
    case Lw(rd, offset, base) => Blank(text).(rd := rd, rs1 := base, imm := offset, isLoad := true)
    case Sw(src, offset, base) => Blank(text).(rs2 := src, rs1 := base, imm := offset, isStore := true)
    case Beq(rs1, rs2, offset) => Blank(text).(rs1 := rs1, rs2 := rs2, imm := offset, isBranch := true)
  }

  lemma RegNameShape(r: nat)
    ensures RegName(r) != [] && NoSpace(RegName(r)) && NoSpace(RegName(r) + ",")
    ensures '(' !in RegName(r) && ')' !in RegName(r) && ',' !in RegName(r)
  {
    var name, s := RegName(r), ShowNat(r);
    forall k | 1 <= k < |name| ensures IsDigit(name[k]) {
      assert name[k] == s[k - 1];
    }
  }

  lemma RegNameParses(r: nat)
    requires r < 32
    ensures CleanReg(RegName(r)) == RegName(r)
    ensures CleanReg(RegName(r) + ",") == RegName(r)
    ensures ParseReg(RegName(r)) == Some(r)
  {
    var name := RegName(r);
    RegNameShape(r);
    assert CleanReg(name) == name by {
      assert name[|name| - 1] in name;
    }
    assert CleanReg(name + ",") == name by {
      assert (name + ",")[..|name|] == name;
    }
    assert ParseReg(name) == StoI(ShowNat(r)) by {
      assert name[1..] == ShowNat(r);
    }
    assert ShowInt(r) == ShowNat(r);
    StoIShowInt(r);
  }

  /** `find` returns the position of the first `c`, the one right after a text without any. */
  lemma {:induction false} FindAfter(a: string, c: char, b: string)
    requires c !in a
    ensures Find(a + [c] + b, c) == Some(|a|)
    decreases |a|
  {
    if a == [] {
      assert (a + [c] + b)[0] == c;
    } else {
      assert (a + [c] + b)[1..] == a[1..] + [c] + b;
      FindAfter(a[1..], c, b);
    }
  }

  lemma ShowIntHasNoParen(offset: int)
    ensures '(' !in ShowInt(offset) && ')' !in ShowInt(offset) && NoSpace(ShowInt(offset))
  {
    var o := ShowInt(offset);
    ShowIntChars(offset);
    forall k | 0 <= k < |o| ensures o[k] != '(' && o[k] != ')' && !IsSpace(o[k]) {}
  }

  lemma MemTextShape(offset: int, base: nat)
    ensures NoSpace(MemText(offset, base)) && MemText(offset, base) != []
  {
    var o, reg := ShowInt(offset), RegName(base);
    var mem := MemText(offset, base);
    RegNameShape(base);
    ShowIntHasNoParen(offset);
    forall k | 0 <= k < |mem| ensures !IsSpace(mem[k]) {
      if k < |o| {
        assert mem[k] == o[k];
      } else if |o| < k < |o| + 1 + |reg| {
        assert mem[k] == reg[k - |o| - 1];
      }
    }
  }

  lemma WithMemOperandParts(inst: Instruction, mem: string, l: nat, rp: nat, imm: int, rs1: int)
    requires Find(mem, '(') == Some(l) && Find(mem, ')') == Some(rp)
    requires StoI(mem[..l]) == Some(imm)
    requires ParseReg(CleanReg(BaseText(mem, l, rp))) == Some(rs1)
    ensures WithMemOperand(inst, mem) == Some(inst.(imm := imm, rs1 := rs1))
  {
  }

  /** An operand `o(reg)` sets the immediate from `o` and the base register from `reg`. */
  lemma ParenthesisedOperand(inst: Instruction, o: string, reg: string, imm: int, base: int)
    requires '(' !in o && ')' !in o && ')' !in reg
    requires StoI(o) == Some(imm) && ParseReg(CleanReg(reg)) == Some(base)
    ensures WithMemOperand(inst, o + "(" + reg + ")") == Some(inst.(imm := imm, rs1 := base))
  {
    var mem := o + "(" + reg + ")";
    var l, rp := |o|, |o| + 1 + |reg|;
    ParenthesisedParts(o, reg, mem);
    assert StoI(mem[..l]) == Some(imm);
    assert ParseReg(CleanReg(BaseText(mem, l, rp))) == Some(base);
    WithMemOperandParts(inst, mem, l, rp, imm, base);
  }

  /** Where `find` puts the parentheses of `mem = o(reg)`, and the two texts they delimit. */
  lemma ParenthesisedParts(o: string, reg: string, mem: string)
    requires '(' !in o && ')' !in o && ')' !in reg
    requires mem == o + "(" + reg + ")"
    ensures |o| < |mem| && |o| + 1 + |reg| < |mem|
    ensures Find(mem, '(') == Some(|o|) && Find(mem, ')') == Some(|o| + 1 + |reg|)
    ensures mem[..|o|] == o && BaseText(mem, |o|, |o| + 1 + |reg|) == reg
  {
    var pre := o + "(" + reg;
    assert mem == pre + ")" == o + ['('] + (reg + ")");
    FindAfter(o, '(', reg + ")");
    ParenthesisedClose(o, reg, pre);
    assert mem[..|o|] == o;
    assert mem[|o| + 1..|o| + 1 + |reg|] == reg;
  }

  lemma ParenthesisedClose(o: string, reg: string, pre: string)
    requires ')' !in o && ')' !in reg && pre == o + "(" + reg
    ensures |pre| == |o| + 1 + |reg| && Find(pre + ")", ')') == Some(|o| + 1 + |reg|)
  {
    assert ')' !in "(";
    assert ')' !in pre;
    assert pre + ")" == pre + [')'] + [];
    FindAfter(pre, ')', []);
  }

  /**
   * When a ')' comes before the first '(', the base register text is
   * everything after the '(' (the unsigned length wraps around), and the
   * immediate is read from the text before the '(' that includes the ')'.
   */
  lemma CloseBeforeOpen(inst: Instruction, o: string, p: string, reg: string, imm: int, base: int)
    requires '(' !in o && ')' !in o && '(' !in p
    requires StoI(o + ")" + p) == Some(imm) && ParseReg(CleanReg(reg)) == Some(base)
    ensures WithMemOperand(inst, o + ")" + p + "(" + reg) == Some(inst.(imm := imm, rs1 := base))
  {
    var pre := o + ")" + p;
    var mem := pre + "(" + reg;
    CloseBeforeOpenParts(o, p, reg);
    WithMemOperandParts(inst, mem, |pre|, |o|, imm, base);
  }

  /** Where `find` puts the parentheses of `o)p(reg`, and the two texts they delimit. */
  lemma CloseBeforeOpenParts(o: string, p: string, reg: string)
    requires '(' !in o && ')' !in o && '(' !in p
    ensures var pre := o + ")" + p; var mem := pre + "(" + reg;
      && Find(mem, ')') == Some(|o|) && Find(mem, '(') == Some(|pre|)
      && mem[..|pre|] == pre && BaseText(mem, |pre|, |o|) == reg
  {
    var pre := o + ")" + p;
    var mem := pre + "(" + reg;
    assert mem == o + [')'] + (p + "(" + reg);
    FindAfter(o, ')', p + "(" + reg);
    assert '(' !in ")";
    assert mem == pre + ['('] + reg;
    FindAfter(pre, '(', reg);
    assert mem[..|pre|] == pre;
    assert mem[|pre| + 1..] == reg;
  }

  /** `8)(x3` gives immediate 8 and base register x3. */
  lemma CloseBeforeOpenExample(inst: Instruction)
    ensures WithMemOperand(inst, "8)(x3") == Some(inst.(imm := 8, rs1 := 3))
  {
    ExampleParts();
    CloseBeforeOpen(inst, ['8'], [], ['x', '3'], 8, 3);
  }

  /** `8)(x3` is `8`, `)`, nothing, `(`, `x3`: `8)` reads as 8 and `x3` names register 3. */
  lemma ExampleParts()
    ensures "8)(x3" == ['8'] + ")" + [] + "(" + ['x', '3']
    ensures '(' !in ['8'] && ')' !in ['8'] && '(' !in []
    ensures StoI(['8'] + ")" + []) == Some(8)
    ensures ParseReg(CleanReg(['x', '3'])) == Some(3)
  {
    assert ['8'] + ")" + [] == ['8', ')'];
    StoIEightParen();
    RegisterX3();
  }

  lemma StoIEightParen()
    ensures StoI(['8', ')']) == Some(8)
  {
    var s: string := ['8', ')'];
    assert DropSpace(s) == s;
    assert DigitRun(s[1..]) == [];
    assert DigitRun(s) == ['8'];
    assert DigitsValue(['8']) == 8;
  }

  lemma RegisterX3()
    ensures ParseReg(CleanReg(['x', '3'])) == Some(3)
  {
    var reg: string := ['x', '3'];
    assert CleanReg(reg) == reg;
    assert reg[1..] == ['3'] && AllDigits(reg[1..]);
    ParseRegValue(reg);
    assert DigitsValue(['3']) == 3;
  }

  lemma MemTextParses(inst: Instruction, offset: int, base: nat)
    requires base < 32 && InIntRange(offset)
    ensures WithMemOperand(inst, MemText(offset, base)) == Some(inst.(imm := offset, rs1 := base))
  {
    RegNameShape(base);
    RegNameParses(base);
    ShowIntHasNoParen(offset);
    StoIShowInt(offset);
    ParenthesisedOperand(inst, ShowInt(offset), RegName(base), offset, base);
  }

  lemma SplitFour(a: string, b: string, c: string, d: string)
    requires a != [] && b != [] && c != [] && d != []
    requires NoSpace(a) && NoSpace(b) && NoSpace(c) && NoSpace(d)
    ensures Words(Unwords([a, b, c, d])) == [a, b, c, d]
  {
    WordsUnwords([a, b, c, d]);
  }

  lemma DecodeAdd(line: string, a: string, b: string, c: string, rd: int, rs1: int, rs2: int)
    requires Words(line) == ["add", a, b, c]
    requires ParseReg(CleanReg(a)) == Some(rd) && ParseReg(CleanReg(b)) == Some(rs1)
    requires ParseReg(CleanReg(c)) == Some(rs2)
    ensures Decode(line) == Some(Blank(line).(rd := rd, rs1 := rs1, rs2 := rs2, isALU := true))
  {
    var ws := Words(line);
    assert Token(ws, 0) == "add" && Token(ws, 1) == a && Token(ws, 2) == b && Token(ws, 3) == c;
    DecodeAddTokens(line, rd, rs1, rs2);
  }

  /** The `add` branch of `Decode`, in terms of the tokens alone. */
  lemma DecodeAddTokens(line: string, rd: int, rs1: int, rs2: int)
    requires Token(Words(line), 0) == "add"
    requires ParseReg(CleanReg(Token(Words(line), 1))) == Some(rd)
    requires ParseReg(CleanReg(Token(Words(line), 2))) == Some(rs1)
    requires ParseReg(CleanReg(Token(Words(line), 3))) == Some(rs2)
    ensures Decode(line) == Some(Blank(line).(rd := rd, rs1 := rs1, rs2 := rs2, isALU := true))
  {
  }

  lemma DecodeBeq(line: string, a: string, b: string, c: string, rs1: int, rs2: int)
    requires Words(line) == ["beq", a, b, c]
    requires ParseReg(CleanReg(a)) == Some(rs1) && ParseReg(CleanReg(b)) == Some(rs2)
    ensures Decode(line) == Some(Blank(line).(rs1 := rs1, rs2 := rs2, imm := BranchOffset(c), isBranch := true))
  {
    var ws := Words(line);
    assert Token(ws, 0) == "beq" && Token(ws, 1) == a && Token(ws, 2) == b && Token(ws, 3) == c;
    DecodeBeqTokens(line, rs1, rs2);
  }

  /** The `beq` branch of `Decode`, in terms of the tokens alone. */
  lemma DecodeBeqTokens(line: string, rs1: int, rs2: int)
    requires Token(Words(line), 0) == "beq"
    requires ParseReg(CleanReg(Token(Words(line), 1))) == Some(rs1)
    requires ParseReg(CleanReg(Token(Words(line), 2))) == Some(rs2)
    ensures Decode(line) == Some(Blank(line).(rs1 := rs1, rs2 := rs2, imm := BranchOffset(Token(Words(line), 3)), isBranch := true))
  {
  }

  lemma DecodeRenderAdd(rd: nat, rs1: nat, rs2: nat)
    requires rd < 32 && rs1 < 32 && rs2 < 32
    ensures Decode(Render(Add(rd, rs1, rs2))) == Some(Meaning(Add(rd, rs1, rs2), Render(Add(rd, rs1, rs2))))
  {
    var a, b, c := RegName(rd) + ",", RegName(rs1) + ",", RegName(rs2);
    var line := Render(Add(rd, rs1, rs2));
    assert Words(line) == ["add", a, b, c] by {
      RegNameShape(rd); RegNameShape(rs1); RegNameShape(rs2);
      assert NoSpace("add");
      SplitFour("add", a, b, c);
    }
    assert ParseReg(CleanReg(a)) == Some(rd) && ParseReg(CleanReg(b)) == Some(rs1) && ParseReg(CleanReg(c)) == Some(rs2) by {
      RegNameParses(rd); RegNameParses(rs1); RegNameParses(rs2);
    }
    DecodeAdd(line, a, b, c, rd, rs1, rs2);
  }

  lemma DecodeLoadStore(line: string, op: string, reg: string, mem: string, r: int)
    requires op == "lw" || op == "sw"
    requires Words(line) == [op, reg, mem] && ParseReg(CleanReg(reg)) == Some(r)
    ensures op == "lw" ==> Decode(line) == WithMemOperand(Blank(line).(rd := r, isLoad := true), mem)
    ensures op == "sw" ==> Decode(line) == WithMemOperand(Blank(line).(rs2 := r, isStore := true), mem)
  {
    var ws := Words(line);
    assert Token(ws, 0) == op && Token(ws, 1) == reg && Token(ws, 2) == mem;
  }

  lemma DecodeRenderLw(rd: nat, offset: int, base: nat)
    requires rd < 32 && base < 32 && InIntRange(offset)
    ensures Decode(Render(Lw(rd, offset, base))) == Some(Meaning(Lw(rd, offset, base), Render(Lw(rd, offset, base))))
  {
    var ws := ["lw", RegName(rd) + ",", MemText(offset, base)];
    var line := Unwords(ws);
    RegNameShape(rd); RegNameParses(rd);
    MemTextShape(offset, base);
    WordsUnwords(ws);
    DecodeLoadStore(line, "lw", RegName(rd) + ",", MemText(offset, base), rd);
    MemTextParses(Blank(line).(rd := rd, isLoad := true), offset, base);
  }

  lemma DecodeRenderSw(src: nat, offset: int, base: nat)
    requires src < 32 && base < 32 && InIntRange(offset)
    ensures Decode(Render(Sw(src, offset, base))) == Some(Meaning(Sw(src, offset, base), Render(Sw(src, offset, base))))
  {
    var ws := ["sw", RegName(src) + ",", MemText(offset, base)];
    var line := Unwords(ws);
    RegNameShape(src); RegNameParses(src);
    MemTextShape(offset, base);
    WordsUnwords(ws);
    DecodeLoadStore(line, "sw", RegName(src) + ",", MemText(offset, base), src);
    MemTextParses(Blank(line).(rs2 := src, isStore := true), offset, base);
  }

  lemma DecodeRenderBeq(rs1: nat, rs2: nat, offset: int)
    requires rs1 < 32 && rs2 < 32 && InIntRange(offset)
    ensures Decode(Render(Beq(rs1, rs2, offset))) == Some(Meaning(Beq(rs1, rs2, offset), Render(Beq(rs1, rs2, offset))))
  {
    var a, b, c := RegName(rs1) + ",", RegName(rs2) + ",", ShowInt(offset);
    var line := Render(Beq(rs1, rs2, offset));
    assert Words(line) == ["beq", a, b, c] by {
      RegNameShape(rs1); RegNameShape(rs2);
      ShowIntHasNoParen(offset);
      assert NoSpace("beq");
      SplitFour("beq", a, b, c);
    }
    assert ParseReg(CleanReg(a)) == Some(rs1) && ParseReg(CleanReg(b)) == Some(rs2) by {
      RegNameParses(rs1); RegNameParses(rs2);
    }
    assert BranchOffset(c) == offset by {
      StoIShowInt(offset);
    }
    DecodeBeq(line, a, b, c, rs1, rs2);
  }

  /** Every well-formed instruction decodes from its canonical text to its meaning. */
  lemma DecodeRender(a: Asm)
    requires AsmValid(a)
    ensures Decode(Render(a)) == Some(Meaning(a, Render(a)))
    ensures Fetchable(Render(a))
  {
    match a
    case Add(rd, rs1, rs2) => DecodeRenderAdd(rd, rs1, rs2);
    case Lw(rd, offset, base) => DecodeRenderLw(rd, offset, base);
    case Sw(src, offset, base) => DecodeRenderSw(src, offset, base);
    case Beq(rs1, rs2, offset) => DecodeRenderBeq(rs1, rs2, offset);
  }
}
