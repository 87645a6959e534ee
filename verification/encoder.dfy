/** Instruction encoding (`process_instructions`): each line's first token is
    capitalised and looked up in the opcode table; a known opcode's word is its
    code bits followed by its operand fields, a line with an unknown mnemonic
    yields no word at all. */
module Encoder {
  import opened Results
  import opened Text
  import opened Numerals
  import opened Isa
  import opened Operands

  /** A line's tokens, split at single spaces (`split_terminator(" ")`):
      two spaces in a row give an empty token. */
  function Tokens(line: string): (toks: seq<string>)
    ensures toks == [] <==> line == []
  {
    SplitTerminator(line, ' ')
  }

  /** `li Rd imm`: the immediate in eight bits, then Rd in four; a register of
      16 or more contributes nothing and the immediate is then not read. */
  function LiOperands(toks: seq<string>): (r: Result<string>)
    ensures r.Ok? ==> IsBits(r.value)
    ensures r.Ok? <==> RegisterId(toks, 1).Ok? && (RegisterId(toks, 1).value >= 16 || RawNumber(toks, 2).Ok?)
    ensures RegisterId(toks, 1).Err? ==> r == Err(RegisterId(toks, 1).failure)
    ensures RegisterId(toks, 1).Ok? && RegisterId(toks, 1).value < 16 && RawNumber(toks, 2).Err? ==>
      r == Err(RawNumber(toks, 2).failure)
  {
    var rd :- RegisterId(toks, 1);
    if rd < 16 then
      var imm :- RawNumber(toks, 2);
      Ok(Bin(imm, 8) + Bin(rd, 4))
    else
      Ok("")
  }

  /** `jmp addr` (and `jz`, `jnz`, `call`): the address in ten bits, or nothing
      for an address of 1024 or more. */
  function BranchOperands(toks: seq<string>): (r: Result<string>)
    ensures r.Ok? ==> IsBits(r.value)
    ensures r.Ok? <==> RawNumber(toks, 1).Ok?
    ensures RawNumber(toks, 1).Err? ==> r == Err(RawNumber(toks, 1).failure)
  {
    var addr :- RawNumber(toks, 1);
    Ok(if addr < 1024 then Bin(addr, 10) else "")
  }

  /** `mov Rd Rs` (and `not`): Rs, a zero nibble, Rd. */
  function MoveOperands(toks: seq<string>): (r: Result<string>)
    ensures r.Ok? ==> IsBits(r.value)
    ensures r.Ok? <==> RegisterId(toks, 1).Ok? && RegisterId(toks, 2).Ok?
    ensures RegisterId(toks, 1).Err? ==> r == Err(RegisterId(toks, 1).failure)
    ensures RegisterId(toks, 1).Ok? && RegisterId(toks, 2).Err? ==> r == Err(RegisterId(toks, 2).failure)
  {
    var rd :- RegisterId(toks, 1);
    var rs :- RegisterId(toks, 2);
    Ok(Bin(rs, 4) + Bin(0, 4) + Bin(rd, 4))
  }

  /** `add Rd R1 R2` (and `sub`, `and`, `or`): R1, R2, Rd. */
  function AluOperands(toks: seq<string>): (r: Result<string>)
    ensures r.Ok? ==> IsBits(r.value)
    ensures r.Ok? <==> RegisterId(toks, 1).Ok? && RegisterId(toks, 2).Ok? && RegisterId(toks, 3).Ok?
    ensures RegisterId(toks, 1).Err? ==> r == Err(RegisterId(toks, 1).failure)
    ensures RegisterId(toks, 1).Ok? && RegisterId(toks, 2).Err? ==> r == Err(RegisterId(toks, 2).failure)
    ensures RegisterId(toks, 1).Ok? && RegisterId(toks, 2).Ok? && RegisterId(toks, 3).Err? ==>
      r == Err(RegisterId(toks, 3).failure)
  {
    var rd :- RegisterId(toks, 1);
    var r1 :- RegisterId(toks, 2);
    var r2 :- RegisterId(toks, 3);
    Ok(Bin(r1, 4) + Bin(r2, 4) + Bin(rd, 4))
  }

  /** `lw Rd addr`: the address in six bits, then Rd in four. */
  function LoadOperands(toks: seq<string>): (r: Result<string>)
    ensures r.Ok? ==> IsBits(r.value)
    ensures r.Ok? <==> RegisterId(toks, 1).Ok? && RawNumber(toks, 2).Ok?
    ensures RegisterId(toks, 1).Err? ==> r == Err(RegisterId(toks, 1).failure)
    ensures RegisterId(toks, 1).Ok? && RawNumber(toks, 2).Err? ==> r == Err(RawNumber(toks, 2).failure)
  {
    var rd :- RegisterId(toks, 1);
    var addr :- RawNumber(toks, 2);
    Ok(Bin(addr, 6) + Bin(rd, 4))
  }

  /** `sw Rs addr`: Rs in four bits, then the address in six. */
  function StoreOperands(toks: seq<string>): (r: Result<string>)
    ensures r.Ok? ==> IsBits(r.value)
    ensures r.Ok? <==> RegisterId(toks, 1).Ok? && RawNumber(toks, 2).Ok?
    ensures RegisterId(toks, 1).Err? ==> r == Err(RegisterId(toks, 1).failure)
    ensures RegisterId(toks, 1).Ok? && RawNumber(toks, 2).Err? ==> r == Err(RawNumber(toks, 2).failure)
  {
    var rs :- RegisterId(toks, 1);
    var addr :- RawNumber(toks, 2);
    Ok(Bin(rs, 4) + Bin(addr, 6))
  }

  /** `in port addr` (and `out`): the port in four bits, then the address in six. */
  function PortOperands(toks: seq<string>): (r: Result<string>)
    ensures r.Ok? ==> IsBits(r.value)
    ensures r.Ok? <==> PortId(toks, 1).Ok? && RawNumber(toks, 2).Ok?
    ensures PortId(toks, 1).Err? ==> r == Err(PortId(toks, 1).failure)
    ensures PortId(toks, 1).Ok? && RawNumber(toks, 2).Err? ==> r == Err(RawNumber(toks, 2).failure)
  {
    var port :- PortId(toks, 1);
    var addr :- RawNumber(toks, 2);
    Ok(Bin(port, 4) + Bin(addr, 6))
  }

  /** The operand part of a word, read off the tokens after the mnemonic. Every
      value is formatted with `{:0wb}`, which never truncates. */
  function OperandBits(op: Opcode, toks: seq<string>): (r: Result<string>)
    ensures r.Ok? ==> IsBits(r.value)
  {
    match op
    case Nop | Ret => Ok("0000000000")
    case Li => LiOperands(toks)
    case Jmp | Jz | Jnz | Call => BranchOperands(toks)
    case Mov | Not => MoveOperands(toks)
    case Add | Sub | And | Or => AluOperands(toks)
    case Lw => LoadOperands(toks)
    case Sw => StoreOperands(toks)
    case In | Out => PortOperands(toks)
  }

  /** The arm `OperandBits` takes for each opcode family. */
  lemma BranchArm(op: Opcode, toks: seq<string>)
    requires op == Jmp || op == Jz || op == Jnz || op == Call
    ensures OperandBits(op, toks) == BranchOperands(toks)
  {
    if op == Jmp {} else if op == Jz {} else if op == Jnz {} else {}
  }

  lemma PortArm(op: Opcode, toks: seq<string>)
    requires op == In || op == Out
    ensures OperandBits(op, toks) == PortOperands(toks)
  {
    if op == In {} else {}
  }

  lemma MoveArm(op: Opcode, toks: seq<string>)
    requires op == Mov || op == Not
    ensures OperandBits(op, toks) == MoveOperands(toks)
  {
    if op == Mov {} else {}
  }

  lemma AluArm(op: Opcode, toks: seq<string>)
    requires op == Add || op == Sub || op == And || op == Or
    ensures OperandBits(op, toks) == AluOperands(toks)
  {
    if op == Add {} else if op == Sub {} else if op == And {} else {}
  }

  /** Whether a line's first token, capitalised, names an opcode. */
  predicate Known(t: Table, toks: seq<string>)
  {
    toks != [] && Capitalize(toks[0]) in t.names
  }

  /** The word of one tokenised line: `Ok(None)` for an unknown mnemonic (the
      line is dropped), an error where the assembler would panic: on a line
      without tokens, and on a known mnemonic whose operands do not read, with
      the failure of the first read that fails. */
  function EncodeLine(t: Table, toks: seq<string>): (r: Result<Option<string>>)
    requires WellFormed(t)
    ensures r == Ok(None) <==> toks != [] && !Known(t, toks)
    ensures toks == [] ==> r == Err(MissingOperand)
    ensures Known(t, toks) && OperandBits(t.names[Capitalize(toks[0])], toks).Err? ==>
      r == Err(OperandBits(t.names[Capitalize(toks[0])], toks).failure)
    ensures r.Ok? && r.value.Some? ==>
      && Known(t, toks)
      && var op := t.names[Capitalize(toks[0])];
      && IsBits(r.value.value)
      && |r.value.value| >= CodeWidth(op)
      && r.value.value[..CodeWidth(op)] == CodeBits(t, op)
  {
    if toks == [] then Err(MissingOperand)
    else
      match Lookup(t, Capitalize(toks[0]))
      case None => Ok(None)
      case Some(op) =>
        var bits :- OperandBits(op, toks);
        Ok(Some(CodeBits(t, op) + bits))
  }

  // ---------------------------------------------------------------------------
  // The instruction formats as a table, independent of the encoder

  /** How many operand tokens an opcode reads. */
  function Arity(op: Opcode): nat
  {
    match op
    case Nop | Ret => 0
    case Jmp | Jz | Jnz | Call => 1
    case Li | Mov | Not | Lw | Sw | In | Out => 2
    case Add | Sub | And | Or => 3
  }

  /** The extractor applied to each operand token, in the order the tokens are
      written: `li Rd imm`, `jmp addr`, `mov Rd Rs`, `add Rd R1 R2`,
      `lw Rd addr`, `sw Rs addr`, `in port addr`. */
  function OperandReads(op: Opcode, toks: seq<string>): (rs: seq<Result<nat>>)
    ensures |rs| == Arity(op)
  {
    match op
    case Nop | Ret => []
    case Jmp | Jz | Jnz | Call => [RawNumber(toks, 1)]
    case Li | Lw | Sw => [RegisterId(toks, 1), RawNumber(toks, 2)]
    case Mov | Not => [RegisterId(toks, 1), RegisterId(toks, 2)]
    case Add | Sub | And | Or => [RegisterId(toks, 1), RegisterId(toks, 2), RegisterId(toks, 3)]
    case In | Out => [PortId(toks, 1), RawNumber(toks, 2)]
  }

  /** The field values in layout order (see `Layout`), given the operand values
      in token order: the ALU group writes R1, R2, Rd; `Mov`/`Not` write Rs, a
      zero nibble, Rd; `Li` and `Lw` put the number before the register. */
  function Arrange(op: Opcode, v: seq<nat>): (fs: seq<nat>)
    requires |v| == Arity(op)
    ensures |fs| == |Layout(op)|
  {
    match op
    case Nop | Ret => [0]
    case Jmp | Jz | Jnz | Call => [v[0]]
    case Li | Lw => [v[1], v[0]]
    case Sw | In | Out => [v[0], v[1]]
    case Mov | Not => [v[1], 0, v[0]]
    case Add | Sub | And | Or => [v[1], v[2], v[0]]
  }

  predicate AllOk(rs: seq<Result<nat>>)
  {
    forall i :: 0 <= i < |rs| ==> rs[i].Ok?
  }

  function Values(rs: seq<Result<nat>>): (vs: seq<nat>)
    requires AllOk(rs)
    ensures |vs| == |rs|
    ensures forall i :: 0 <= i < |rs| ==> vs[i] == rs[i].value
  {
    if rs == [] then [] else [rs[0].value] + Values(rs[1..])
  }

  /** Every operand was read and every field value fits its width. */
  predicate Fits(op: Opcode, toks: seq<string>)
  {
    var rs := OperandReads(op, toks);
    AllOk(rs) && FitsWidths(Arrange(op, Values(rs)), Layout(op))
  }

  lemma Pow2Fields()
    ensures Pow2(4) == 16 && Pow2(6) == 64 && Pow2(8) == 256 && Pow2(10) == 1024
  {
    assert Pow2(2) == 4;
    assert Pow2(4) == 16;
    assert Pow2(6) == 64;
    assert Pow2(8) == 256;
  }

  lemma ValuesOne(a: nat)
    ensures AllOk([Ok(a)]) && Values([Ok(a)]) == [a]
  {
    assert [Ok(a)][1..] == [];
  }

  lemma ValuesTwo(a: nat, b: nat)
    ensures AllOk([Ok(a), Ok(b)]) && Values([Ok(a), Ok(b)]) == [a, b]
  {
    assert [Ok(a), Ok(b)][1..] == [Ok(b)];
    ValuesOne(b);
  }

  lemma ValuesThree(a: nat, b: nat, c: nat)
    ensures AllOk([Ok(a), Ok(b), Ok(c)]) && Values([Ok(a), Ok(b), Ok(c)]) == [a, b, c]
  {
    assert [Ok(a), Ok(b), Ok(c)][1..] == [Ok(b), Ok(c)];
    ValuesTwo(b, c);
  }

  // ---------------------------------------------------------------------------
  // Each format's fit condition, on the operand values

  /** The reads each format makes, in token order. */
  lemma BranchReads(op: Opcode, toks: seq<string>)
    requires op == Jmp || op == Jz || op == Jnz || op == Call
    ensures OperandReads(op, toks) == [RawNumber(toks, 1)]
  {
  }

  lemma RegisterNumberReads(op: Opcode, toks: seq<string>)
    requires op == Li || op == Lw || op == Sw
    ensures OperandReads(op, toks) == [RegisterId(toks, 1), RawNumber(toks, 2)]
  {
  }

  lemma PortReads(op: Opcode, toks: seq<string>)
    requires op == In || op == Out
    ensures OperandReads(op, toks) == [PortId(toks, 1), RawNumber(toks, 2)]
  {
  }

  lemma MoveReads(op: Opcode, toks: seq<string>)
    requires op == Mov || op == Not
    ensures OperandReads(op, toks) == [RegisterId(toks, 1), RegisterId(toks, 2)]
  {
  }

  lemma AluReads(op: Opcode, toks: seq<string>)
    requires op == Add || op == Sub || op == And || op == Or
    ensures OperandReads(op, toks) == [RegisterId(toks, 1), RegisterId(toks, 2), RegisterId(toks, 3)]
  {
  }

  /** A branch fits exactly when its address is below 1024. */
  lemma BranchFits(op: Opcode, toks: seq<string>, addr: nat)
    requires op == Jmp || op == Jz || op == Jnz || op == Call
    requires RawNumber(toks, 1) == Ok(addr)
    ensures OperandReads(op, toks) == [Ok(addr)]
    ensures Values(OperandReads(op, toks)) == [addr]
    ensures Fits(op, toks) <==> addr < 1024
  {
    BranchReads(op, toks);
    Pow2Fields();
    ValuesOne(addr);
    assert Arrange(op, [addr]) == [addr] && Layout(op) == [10];
    FitsWidthsOne(addr, 10);
  }

  /** `Li`, `Lw` and `Sw` fit exactly when the register is below 16 and the
      number below 256 (`Li`) or 64 (`Lw`, `Sw`). */
  lemma RegisterNumberFits(op: Opcode, toks: seq<string>, r: nat, n: nat)
    requires op == Li || op == Lw || op == Sw
    requires RegisterId(toks, 1) == Ok(r) && RawNumber(toks, 2) == Ok(n)
    ensures OperandReads(op, toks) == [Ok(r), Ok(n)]
    ensures Values(OperandReads(op, toks)) == [r, n]
    ensures Fits(op, toks) <==> r < 16 && n < (if op == Li then 256 else 64)
  {
    RegisterNumberReads(op, toks);
    Pow2Fields();
    ValuesTwo(r, n);
    if op == Li {
      assert Arrange(op, [r, n]) == [n, r] && Layout(op) == [8, 4];
      FitsWidthsTwo(n, r, 8, 4);
    } else if op == Lw {
      assert Arrange(op, [r, n]) == [n, r] && Layout(op) == [6, 4];
      FitsWidthsTwo(n, r, 6, 4);
    } else {
      assert Arrange(op, [r, n]) == [r, n] && Layout(op) == [4, 6];
      FitsWidthsTwo(r, n, 4, 6);
    }
  }

  /** `In` and `Out` fit exactly when the port is below 16 and the address
      below 64. */
  lemma PortFits(op: Opcode, toks: seq<string>, port: nat, addr: nat)
    requires op == In || op == Out
    requires PortId(toks, 1) == Ok(port) && RawNumber(toks, 2) == Ok(addr)
    ensures OperandReads(op, toks) == [Ok(port), Ok(addr)]
    ensures Values(OperandReads(op, toks)) == [port, addr]
    ensures Fits(op, toks) <==> port < 16 && addr < 64
  {
    PortReads(op, toks);
    Pow2Fields();
    ValuesTwo(port, addr);
    assert Arrange(op, [port, addr]) == [port, addr] && Layout(op) == [4, 6];
    FitsWidthsTwo(port, addr, 4, 6);
  }

  /** `Mov` and `Not` fit exactly when both registers are below 16. */
  lemma MoveFits(op: Opcode, toks: seq<string>, rd: nat, rs: nat)
    requires op == Mov || op == Not
    requires RegisterId(toks, 1) == Ok(rd) && RegisterId(toks, 2) == Ok(rs)
    ensures OperandReads(op, toks) == [Ok(rd), Ok(rs)]
    ensures Values(OperandReads(op, toks)) == [rd, rs]
    ensures Fits(op, toks) <==> rd < 16 && rs < 16
  {
    MoveReads(op, toks);
    Pow2Fields();
    ValuesTwo(rd, rs);
    assert Arrange(op, [rd, rs]) == [rs, 0, rd] && Layout(op) == [4, 4, 4];
    FitsWidthsThree(rs, 0, rd, 4, 4, 4);
  }

  /** The ALU group fits exactly when all three registers are below 16. */
  lemma AluFits(op: Opcode, toks: seq<string>, rd: nat, r1: nat, r2: nat)
    requires op == Add || op == Sub || op == And || op == Or
    requires RegisterId(toks, 1) == Ok(rd) && RegisterId(toks, 2) == Ok(r1) && RegisterId(toks, 3) == Ok(r2)
    ensures OperandReads(op, toks) == [Ok(rd), Ok(r1), Ok(r2)]
    ensures Values(OperandReads(op, toks)) == [rd, r1, r2]
    ensures Fits(op, toks) <==> rd < 16 && r1 < 16 && r2 < 16
  {
    AluReads(op, toks);
    Pow2Fields();
    ValuesThree(rd, r1, r2);
    assert Arrange(op, [rd, r1, r2]) == [r1, r2, rd] && Layout(op) == [4, 4, 4];
    FitsWidthsThree(r1, r2, rd, 4, 4, 4);
  }

  // ---------------------------------------------------------------------------
  // The encoder against the format table

  /** Every operand was read, and the two range checks the encoder makes
      itself pass: a `Li` register below 16 and a branch address below 1024.
      Nothing here asks a value to fit its field. */
  predicate InRange(op: Opcode, toks: seq<string>)
  {
    && AllOk(OperandReads(op, toks))
    && match op
       case Li => RegisterId(toks, 1).Ok? && RegisterId(toks, 1).value < 16
       case Jmp | Jz | Jnz | Call => RawNumber(toks, 1).Ok? && RawNumber(toks, 1).value < 1024
       case _ => true
  }

  /** Operands that fit pass the encoder's own range checks. */
  lemma FitsInRange(op: Opcode, toks: seq<string>)
    requires Fits(op, toks)
    ensures InRange(op, toks)
  {
    match op {
      case Li =>
        RegisterNumberReads(op, toks);
        assert OperandReads(op, toks)[0].Ok? && OperandReads(op, toks)[1].Ok?;
        RegisterNumberFits(op, toks, RegisterId(toks, 1).value, RawNumber(toks, 2).value);
      case Jmp | Jz | Jnz | Call =>
        BranchReads(op, toks);
        assert OperandReads(op, toks)[0].Ok?;
        BranchFits(op, toks, RawNumber(toks, 1).value);
      case _ =>
    }
  }

  /** Whenever the encoder emits fields at all, the operand bits are the
      operand values, in the format table's field order, each formatted at
      its field width. `{:0wb}` never truncates, so this holds for values too
      wide for their fields as well: such a field simply comes out longer. */
  lemma OperandBitsPack(op: Opcode, toks: seq<string>)
    requires InRange(op, toks)
    ensures OperandBits(op, toks) == Ok(Pack(Arrange(op, Values(OperandReads(op, toks))), Layout(op)))
  {
    match op {
      case Nop | Ret => PackNoOperand(op, toks);
      case Jmp | Jz | Jnz | Call => PackBranch(op, toks);
      case Li | Lw | Sw => PackRegisterNumber(op, toks);
      case In | Out => PackPorts(op, toks);
      case Mov | Not => PackMove(op, toks);
      case Add | Sub | And | Or => PackAlu(op, toks);
    }
  }

  lemma PackNoOperand(op: Opcode, toks: seq<string>)
    requires op == Nop || op == Ret
    ensures OperandBits(op, toks) == Ok(Pack(Arrange(op, Values(OperandReads(op, toks))), Layout(op)))
  {
    PackOne(0, 10);
    var b := Bin(0, 10);
    assert b == Zeros(9) + "0";
    assert forall i :: 0 <= i < 10 ==> b[i] == "0000000000"[i];
    assert b == "0000000000";
  }

  lemma PackBranch(op: Opcode, toks: seq<string>)
    requires op == Jmp || op == Jz || op == Jnz || op == Call
    requires InRange(op, toks)
    ensures OperandBits(op, toks) == Ok(Pack(Arrange(op, Values(OperandReads(op, toks))), Layout(op)))
  {
    var addr := RawNumber(toks, 1).value;
    BranchFits(op, toks, addr);
    assert Arrange(op, [addr]) == [addr] && Layout(op) == [10];
    PackOne(addr, 10);
    BranchArm(op, toks);
    assert BranchOperands(toks) == Ok(Bin(addr, 10));
  }

  lemma PackRegisterNumber(op: Opcode, toks: seq<string>)
    requires op == Li || op == Lw || op == Sw
    requires InRange(op, toks)
    ensures OperandBits(op, toks) == Ok(Pack(Arrange(op, Values(OperandReads(op, toks))), Layout(op)))
  {
    RegisterNumberReads(op, toks);
    assert OperandReads(op, toks)[0].Ok? && OperandReads(op, toks)[1].Ok?;
    var r, n := RegisterId(toks, 1).value, RawNumber(toks, 2).value;
    RegisterNumberFits(op, toks, r, n);
    match op {
      case Li =>
        assert Arrange(op, [r, n]) == [n, r] && Layout(op) == [8, 4];
        PackTwo(n, r, 8, 4);
        assert OperandBits(op, toks) == LiOperands(toks) == Ok(Bin(n, 8) + Bin(r, 4));
      case Lw =>
        assert Arrange(op, [r, n]) == [n, r] && Layout(op) == [6, 4];
        PackTwo(n, r, 6, 4);
        assert OperandBits(op, toks) == LoadOperands(toks) == Ok(Bin(n, 6) + Bin(r, 4));
      case Sw =>
        assert Arrange(op, [r, n]) == [r, n] && Layout(op) == [4, 6];
        PackTwo(r, n, 4, 6);
        assert OperandBits(op, toks) == StoreOperands(toks) == Ok(Bin(r, 4) + Bin(n, 6));
    }
  }

  lemma PackPorts(op: Opcode, toks: seq<string>)
    requires op == In || op == Out
    requires InRange(op, toks)
    ensures OperandBits(op, toks) == Ok(Pack(Arrange(op, Values(OperandReads(op, toks))), Layout(op)))
  {
    PortReads(op, toks);
    assert OperandReads(op, toks)[0].Ok? && OperandReads(op, toks)[1].Ok?;
    var port, addr := PortId(toks, 1).value, RawNumber(toks, 2).value;
    PortFits(op, toks, port, addr);
    assert Arrange(op, [port, addr]) == [port, addr] && Layout(op) == [4, 6];
    PackTwo(port, addr, 4, 6);
    PortArm(op, toks);
    assert PortOperands(toks) == Ok(Bin(port, 4) + Bin(addr, 6));
  }

  lemma PackMove(op: Opcode, toks: seq<string>)
    requires op == Mov || op == Not
    requires InRange(op, toks)
    ensures OperandBits(op, toks) == Ok(Pack(Arrange(op, Values(OperandReads(op, toks))), Layout(op)))
  {
    MoveReads(op, toks);
    assert OperandReads(op, toks)[0].Ok? && OperandReads(op, toks)[1].Ok?;
    var rd, rs := RegisterId(toks, 1).value, RegisterId(toks, 2).value;
    MoveFits(op, toks, rd, rs);
    assert Arrange(op, [rd, rs]) == [rs, 0, rd] && Layout(op) == [4, 4, 4];
    PackThree(rs, 0, rd, 4, 4, 4);
    MoveArm(op, toks);
    assert MoveOperands(toks) == Ok(Bin(rs, 4) + Bin(0, 4) + Bin(rd, 4));
  }

  lemma PackAlu(op: Opcode, toks: seq<string>)
    requires op == Add || op == Sub || op == And || op == Or
    requires InRange(op, toks)
    ensures OperandBits(op, toks) == Ok(Pack(Arrange(op, Values(OperandReads(op, toks))), Layout(op)))
  {
    AluReads(op, toks);
    assert OperandReads(op, toks)[0].Ok? && OperandReads(op, toks)[1].Ok? && OperandReads(op, toks)[2].Ok?;
    var rd, r1, r2 := RegisterId(toks, 1).value, RegisterId(toks, 2).value, RegisterId(toks, 3).value;
    AluFits(op, toks, rd, r1, r2);
    assert Arrange(op, [rd, r1, r2]) == [r1, r2, rd] && Layout(op) == [4, 4, 4];
    PackThree(r1, r2, rd, 4, 4, 4);
    AluArm(op, toks);
    assert AluOperands(toks) == Ok(Bin(r1, 4) + Bin(r2, 4) + Bin(rd, 4));
  }

  /** A line whose operands fit encodes to exactly 16 bits: the opcode's code
      bits, then fields that read back as the operand values in the format
      table's order. */
  lemma EncodeDecodes(t: Table, toks: seq<string>, op: Opcode)
    requires WellFormed(t)
    requires toks != [] && Lookup(t, Capitalize(toks[0])) == Some(op)
    requires Fits(op, toks)
    ensures EncodeLine(t, toks).Ok? && EncodeLine(t, toks).value.Some?
    ensures var w := EncodeLine(t, toks).value.value;
      && |w| == 16
      && w[..CodeWidth(op)] == CodeBits(t, op)
      && Unpack(w[CodeWidth(op)..], Layout(op)) == Arrange(op, Values(OperandReads(op, toks)))
  {
    FitsInRange(op, toks);
    OperandBitsPack(op, toks);
    var fs := Arrange(op, Values(OperandReads(op, toks)));
    UnpackPack(fs, Layout(op));
    WordIsSixteenBits(op);
    var w := CodeBits(t, op) + Pack(fs, Layout(op));
    assert w[CodeWidth(op)..] == Pack(fs, Layout(op));
  }

  /** Operands that pass the encoder's range checks never give a word shorter
      than 16 bits. */
  lemma OperandsAtLeastWidth(op: Opcode, toks: seq<string>)
    requires InRange(op, toks)
    ensures OperandBits(op, toks).Ok?
    ensures CodeWidth(op) + |OperandBits(op, toks).value| >= 16
  {
    OperandBitsPack(op, toks);
    PackAtLeast(Arrange(op, Values(OperandReads(op, toks))), Layout(op));
    WordIsSixteenBits(op);
  }

  /** A value too wide for its field is not cut to its low bits: the word comes
      out longer than 16 bits. */
  lemma WordTooWide(t: Table, toks: seq<string>, op: Opcode, w: string)
    requires WellFormed(t)
    requires toks != [] && Lookup(t, Capitalize(toks[0])) == Some(op)
    requires EncodeLine(t, toks) == Ok(Some(w))
    requires InRange(op, toks) && !Fits(op, toks)
    ensures |w| > 16
  {
    WordWidthIff(t, toks, op, w);
    assert w == CodeBits(t, op) + OperandBits(op, toks).value;
    OperandsAtLeastWidth(op, toks);
  }

  /** A word that was emitted is 16 characters long exactly when every operand
      fits its field; otherwise it is longer (a value wider than its field) or
      only the code bits (`Li` register or branch address out of range). */
  lemma WordWidthIff(t: Table, toks: seq<string>, op: Opcode, w: string)
    requires WellFormed(t)
    requires toks != [] && Lookup(t, Capitalize(toks[0])) == Some(op)
    requires EncodeLine(t, toks) == Ok(Some(w))
    ensures |w| == 16 <==> Fits(op, toks)
  {
    assert w == CodeBits(t, op) + OperandBits(op, toks).value;
    OperandWidthIff(op, toks);
  }

  /** The operand bits fill the rest of the word exactly when the format fits. */
  lemma OperandWidthIff(op: Opcode, toks: seq<string>)
    requires OperandBits(op, toks).Ok?
    ensures CodeWidth(op) + |OperandBits(op, toks).value| == 16 <==> Fits(op, toks)
  {
    match op {
      case Nop | Ret => NoOperandWidth(op, toks);
      case Jmp | Jz | Jnz | Call =>
        assert CodeWidth(op) == 6;
        BranchWidth(op, toks);
      case Li =>
        assert CodeWidth(op) == 4;
        LiWidth(toks);
      case Lw =>
        assert CodeWidth(op) == 6;
        LoadWidth(toks);
      case Sw =>
        assert CodeWidth(op) == 6;
        StoreWidth(toks);
      case In | Out =>
        assert CodeWidth(op) == 6;
        PortWidth(op, toks);
      case Mov | Not =>
        assert CodeWidth(op) == 4;
        MoveWidth(op, toks);
      case Add | Sub | And | Or =>
        assert CodeWidth(op) == 4;
        AluWidth(op, toks);
    }
  }

  /** Each format's operand bits have their full width exactly when it fits. */
  lemma NoOperandWidth(op: Opcode, toks: seq<string>)
    requires op == Nop || op == Ret
    ensures CodeWidth(op) + |OperandBits(op, toks).value| == 16 && Fits(op, toks)
  {
    Pow2Fields();
    FitsWidthsOne(0, 10);
  }

  lemma BranchWidth(op: Opcode, toks: seq<string>)
    requires op == Jmp || op == Jz || op == Jnz || op == Call
    requires OperandBits(op, toks).Ok?
    ensures |OperandBits(op, toks).value| == 10 <==> Fits(op, toks)
  {
    BranchArm(op, toks);
    var addr := RawNumber(toks, 1).value;
    BranchFits(op, toks, addr);
    Pow2Fields();
    BinWidth(addr, 10);
  }

  lemma LiWidth(toks: seq<string>)
    requires OperandBits(Li, toks).Ok?
    ensures |OperandBits(Li, toks).value| == 12 <==> Fits(Li, toks)
  {
    assert OperandBits(Li, toks) == LiOperands(toks);
    var rd := RegisterId(toks, 1).value;
    var imm := RawNumber(toks, 2);
    if imm.Ok? {
      RegisterNumberFits(Li, toks, rd, imm.value);
      if rd < 16 {
        Pow2Fields();
        TwoWidths(imm.value, rd, 8, 4);
      }
    } else {
      RegisterNumberReads(Li, toks);
      assert !OperandReads(Li, toks)[1].Ok?;
    }
  }

  lemma LoadWidth(toks: seq<string>)
    requires OperandBits(Lw, toks).Ok?
    ensures |OperandBits(Lw, toks).value| == 10 <==> Fits(Lw, toks)
  {
    assert OperandBits(Lw, toks) == LoadOperands(toks);
    var rd, addr := RegisterId(toks, 1).value, RawNumber(toks, 2).value;
    RegisterNumberFits(Lw, toks, rd, addr);
    Pow2Fields();
    TwoWidths(addr, rd, 6, 4);
  }

  lemma StoreWidth(toks: seq<string>)
    requires OperandBits(Sw, toks).Ok?
    ensures |OperandBits(Sw, toks).value| == 10 <==> Fits(Sw, toks)
  {
    assert OperandBits(Sw, toks) == StoreOperands(toks);
    var rs, addr := RegisterId(toks, 1).value, RawNumber(toks, 2).value;
    RegisterNumberFits(Sw, toks, rs, addr);
    Pow2Fields();
    TwoWidths(rs, addr, 4, 6);
  }

  lemma PortWidth(op: Opcode, toks: seq<string>)
    requires op == In || op == Out
    requires OperandBits(op, toks).Ok?
    ensures |OperandBits(op, toks).value| == 10 <==> Fits(op, toks)
  {
    PortArm(op, toks);
    var port, addr := PortId(toks, 1).value, RawNumber(toks, 2).value;
    PortFits(op, toks, port, addr);
    Pow2Fields();
    TwoWidths(port, addr, 4, 6);
  }

  lemma MoveWidth(op: Opcode, toks: seq<string>)
    requires op == Mov || op == Not
    requires OperandBits(op, toks).Ok?
    ensures |OperandBits(op, toks).value| == 12 <==> Fits(op, toks)
  {
    MoveArm(op, toks);
    var rd, rs := RegisterId(toks, 1).value, RegisterId(toks, 2).value;
    MoveFits(op, toks, rd, rs);
    Pow2Fields();
    ThreeWidths(rs, 0, rd, 4, 4, 4);
  }

  lemma AluWidth(op: Opcode, toks: seq<string>)
    requires op == Add || op == Sub || op == And || op == Or
    requires OperandBits(op, toks).Ok?
    ensures |OperandBits(op, toks).value| == 12 <==> Fits(op, toks)
  {
    AluArm(op, toks);
    var rd, r1, r2 := RegisterId(toks, 1).value, RegisterId(toks, 2).value, RegisterId(toks, 3).value;
    AluFits(op, toks, rd, r1, r2);
    Pow2Fields();
    ThreeWidths(r1, r2, rd, 4, 4, 4);
  }


  // ---------------------------------------------------------------------------
  // Range checks, unread tokens and worked examples

  /** `Li` with a register of 16 or more emits the code bits alone and never
      reads the immediate: a missing or malformed immediate does not matter. */
  lemma LiRegisterOutOfRange(t: Table, toks: seq<string>)
    requires WellFormed(t)
    requires toks != [] && Lookup(t, Capitalize(toks[0])) == Some(Li)
    requires RegisterId(toks, 1).Ok? && RegisterId(toks, 1).value >= 16
    ensures EncodeLine(t, toks) == Ok(Some(CodeBits(t, Li)))
    ensures EncodeLine(t, toks[..2]) == EncodeLine(t, toks)
  {
    var short := toks[..2];
    assert short[0] == toks[0] && short[1] == toks[1];
    assert RegisterId(short, 1) == RegisterId(toks, 1);
    assert CodeBits(t, Li) + "" == CodeBits(t, Li);
  }

  /** `Li Rd imm` with Rd < 16 is the code bits, the immediate in (at least)
      eight bits, then Rd in four. */
  lemma LiInRange(t: Table, toks: seq<string>, rd: nat, imm: nat)
    requires WellFormed(t)
    requires toks != [] && Lookup(t, Capitalize(toks[0])) == Some(Li)
    requires RegisterId(toks, 1) == Ok(rd) && rd < 16 && RawNumber(toks, 2) == Ok(imm)
    ensures EncodeLine(t, toks) == Ok(Some(CodeBits(t, Li) + Bin(imm, 8) + Bin(rd, 4)))
  {
    assert OperandBits(Li, toks) == Ok(Bin(imm, 8) + Bin(rd, 4));
    assert CodeBits(t, Li) + (Bin(imm, 8) + Bin(rd, 4)) == CodeBits(t, Li) + Bin(imm, 8) + Bin(rd, 4);
  }

  /** A jump or call to an address of 1024 or more emits the code bits alone. */
  lemma BranchOutOfRange(t: Table, toks: seq<string>, op: Opcode)
    requires WellFormed(t)
    requires op == Jmp || op == Jz || op == Jnz || op == Call
    requires toks != [] && Lookup(t, Capitalize(toks[0])) == Some(op)
    requires RawNumber(toks, 1).Ok? && RawNumber(toks, 1).value >= 1024
    ensures EncodeLine(t, toks) == Ok(Some(CodeBits(t, op)))
  {
    assert CodeBits(t, op) + "" == CodeBits(t, op);
  }

  /** `Nop` and `Ret` read no operand: ten zero bits follow the code bits
      whatever else the line holds. */
  lemma NoOperandOpcodes(t: Table, toks: seq<string>, op: Opcode)
    requires WellFormed(t)
    requires op == Nop || op == Ret
    requires toks != [] && Lookup(t, Capitalize(toks[0])) == Some(op)
    ensures EncodeLine(t, toks) == Ok(Some(CodeBits(t, op) + "0000000000"))
    ensures EncodeLine(t, toks[..1]) == EncodeLine(t, toks)
  {
    assert toks[..1][0] == toks[0];
  }

  lemma ReadsIgnoreLaterTokens(toks: seq<string>, extra: seq<string>, i: nat)
    requires i < |toks|
    ensures RegisterId(toks + extra, i) == RegisterId(toks, i)
    ensures PortId(toks + extra, i) == PortId(toks, i)
    ensures RawNumber(toks + extra, i) == RawNumber(toks, i)
  {
    assert (toks + extra)[i] == toks[i];
  }

  /** Tokens after the ones an opcode reads are ignored. */
  lemma TrailingTokensIgnored(t: Table, toks: seq<string>, extra: seq<string>)
    requires WellFormed(t)
    requires toks != []
    requires Lookup(t, Capitalize(toks[0])).Some? ==> |toks| > Arity(Lookup(t, Capitalize(toks[0])).value)
    ensures EncodeLine(t, toks + extra) == EncodeLine(t, toks)
  {
    assert (toks + extra)[0] == toks[0];
    match Lookup(t, Capitalize(toks[0])) {
      case None =>
      case Some(op) => OperandBitsIgnoreLaterTokens(op, toks, extra);
    }
  }

  lemma OperandBitsIgnoreLaterTokens(op: Opcode, toks: seq<string>, extra: seq<string>)
    requires |toks| > Arity(op)
    ensures OperandBits(op, toks + extra) == OperandBits(op, toks)
  {
    match op {
      case Nop | Ret =>
      case Jmp | Jz | Jnz | Call =>
        assert Arity(op) == 1;
        BranchIgnoresLaterTokens(toks, extra);
      case Li | Lw | Sw | In | Out | Mov | Not =>
        assert Arity(op) == 2;
        PairsIgnoreLaterTokens(toks, extra);
      case Add | Sub | And | Or =>
        assert Arity(op) == 3;
        AluIgnoresLaterTokens(toks, extra);
    }
  }

  lemma BranchIgnoresLaterTokens(toks: seq<string>, extra: seq<string>)
    requires |toks| > 1
    ensures BranchOperands(toks + extra) == BranchOperands(toks)
  {
    ReadsIgnoreLaterTokens(toks, extra, 1);
  }

  lemma PairsIgnoreLaterTokens(toks: seq<string>, extra: seq<string>)
    requires |toks| > 2
    ensures LiOperands(toks + extra) == LiOperands(toks)
    ensures LoadOperands(toks + extra) == LoadOperands(toks)
    ensures StoreOperands(toks + extra) == StoreOperands(toks)
    ensures PortOperands(toks + extra) == PortOperands(toks)
    ensures MoveOperands(toks + extra) == MoveOperands(toks)
  {
    ReadsIgnoreLaterTokens(toks, extra, 1);
    ReadsIgnoreLaterTokens(toks, extra, 2);
  }

  lemma AluIgnoresLaterTokens(toks: seq<string>, extra: seq<string>)
    requires |toks| > 3
    ensures AluOperands(toks + extra) == AluOperands(toks)
  {
    ReadsIgnoreLaterTokens(toks, extra, 1);
    ReadsIgnoreLaterTokens(toks, extra, 2);
    ReadsIgnoreLaterTokens(toks, extra, 3);
  }

  /** Space-separated words that hold no space and end in a non-empty word
      tokenise back into those words. */
  lemma TokensOfWords(words: seq<string>)
    requires |words| >= 1 && words[|words| - 1] != ""
    requires forall i :: 0 <= i < |words| ==> ' ' !in words[i]
    ensures Tokens(Join(words, ' ')) == words
  {
    SplitJoin(words, ' ');
  }

  /** `Add`, `Sub`, `And`, `Or Rd R1 R2`: the sources come first, the
      destination last. */
  lemma AluFieldOrder(t: Table, toks: seq<string>, op: Opcode, rd: nat, r1: nat, r2: nat)
    requires WellFormed(t)
    requires op == Add || op == Sub || op == And || op == Or
    requires toks != [] && Lookup(t, Capitalize(toks[0])) == Some(op)
    requires RegisterId(toks, 1) == Ok(rd) && RegisterId(toks, 2) == Ok(r1) && RegisterId(toks, 3) == Ok(r2)
    ensures EncodeLine(t, toks) == Ok(Some(CodeBits(t, op) + Bin(r1, 4) + Bin(r2, 4) + Bin(rd, 4)))
  {
    var bits := Bin(r1, 4) + Bin(r2, 4) + Bin(rd, 4);
    AluBits(op, toks, rd, r1, r2);
    EncodeKnown(t, toks, op, bits);
    AppendAssoc(CodeBits(t, op), Bin(r1, 4), Bin(r2, 4), Bin(rd, 4));
  }

  lemma AluBits(op: Opcode, toks: seq<string>, rd: nat, r1: nat, r2: nat)
    requires op == Add || op == Sub || op == And || op == Or
    requires RegisterId(toks, 1) == Ok(rd) && RegisterId(toks, 2) == Ok(r1) && RegisterId(toks, 3) == Ok(r2)
    ensures OperandBits(op, toks) == Ok(Bin(r1, 4) + Bin(r2, 4) + Bin(rd, 4))
  {
    AluArm(op, toks);
    assert AluOperands(toks) == Ok(Bin(r1, 4) + Bin(r2, 4) + Bin(rd, 4));
  }

  /** A known mnemonic whose operands were read gives the code bits followed
      by the operand bits. */
  lemma EncodeKnown(t: Table, toks: seq<string>, op: Opcode, bits: string)
    requires WellFormed(t)
    requires toks != [] && Lookup(t, Capitalize(toks[0])) == Some(op)
    requires OperandBits(op, toks) == Ok(bits)
    ensures EncodeLine(t, toks) == Ok(Some(CodeBits(t, op) + bits))
  {
  }

  lemma SmallNumerals()
    ensures Bin(1, 4) == "0001" && Bin(2, 4) == "0010" && Bin(3, 4) == "0011"
    ensures Bin(200, 8) == "11001000"
  {
    SmallRegisters();
    assert BinDigits(3) == "11";
    assert BinDigits(12) == "1100";
    assert BinDigits(25) == "11001";
    assert BinDigits(200) == "11001000";
  }

  lemma SmallRegisters()
    ensures Bin(1, 4) == "0001" && Bin(2, 4) == "0010" && Bin(3, 4) == "0011"
  {
    assert BinDigits(1) == "1" && Zeros(3) == "000";
    assert BinDigits(2) == "10" && Zeros(2) == "00";
    assert BinDigits(3) == "11";
  }

  lemma SmallDecimals()
    ensures Decimal(200) == "200"
  {
    assert Decimal(2) == "2";
    assert Decimal(20) == "20";
  }

  /** `Li R3 200`: the immediate 200 in eight bits, then register 3 in four. */
  lemma LiExample(t: Table)
    requires WellFormed(t) && Lookup(t, "Li") == Some(Li)
    ensures EncodeLine(t, Tokens("Li R3 200")) == Ok(Some(CodeBits(t, Li) + "11001000" + "0011"))
  {
    var toks := ["Li", "R3", "200"];
    assert "Li R3 200" == Join(toks, ' ');
    TokensOfWords(toks);
    assert Capitalize("Li") == "Li";
    assert "R3" == "R" + Decimal(3);
    RegisterIdOfNumeral(toks, 1, 3);
    SmallDecimals();
    RawNumberOfNumeral(toks, 2, 200);
    LiInRange(t, toks, 3, 200);
    SmallNumerals();
  }

  /** `Add R1 R2 R3`: the sources R2 and R3 first, the destination R1 last. */
  lemma AddExample(t: Table)
    requires WellFormed(t) && Lookup(t, "Add") == Some(Add)
    ensures EncodeLine(t, Tokens("Add R1 R2 R3")) == Ok(Some(CodeBits(t, Add) + "0010" + "0011" + "0001"))
  {
    var toks := ["Add", "R1", "R2", "R3"];
    assert "Add R1 R2 R3" == Join(toks, ' ');
    TokensOfWords(toks);
    assert Capitalize("Add") == "Add";
    assert "R1" == "R" + Decimal(1) && "R2" == "R" + Decimal(2) && "R3" == "R" + Decimal(3);
    RegisterIdOfNumeral(toks, 1, 1);
    RegisterIdOfNumeral(toks, 2, 2);
    RegisterIdOfNumeral(toks, 3, 3);
    AluFieldOrder(t, toks, Add, 1, 2, 3);
    SmallNumerals();
  }

  /** `Lw Rd addr`: the address first, the register last, whatever their
      values. */
  lemma LoadFieldOrder(t: Table, toks: seq<string>, rd: nat, addr: nat)
    requires WellFormed(t)
    requires toks != [] && Lookup(t, Capitalize(toks[0])) == Some(Lw)
    requires RegisterId(toks, 1) == Ok(rd) && RawNumber(toks, 2) == Ok(addr)
    ensures EncodeLine(t, toks) == Ok(Some(CodeBits(t, Lw) + Bin(addr, 6) + Bin(rd, 4)))
  {
    assert OperandBits(Lw, toks) == Ok(Bin(addr, 6) + Bin(rd, 4));
    EncodeKnown(t, toks, Lw, Bin(addr, 6) + Bin(rd, 4));
    assert CodeBits(t, Lw) + (Bin(addr, 6) + Bin(rd, 4)) == CodeBits(t, Lw) + Bin(addr, 6) + Bin(rd, 4);
  }

  lemma WideBinary()
    ensures Bin(100, 6) == "1100100"
  {
    assert BinDigits(3) == "11" && BinDigits(6) == "110" && BinDigits(12) == "1100";
    assert BinDigits(25) == "11001" && BinDigits(50) == "110010";
    assert BinDigits(100) == "1100100";
  }

  /** `Lw R1 100`: the address 100 does not fit six bits and comes out whole,
      in seven, before register 1; the word is 17 bits long. */
  lemma LoadExample(t: Table)
    requires WellFormed(t) && Lookup(t, "Lw") == Some(Lw)
    ensures EncodeLine(t, Tokens("Lw R1 100")) == Ok(Some(CodeBits(t, Lw) + "1100100" + "0001"))
    ensures |CodeBits(t, Lw) + "1100100" + "0001"| == 17
  {
    LoadExampleTokens();
    LoadExampleWord(t, ["Lw", "R1", "100"]);
    LoadExampleLength(t);
  }

  lemma LoadExampleLength(t: Table)
    requires WellFormed(t)
    ensures |CodeBits(t, Lw) + "1100100" + "0001"| == 17
  {
    assert |CodeBits(t, Lw)| == CodeWidth(Lw) == 6;
  }

  lemma LoadExampleWord(t: Table, toks: seq<string>)
    requires WellFormed(t) && Lookup(t, "Lw") == Some(Lw)
    requires toks == ["Lw", "R1", "100"]
    ensures EncodeLine(t, toks) == Ok(Some(CodeBits(t, Lw) + "1100100" + "0001"))
  {
    assert Capitalize("Lw") == "Lw";
    LoadExampleReads(toks);
    LoadFieldOrder(t, toks, 1, 100);
    WideBinary();
    SmallNumerals();
  }

  lemma LoadExampleTokens()
    ensures Tokens("Lw R1 100") == ["Lw", "R1", "100"]
  {
    assert "Lw R1 100" == Join(["Lw", "R1", "100"], ' ');
    TokensOfWords(["Lw", "R1", "100"]);
  }

  lemma LoadExampleReads(toks: seq<string>)
    requires toks == ["Lw", "R1", "100"]
    ensures RegisterId(toks, 1) == Ok(1) && RawNumber(toks, 2) == Ok(100)
  {
    assert "R1" == "R" + Decimal(1);
    RegisterIdOfNumeral(toks, 1, 1);
    assert Decimal(10) == "10" && Decimal(100) == "100";
    RawNumberOfNumeral(toks, 2, 100);
  }

  /** `Li R3` with the immediate missing: the line fails as the cursor runs
      out, and no word is emitted. */
  lemma LiMissingImmediate(t: Table)
    requires WellFormed(t) && Lookup(t, "Li") == Some(Li)
    ensures EncodeLine(t, Tokens("Li R3")) == Err(MissingOperand)
  {
    LiMissingTokens();
    LiMissingReads(["Li", "R3"]);
    assert Capitalize("Li") == "Li";
  }

  lemma LiMissingTokens()
    ensures Tokens("Li R3") == ["Li", "R3"]
  {
    assert "Li R3" == Join(["Li", "R3"], ' ');
    TokensOfWords(["Li", "R3"]);
  }

  lemma LiMissingReads(toks: seq<string>)
    requires toks == ["Li", "R3"]
    ensures LiOperands(toks) == Err(MissingOperand)
  {
    assert "R3" == "R" + Decimal(3);
    RegisterIdOfNumeral(toks, 1, 3);
    assert RawNumber(toks, 2) == Err(MissingOperand);
  }

  /** `Add R1 R2 X`: the third register does not parse, so the line fails with
      that token. */
  lemma AddMalformedOperand(t: Table)
    requires WellFormed(t) && Lookup(t, "Add") == Some(Add)
    ensures EncodeLine(t, Tokens("Add R1 R2 X")) == Err(MalformedOperand("X"))
  {
    var toks := ["Add", "R1", "R2", "X"];
    AddMalformedTokens();
    AddMalformedReads(toks);
    AluArm(Add, toks);
    assert Capitalize("Add") == "Add";
  }

  lemma AddMalformedTokens()
    ensures Tokens("Add R1 R2 X") == ["Add", "R1", "R2", "X"]
  {
    assert "Add R1 R2 X" == Join(["Add", "R1", "R2", "X"], ' ');
    TokensOfWords(["Add", "R1", "R2", "X"]);
  }

  lemma AddMalformedReads(toks: seq<string>)
    requires toks == ["Add", "R1", "R2", "X"]
    ensures AluOperands(toks) == Err(MalformedOperand("X"))
  {
    assert "R1" == "R" + Decimal(1) && "R2" == "R" + Decimal(2);
    RegisterIdOfNumeral(toks, 1, 1);
    RegisterIdOfNumeral(toks, 2, 2);
    assert 'X' in toks[3];
    RegisterIdRejectsStray(toks, 3, 'X');
  }

  // ---------------------------------------------------------------------------
  // The loop body of `process_instructions`, with the token cursor

  /** Encodes one line the way the assembler does: split it, take the mnemonic
      from a fresh cursor, push the code bits, then let the extractors advance
      the cursor over the operands. */
  method EncodeInstruction(t: Table, line: string) returns (r: Result<Option<string>>)
    requires WellFormed(t)
    ensures r == EncodeLine(t, Tokens(line))
  {
    var word := new Cursor(Tokens(line));
    var first := word.Next();
    if first.None? {
      return Err(MissingOperand);
    }
    var mnemonic := Lookup(t, Capitalize(first.value));
    if mnemonic.None? {
      return Ok(None);
    }
    var op := mnemonic.value;
    var binInstr := CodeBits(t, op);
    var operands: string;
    match op {
      case Nop | Ret =>
        operands := "0000000000";
      case Li =>
        operands :- PushLi(word);
      case Jmp | Jz | Jnz | Call =>
        operands :- PushBranch(op, word);
      case Mov | Not =>
        operands :- PushMove(op, word);
      case Add | Sub | And | Or =>
        operands :- PushAlu(op, word);
      case Lw | Sw | In | Out =>
        operands :- PushMemory(op, word);
    }
    binInstr := binInstr + operands;
    r := Ok(Some(binInstr));
  }

  /** The `Li` arm: the register, and the immediate only when the register is
      below 16. */
  method PushLi(word: Cursor) returns (r: Result<string>)
    requires word.pos == 1
    modifies word
    ensures r == OperandBits(Li, word.tokens)
    ensures r.Ok? ==> RegisterId(word.tokens, 1).Ok?
    ensures r.Ok? ==> word.pos == if RegisterId(word.tokens, 1).value < 16 then 3 else 2
    ensures 1 <= word.pos <= 3
  {
    var registerId :- GetRegId(word);
    if registerId < 16 {
      var inmNum :- GetRawNum(word);
      r := Ok(Bin(inmNum, 8) + Bin(registerId, 4));
    } else {
      r := Ok("");
    }
  }

  /** The `Jmp`, `Jz`, `Jnz` and `Call` arms: the address when below 1024. */
  method PushBranch(op: Opcode, word: Cursor) returns (r: Result<string>)
    requires op == Jmp || op == Jz || op == Jnz || op == Call
    requires word.pos == 1
    modifies word
    ensures r == OperandBits(op, word.tokens)
    ensures r.Ok? ==> word.pos == 1 + Arity(op)
    ensures 1 <= word.pos <= 1 + Arity(op)
  {
    assert Arity(op) == 1;
    BranchArm(op, word.tokens);
    var jumpAddr :- GetRawNum(word);
    if jumpAddr < 1024 {
      r := Ok(Bin(jumpAddr, 10));
    } else {
      r := Ok("");
    }
  }

  /** The `Mov` and `Not` arms: read Rd then Rs, write Rs, a zero nibble, Rd. */
  method PushMove(op: Opcode, word: Cursor) returns (r: Result<string>)
    requires op == Mov || op == Not
    requires word.pos == 1
    modifies word
    ensures r == OperandBits(op, word.tokens)
    ensures r.Ok? ==> word.pos == 1 + Arity(op)
    ensures 1 <= word.pos <= 1 + Arity(op)
  {
    assert Arity(op) == 2;
    MoveArm(op, word.tokens);
    var rd :- GetRegId(word);
    var rs :- GetRegId(word);
    r := Ok(Bin(rs, 4) + Bin(0, 4) + Bin(rd, 4));
  }

  /** The `Add`, `Sub`, `And` and `Or` arms: read Rd, R1, R2, write R1, R2, Rd. */
  method PushAlu(op: Opcode, word: Cursor) returns (r: Result<string>)
    requires op == Add || op == Sub || op == And || op == Or
    requires word.pos == 1
    modifies word
    ensures r == OperandBits(op, word.tokens)
    ensures r.Ok? ==> word.pos == 1 + Arity(op)
    ensures 1 <= word.pos <= 1 + Arity(op)
  {
    assert Arity(op) == 3;
    AluArm(op, word.tokens);
    var rd :- GetRegId(word);
    assert word.pos == 2;
    var r1 :- GetRegId(word);
    assert word.pos == 3;
    var r2 :- GetRegId(word);
    r := Ok(Bin(r1, 4) + Bin(r2, 4) + Bin(rd, 4));
  }

  /** The `Lw`, `Sw`, `In` and `Out` arms: a register or port, then an address. */
  method PushMemory(op: Opcode, word: Cursor) returns (r: Result<string>)
    requires op == Lw || op == Sw || op == In || op == Out
    requires word.pos == 1
    modifies word
    ensures r == OperandBits(op, word.tokens)
    ensures r.Ok? ==> word.pos == 1 + Arity(op)
    ensures 1 <= word.pos <= 1 + Arity(op)
  {
    assert Arity(op) == 2;
    match op {
      case Lw =>
        assert OperandBits(op, word.tokens) == LoadOperands(word.tokens);
        var rd :- GetRegId(word);
        var memAddr :- GetRawNum(word);
        r := Ok(Bin(memAddr, 6) + Bin(rd, 4));
      case Sw =>
        assert OperandBits(op, word.tokens) == StoreOperands(word.tokens);
        var rs :- GetRegId(word);
        var memAddr :- GetRawNum(word);
        r := Ok(Bin(rs, 4) + Bin(memAddr, 6));
      case In | Out =>
        PortArm(op, word.tokens);
        var port :- GetPortId(word);
        var memAddr :- GetRawNum(word);
        r := Ok(Bin(port, 4) + Bin(memAddr, 6));
    }
  }
}
