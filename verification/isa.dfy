/** The instruction set as the assembler consumes it from the external opcode
    table (`libc51902::Opcode`): the opcodes, the code bits each word starts
    with, and the operand fields that follow them. */
module Isa {
  import opened Results
  import opened Numerals

  datatype Opcode =
    | Nop | Li | Jmp | Jz | Jnz | Mov | Not | Add | Sub | And | Or
    | Call | Ret | Lw | Sw | In | Out

  /** Width of an opcode's code bits: four for the register-to-register and
      load-immediate group, six for the others. */
  function CodeWidth(op: Opcode): nat
  {
    match op
    case Li | Mov | Not | Add | Sub | And | Or => 4
    case _ => 6
  }

  /** Widths of the operand fields that follow the code bits, most significant
      first, in the order the encoder writes them. */
  function Layout(op: Opcode): seq<nat>
  {
    match op
    case Nop | Ret => [10]
    case Li => [8, 4]
    case Jmp | Jz | Jnz | Call => [10]
    case Mov | Not | Add | Sub | And | Or => [4, 4, 4]
    case Lw => [6, 4]
    case Sw | In | Out => [4, 6]
  }

  /** Code bits and operand fields together fill a 16-bit word. */
  lemma WordIsSixteenBits(op: Opcode)
    ensures CodeWidth(op) + Sum(Layout(op)) == 16
  {
    var ws := Layout(op);
    assert Sum(ws) == ws[0] + Sum(ws[1..]);
    if |ws| > 1 {
      assert Sum(ws[1..]) == ws[1] + Sum(ws[2..]);
      if |ws| > 2 { assert Sum(ws[2..]) == ws[2] + Sum(ws[3..]); }
    }
  }

  /** The external opcode table: `Opcode::from_str` as a map from mnemonic to
      opcode, and `Opcode::to_binary` as the opcode's code digits. */
  datatype Table = Table(names: map<string, Opcode>, code: Opcode -> seq<nat>)

  /** What the assembler assumes of the table: every opcode's code is a string
      of binary digits of the opcode's code width. */
  predicate WellFormed(t: Table)
  {
    forall op :: |t.code(op)| == CodeWidth(op) && forall i :: 0 <= i < |t.code(op)| ==> t.code(op)[i] <= 1
  }

  /** `Opcode::from_str`: an exact, case-sensitive match of the name. */
  function Lookup(t: Table, name: string): (r: Option<Opcode>)
    ensures r.Some? <==> name in t.names
    ensures r.Some? ==> t.names[name] == r.value
  {
    if name in t.names then Some(t.names[name]) else None
  }

  /** `char::from_digit(d, 10)` applied to every digit. */
  function DigitString(ds: seq<nat>): (s: string)
    requires forall i :: 0 <= i < |ds| ==> ds[i] < 10
    ensures |s| == |ds|
    ensures forall i :: 0 <= i < |ds| ==> s[i] == DigitChar(ds[i])
  {
    if ds == [] then "" else [DigitChar(ds[0])] + DigitString(ds[1..])
  }

  /** The code bits an opcode's word starts with. */
  function CodeBits(t: Table, op: Opcode): (s: string)
    requires WellFormed(t)
    ensures |s| == CodeWidth(op) && IsBits(s)
  {
    DigitString(t.code(op))
  }
}
