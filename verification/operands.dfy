/** The operand extractors `get_reg_id`, `get_port_id` and `get_raw_num`: each
    takes the next token from the line's cursor and parses it as a decimal. */
module Operands {
  import opened Results
  import opened Text
  import opened Numerals

  const MaxU8: nat := 255
  const MaxU16: nat := 65535

  /** `next().unwrap()` on a cursor standing at position `i`. */
  function TokenAt(toks: seq<string>, i: nat): (r: Result<string>)
    ensures r.Ok? <==> i < |toks|
  {
    if i < |toks| then Ok(toks[i]) else Err(MissingOperand)
  }

  /** `parse().unwrap()` of `digits`, read off `token`. */
  function ParseOperand(token: string, digits: string, max: nat): (r: Result<nat>)
  {
    match ParseUnsigned(digits, max)
    case Some(v) => Ok(v)
    case None => Err(MalformedOperand(token))
  }

  /** `get_reg_id` on the token at position `i`. */
  function RegisterId(toks: seq<string>, i: nat): (r: Result<nat>)
    ensures r.Ok? ==> i < |toks| && r.value <= MaxU8
  {
    var tok :- TokenAt(toks, i);
    ParseOperand(tok, Without(tok, 'R'), MaxU8)
  }

  /** `get_port_id` on the token at position `i`. */
  function PortId(toks: seq<string>, i: nat): (r: Result<nat>)
    ensures r.Ok? ==> i < |toks| && r.value <= MaxU8
  {
    var tok :- TokenAt(toks, i);
    ParseOperand(tok, Without(tok, 'P'), MaxU8)
  }

  /** `get_raw_num` on the token at position `i`. */
  function RawNumber(toks: seq<string>, i: nat): (r: Result<nat>)
    ensures r.Ok? ==> i < |toks| && r.value <= MaxU16
  {
    var tok :- TokenAt(toks, i);
    ParseOperand(tok, tok, MaxU16)
  }

  // ---------------------------------------------------------------------------
  // What the extractors accept

  /** `get_reg_id` as written: no token left fails with `MissingOperand`;
      otherwise the pieces of `split_terminator("R")`, collected into one
      string, are parsed as a `u8`. That string is the token with EVERY 'R'
      deleted, not only a leading one. */
  lemma RegisterIdMeaning(toks: seq<string>, i: nat)
    ensures i >= |toks| ==> RegisterId(toks, i) == Err(MissingOperand)
    ensures i < |toks| ==> RegisterId(toks, i) == ParseOperand(toks[i], Concat(SplitTerminator(toks[i], 'R')), MaxU8)
  {
    if i < |toks| { ConcatSplitTerminator(toks[i], 'R'); }
  }

  /** The same for `get_port_id` and 'P'. */
  lemma PortIdMeaning(toks: seq<string>, i: nat)
    ensures i >= |toks| ==> PortId(toks, i) == Err(MissingOperand)
    ensures i < |toks| ==> PortId(toks, i) == ParseOperand(toks[i], Concat(SplitTerminator(toks[i], 'P')), MaxU8)
  {
    if i < |toks| { ConcatSplitTerminator(toks[i], 'P'); }
  }

  /** `Rn` reads as register `n` when `n` fits a `u8`, and is malformed otherwise. */
  lemma RegisterIdOfNumeral(toks: seq<string>, i: nat, n: nat)
    requires i < |toks| && toks[i] == "R" + Decimal(n)
    ensures RegisterId(toks, i) == if n <= MaxU8 then Ok(n) else Err(MalformedOperand(toks[i]))
  {
    var d := Decimal(n);
    assert 'R' !in d by {
      forall k | 0 <= k < |d| ensures d[k] != 'R' { assert IsDigit(d[k]); }
    }
    WithoutAbsent(d, 'R');
    assert Without(toks[i], 'R') == d by {
      assert toks[i][0] == 'R' && toks[i][1..] == d;
    }
    ParseDecimal(n, MaxU8);
  }

  /** `Pn` reads as port `n` when `n` fits a `u8`, and is malformed otherwise. */
  lemma PortIdOfNumeral(toks: seq<string>, i: nat, n: nat)
    requires i < |toks| && toks[i] == "P" + Decimal(n)
    ensures PortId(toks, i) == if n <= MaxU8 then Ok(n) else Err(MalformedOperand(toks[i]))
  {
    var d := Decimal(n);
    assert 'P' !in d by {
      forall k | 0 <= k < |d| ensures d[k] != 'P' { assert IsDigit(d[k]); }
    }
    WithoutAbsent(d, 'P');
    assert Without(toks[i], 'P') == d by {
      assert toks[i][0] == 'P' && toks[i][1..] == d;
    }
    ParseDecimal(n, MaxU8);
  }

  /** A register token holding any character other than 'R', '+' and the
      digits is malformed, wherever that character stands: `R5x`, `R-1`. */
  lemma RegisterIdRejectsStray(toks: seq<string>, i: nat, x: char)
    requires i < |toks| && x in toks[i]
    requires x != 'R' && x != '+' && !IsDigit(x)
    ensures RegisterId(toks, i) == Err(MalformedOperand(toks[i]))
  {
    var w := Without(toks[i], 'R');
    WithoutKeeps(toks[i], 'R', x);
    var j :| 0 <= j < |w| && w[j] == x;
    ParseRejectsNonDigit(w, MaxU8, j);
  }

  /** The same for port tokens and 'P'. */
  lemma PortIdRejectsStray(toks: seq<string>, i: nat, x: char)
    requires i < |toks| && x in toks[i]
    requires x != 'P' && x != '+' && !IsDigit(x)
    ensures PortId(toks, i) == Err(MalformedOperand(toks[i]))
  {
    var w := Without(toks[i], 'P');
    WithoutKeeps(toks[i], 'P', x);
    var j :| 0 <= j < |w| && w[j] == x;
    ParseRejectsNonDigit(w, MaxU8, j);
  }

  /** An address or immediate holding anything but digits, apart from one
      leading '+', is malformed. */
  lemma RawNumberRejectsNonDigit(toks: seq<string>, i: nat, j: nat)
    requires i < |toks| && j < |toks[i]| && !IsDigit(toks[i][j])
    requires j > 0 || toks[i][0] != '+'
    ensures RawNumber(toks, i) == Err(MalformedOperand(toks[i]))
  {
    ParseRejectsNonDigit(toks[i], MaxU16, j);
  }

  /** A numeral reads as its value when it fits a `u16`, and is malformed otherwise. */
  lemma RawNumberOfNumeral(toks: seq<string>, i: nat, n: nat)
    requires i < |toks| && toks[i] == Decimal(n)
    ensures RawNumber(toks, i) == if n <= MaxU16 then Ok(n) else Err(MalformedOperand(toks[i]))
  {
    ParseDecimal(n, MaxU16);
  }

  // ---------------------------------------------------------------------------
  // The cursor and the extractors as the assembler runs them

  /** The `slice::Iter` over a line's tokens that the extractors advance. */
  class Cursor {
    const tokens: seq<string>
    var pos: nat

    constructor (tokens: seq<string>)
      ensures this.tokens == tokens && pos == 0
    {
      this.tokens := tokens;
      pos := 0;
    }

    /** `Iterator::next`: the token under the cursor, if any; the cursor moves
        past it. An exhausted cursor stays where it is. */
    method Next() returns (t: Option<string>)
      modifies this
      ensures old(pos) < |tokens| ==> t == Some(tokens[old(pos)]) && pos == old(pos) + 1
      ensures old(pos) >= |tokens| ==> t == None && pos == old(pos)
    {
      if pos < |tokens| {
        t := Some(tokens[pos]);
        pos := pos + 1;
      } else {
        t := None;
      }
    }
  }

  /** `get_reg_id`: consumes exactly one token when one is left. */
  method GetRegId(c: Cursor) returns (r: Result<nat>)
    modifies c
    ensures r == RegisterId(c.tokens, old(c.pos))
    ensures c.pos == if old(c.pos) < |c.tokens| then old(c.pos) + 1 else old(c.pos)
  {
    var t := c.Next();
    if t.None? {
      return Err(MissingOperand);
    }
    ConcatSplitTerminator(t.value, 'R');
    r := ParseOperand(t.value, Concat(SplitTerminator(t.value, 'R')), MaxU8);
  }

  /** `get_port_id`: consumes exactly one token when one is left. */
  method GetPortId(c: Cursor) returns (r: Result<nat>)
    modifies c
    ensures r == PortId(c.tokens, old(c.pos))
    ensures c.pos == if old(c.pos) < |c.tokens| then old(c.pos) + 1 else old(c.pos)
  {
    var t := c.Next();
    if t.None? {
      return Err(MissingOperand);
    }
    ConcatSplitTerminator(t.value, 'P');
    r := ParseOperand(t.value, Concat(SplitTerminator(t.value, 'P')), MaxU8);
  }

  /** `get_raw_num`: consumes exactly one token when one is left. */
  method GetRawNum(c: Cursor) returns (r: Result<nat>)
    modifies c
    ensures r == RawNumber(c.tokens, old(c.pos))
    ensures c.pos == if old(c.pos) < |c.tokens| then old(c.pos) + 1 else old(c.pos)
  {
    var t := c.Next();
    if t.None? {
      return Err(MissingOperand);
    }
    r := ParseOperand(t.value, t.value, MaxU16);
  }
}
