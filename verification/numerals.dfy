/** Decimal operand parsing (`str::parse` for `u8` and `u16`) and the
    zero-padded binary formatting `{:0wb}` used to build instruction words. */
module Numerals {
  import opened Results

  function Pow2(n: nat): (p: nat)
    ensures p >= 1
  {
    if n == 0 then 1 else 2 * Pow2(n - 1)
  }

  lemma {:induction false} Pow2Monotone(a: nat, b: nat)
    requires a <= b
    ensures Pow2(a) <= Pow2(b)
    decreases b
  {
    if a < b { Pow2Monotone(a, b - 1); }
  }

  // ---------------------------------------------------------------------------
  // Decimal

  predicate IsDigit(c: char) { '0' <= c <= '9' }

  predicate AllDigits(s: string) { forall i :: 0 <= i < |s| ==> IsDigit(s[i]) }

  function DigitChar(d: nat): (c: char)
    requires d < 10
    ensures IsDigit(c)
  {
    ('0' as int + d) as char
  }

  /** The value of a string of decimal digits, most significant first. */
  function DecimalValue(s: string): nat
    requires AllDigits(s)
  {
    if s == [] then 0 else 10 * DecimalValue(s[..|s| - 1]) + (s[|s| - 1] as int - '0' as int)
  }

  /** `str::parse` for an unsigned integer type whose largest value is `max`
      (255 for `u8`, 65535 for `u16`): an optional leading '+', then at least
      one decimal digit, the value no more than `max`. Anything else (the empty
      token, a sign alone, '-', a letter, an overflowing value) is `None`. */
  function ParseUnsigned(s: string, max: nat): (r: Option<nat>)
    ensures r.Some? ==> r.value <= max
  {
    var digits := if |s| > 0 && s[0] == '+' then s[1..] else s;
    if digits != [] && AllDigits(digits) && DecimalValue(digits) <= max
    then Some(DecimalValue(digits))
    else None
  }

  /** The decimal numeral of `n` without leading zeros. */
  function Decimal(n: nat): (s: string)
    ensures |s| >= 1 && AllDigits(s)
  {
    if n < 10 then [DigitChar(n)] else Decimal(n / 10) + [DigitChar(n % 10)]
  }

  lemma {:induction false} DecimalValueOfDecimal(n: nat)
    ensures DecimalValue(Decimal(n)) == n
  {
    if n >= 10 {
      DecimalValueOfDecimal(n / 10);
      var s := Decimal(n);
      assert s[..|s| - 1] == Decimal(n / 10);
    }
  }

  /** Parsing a numeral gives its value back exactly when the value fits the
      type, with or without a leading '+'. */
  lemma ParseDecimal(n: nat, max: nat)
    ensures ParseUnsigned(Decimal(n), max) == if n <= max then Some(n) else None
    ensures ParseUnsigned("+" + Decimal(n), max) == if n <= max then Some(n) else None
  {
    DecimalValueOfDecimal(n);
    assert ("+" + Decimal(n))[1..] == Decimal(n);
  }

  /** The empty token and tokens that start with '-' never parse. */
  lemma ParseRejectsSignless(s: string, max: nat)
    requires s == "" || s == "+" || s[0] == '-'
    ensures ParseUnsigned(s, max) == None
  {
    if s != "" && s != "+" { assert !IsDigit(s[0]); }
  }

  /** A token that holds anything but digits, apart from one leading '+',
      never parses: accepting a token means it is digits after that sign. */
  lemma ParseRejectsNonDigit(s: string, max: nat, i: nat)
    requires i < |s| && !IsDigit(s[i])
    requires i > 0 || s[0] != '+'
    ensures ParseUnsigned(s, max) == None
  {
    if s[0] == '+' {
      assert s[1..][i - 1] == s[i];
    }
  }

  /** Leading zeros add nothing to the value of a numeral. */
  lemma {:induction false} DecimalValueLeadingZeros(k: nat, d: string)
    requires AllDigits(d)
    ensures AllDigits(Zeros(k) + d) && DecimalValue(Zeros(k) + d) == DecimalValue(d)
    decreases |d|
  {
    if d == [] {
      assert Zeros(k) + d == Zeros(k);
      ZerosValue(k);
    } else {
      var init := d[..|d| - 1];
      DecimalValueLeadingZeros(k, init);
      assert (Zeros(k) + d)[..|Zeros(k) + d| - 1] == Zeros(k) + init;
    }
  }

  lemma {:induction false} ZerosValue(k: nat)
    ensures AllDigits(Zeros(k)) && DecimalValue(Zeros(k)) == 0
  {
    if k > 0 {
      ZerosValue(k - 1);
      assert Zeros(k)[..k - 1] == Zeros(k - 1);
    }
  }

  /** A numeral padded with leading zeros parses to the same value, under the
      same bound, with or without a leading '+'. */
  lemma ParseLeadingZeros(k: nat, n: nat, max: nat)
    ensures ParseUnsigned(Zeros(k) + Decimal(n), max) == if n <= max then Some(n) else None
    ensures ParseUnsigned("+" + Zeros(k) + Decimal(n), max) == if n <= max then Some(n) else None
  {
    assert ("+" + Zeros(k) + Decimal(n))[1..] == Zeros(k) + Decimal(n);
    DecimalValueLeadingZeros(k, Decimal(n));
    DecimalValueOfDecimal(n);
    var s := Zeros(k) + Decimal(n);
    assert s[0] != '+' by {
      if k > 0 { assert s[0] == Zeros(k)[0]; } else { assert s[0] == Decimal(n)[0]; }
    }
  }

  // ---------------------------------------------------------------------------
  // Binary

  predicate IsBits(s: string) { forall i :: 0 <= i < |s| ==> s[i] == '0' || s[i] == '1' }

  /** The value of a binary numeral, most significant bit first. */
  function BitsValue(s: string): nat
  {
    if s == [] then 0 else 2 * BitsValue(s[..|s| - 1]) + (if s[|s| - 1] == '1' then 1 else 0)
  }

  function BitChar(b: nat): char
    requires b < 2
  {
    if b == 0 then '0' else '1'
  }

  /** `{:b}`: the shortest binary numeral of `v` ("0" for zero). */
  function BinDigits(v: nat): (s: string)
    ensures |s| >= 1 && IsBits(s)
  {
    if v < 2 then [BitChar(v)] else BinDigits(v / 2) + [BitChar(v % 2)]
  }

  function Zeros(n: nat): (s: string)
    ensures |s| == n && forall i :: 0 <= i < n ==> s[i] == '0'
  {
    if n == 0 then "" else "0" + Zeros(n - 1)
  }

  /** `{:0wb}`: the binary numeral of `v` left-padded with '0' to at least `w`
      characters. The width is a minimum: a longer numeral is kept whole. */
  function Bin(v: nat, w: nat): (s: string)
    ensures IsBits(s) && |s| >= w
  {
    var d := BinDigits(v);
    if |d| < w then Zeros(w - |d|) + d else d
  }

  lemma {:induction false} BitsValueLeadingZero(s: string)
    ensures BitsValue("0" + s) == BitsValue(s)
    decreases |s|
  {
    if s != [] {
      assert ("0" + s)[..|s|] == "0" + s[..|s| - 1];
      BitsValueLeadingZero(s[..|s| - 1]);
    }
  }

  lemma {:induction false} BitsValueZeros(k: nat, s: string)
    ensures BitsValue(Zeros(k) + s) == BitsValue(s)
    decreases k
  {
    if k > 0 {
      assert Zeros(k) + s == "0" + (Zeros(k - 1) + s);
      BitsValueLeadingZero(Zeros(k - 1) + s);
      BitsValueZeros(k - 1, s);
    } else {
      assert Zeros(k) + s == s;
    }
  }

  lemma {:induction false} BinDigitsValue(v: nat)
    ensures BitsValue(BinDigits(v)) == v
    decreases v
  {
    if v >= 2 {
      var s := BinDigits(v);
      assert s[..|s| - 1] == BinDigits(v / 2);
      BinDigitsValue(v / 2);
    }
  }

  /** The shortest numeral of `v` has `n` digits with 2^(n-1) <= v < 2^n
      (for v >= 1). */
  lemma {:induction false} BinDigitsLength(v: nat)
    ensures v < Pow2(|BinDigits(v)|)
    ensures v >= 1 ==> Pow2(|BinDigits(v)| - 1) <= v
    decreases v
  {
    if v >= 2 {
      BinDigitsLength(v / 2);
    }
  }

  /** `{:0wb}` reads back as the value it formats. */
  lemma BinValue(v: nat, w: nat)
    ensures BitsValue(Bin(v, w)) == v
  {
    var d := BinDigits(v);
    BinDigitsValue(v);
    if |d| < w { BitsValueZeros(w - |d|, d); }
  }

  /** `{:0wb}` is exactly `w` characters long iff the value fits in `w` bits. */
  lemma BinWidth(v: nat, w: nat)
    ensures |Bin(v, w)| == w <==> w >= 1 && v < Pow2(w)
  {
    var d := BinDigits(v);
    BinDigitsLength(v);
    if |d| <= w {
      Pow2Monotone(|d|, w);
    } else if v >= 1 {
      Pow2Monotone(w, |d| - 1);
    }
  }

  // ---------------------------------------------------------------------------
  // Fixed-width fields

  function Sum(ws: seq<nat>): nat
  {
    if ws == [] then 0 else ws[0] + Sum(ws[1..])
  }

  /** Values formatted one after another, each with its own `{:0wb}` width. */
  function Pack(vs: seq<nat>, ws: seq<nat>): string
    requires |vs| == |ws|
  {
    if vs == [] then "" else Bin(vs[0], ws[0]) + Pack(vs[1..], ws[1..])
  }

  /** Formatting never truncates: packed fields take at least the sum of
      their widths. */
  lemma {:induction false} PackAtLeast(vs: seq<nat>, ws: seq<nat>)
    requires |vs| == |ws|
    ensures |Pack(vs, ws)| >= Sum(ws)
    decreases |vs|
  {
    if vs != [] {
      PackAtLeast(vs[1..], ws[1..]);
    }
  }

  /** Reads consecutive fields of the given widths off a bit string. */
  function Unpack(bits: string, ws: seq<nat>): (vs: seq<nat>)
    ensures |vs| == |ws|
  {
    if ws == [] then []
    else
      var w := if ws[0] <= |bits| then ws[0] else |bits|;
      [BitsValue(bits[..w])] + Unpack(bits[w..], ws[1..])
  }

  predicate FitsWidths(vs: seq<nat>, ws: seq<nat>)
  {
    |vs| == |ws| && forall i :: 0 <= i < |ws| ==> ws[i] >= 1 && vs[i] < Pow2(ws[i])
  }

  /** Fields that fit their widths are packed into exactly the sum of the
      widths and read back unchanged. */
  lemma {:induction false} UnpackPack(vs: seq<nat>, ws: seq<nat>)
    requires FitsWidths(vs, ws)
    ensures |Pack(vs, ws)| == Sum(ws)
    ensures Unpack(Pack(vs, ws), ws) == vs
    decreases |vs|
  {
    if vs != [] {
      var head := Bin(vs[0], ws[0]);
      var tail := Pack(vs[1..], ws[1..]);
      BinWidth(vs[0], ws[0]);
      BinValue(vs[0], ws[0]);
      assert FitsWidths(vs[1..], ws[1..]) by {
        forall i | 0 <= i < |ws| - 1 ensures ws[1..][i] >= 1 && vs[1..][i] < Pow2(ws[1..][i]) {
          assert ws[1..][i] == ws[i + 1] && vs[1..][i] == vs[i + 1];
        }
      }
      UnpackPack(vs[1..], ws[1..]);
      assert (head + tail)[..ws[0]] == head;
      assert (head + tail)[ws[0]..] == tail;
      assert [vs[0]] + vs[1..] == vs;
    }
  }

  lemma PackOne(a: nat, wa: nat)
    ensures Pack([a], [wa]) == Bin(a, wa)
  {
    assert Pack([a], [wa]) == Bin(a, wa) + Pack([], []);
  }

  lemma PackTwo(a: nat, b: nat, wa: nat, wb: nat)
    ensures Pack([a, b], [wa, wb]) == Bin(a, wa) + Bin(b, wb)
  {
    assert [a, b][1..] == [b] && [wa, wb][1..] == [wb];
    PackOne(b, wb);
  }

  lemma PackThree(a: nat, b: nat, c: nat, wa: nat, wb: nat, wc: nat)
    ensures Pack([a, b, c], [wa, wb, wc]) == Bin(a, wa) + Bin(b, wb) + Bin(c, wc)
  {
    assert [a, b, c][1..] == [b, c] && [wa, wb, wc][1..] == [wb, wc];
    PackTwo(b, c, wb, wc);
  }

  lemma FitsWidthsOne(a: nat, wa: nat)
    ensures FitsWidths([a], [wa]) <==> wa >= 1 && a < Pow2(wa)
  {
    assert [a][0] == a && [wa][0] == wa;
  }

  lemma FitsWidthsTwo(a: nat, b: nat, wa: nat, wb: nat)
    ensures FitsWidths([a, b], [wa, wb]) <==> wa >= 1 && wb >= 1 && a < Pow2(wa) && b < Pow2(wb)
  {
    assert [a, b][0] == a && [a, b][1] == b && [wa, wb][0] == wa && [wa, wb][1] == wb;
  }

  lemma FitsWidthsThree(a: nat, b: nat, c: nat, wa: nat, wb: nat, wc: nat)
    ensures FitsWidths([a, b, c], [wa, wb, wc])
      <==> wa >= 1 && wb >= 1 && wc >= 1 && a < Pow2(wa) && b < Pow2(wb) && c < Pow2(wc)
  {
    assert [a, b, c][0] == a && [a, b, c][1] == b && [a, b, c][2] == c;
    assert [wa, wb, wc][0] == wa && [wa, wb, wc][1] == wb && [wa, wb, wc][2] == wc;
  }

  /** Two formatted fields take exactly their widths iff both values fit. */
  lemma TwoWidths(a: nat, b: nat, wa: nat, wb: nat)
    requires wa >= 1 && wb >= 1
    ensures |Bin(a, wa) + Bin(b, wb)| == wa + wb <==> a < Pow2(wa) && b < Pow2(wb)
  {
    BinWidth(a, wa);
    BinWidth(b, wb);
  }

  /** Three formatted fields take exactly their widths iff all values fit. */
  lemma ThreeWidths(a: nat, b: nat, c: nat, wa: nat, wb: nat, wc: nat)
    requires wa >= 1 && wb >= 1 && wc >= 1
    ensures |Bin(a, wa) + Bin(b, wb) + Bin(c, wc)| == wa + wb + wc
      <==> a < Pow2(wa) && b < Pow2(wb) && c < Pow2(wc)
  {
    BinWidth(a, wa);
    BinWidth(b, wb);
    BinWidth(c, wc);
  }
}
