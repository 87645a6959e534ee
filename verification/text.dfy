/** String splitting, joining and mnemonic normalisation as the assembler uses
    them: `str::split_terminator` for lines, tokens and register prefixes,
    `Vec::join` for the output file and `capitalize_str` for mnemonics. */
module Text {

  /** The pieces `str::split(sep)` yields: `s` cut at every `sep`, always at
      least one piece. */
  function Split(s: string, sep: char): (pieces: seq<string>)
    ensures |pieces| >= 1
    decreases |s|
  {
    if s == [] then [""]
    else
      var rest := Split(s[1..], sep);
      if s[0] == sep then [""] + rest
      else [[s[0]] + rest[0]] + rest[1..]
  }

  /** The pieces joined back with `sep` between consecutive ones. */
  function Join(pieces: seq<string>, sep: char): string
  {
    if |pieces| == 0 then ""
    else if |pieces| == 1 then pieces[0]
    else pieces[0] + [sep] + Join(pieces[1..], sep)
  }

  /** `str::split_terminator(sep)`: like `Split`, except that an empty last
      piece (the text ended with `sep`, or was empty) is not yielded. */
  function SplitTerminator(s: string, sep: char): (pieces: seq<string>)
  {
    var all := Split(s, sep);
    if all[|all| - 1] == "" then all[..|all| - 1] else all
  }

  /** All pieces concatenated (`collect::<String>()`). */
  function Concat(pieces: seq<string>): string
  {
    if pieces == [] then "" else pieces[0] + Concat(pieces[1..])
  }

  /** `s` with every occurrence of `c` deleted. */
  function Without(s: string, c: char): (r: string)
    ensures c !in r
    ensures |r| <= |s|
    ensures forall x :: x in r ==> x in s
  {
    if s == [] then []
    else (if s[0] == c then [] else [s[0]]) + Without(s[1..], c)
  }

  /** `str::lines()` on text with `\n` line endings. */
  function Lines(text: string): (lines: seq<string>)
    ensures lines == [] <==> text == []
  {
    SplitTerminator(text, '\n')
  }

  /** The lines that are not empty, in their original order. */
  function NonEmpty(lines: seq<string>): (r: seq<string>)
    ensures forall i :: 0 <= i < |r| ==> r[i] != ""
    ensures forall x :: x in r <==> x in lines && x != ""
  {
    if lines == [] then []
    else (if lines[0] == "" then [] else [lines[0]]) + NonEmpty(lines[1..])
  }

  /** Filtering distributes over concatenation: the kept lines stay in their
      order, and each line is kept or dropped on its own. */
  lemma {:induction false} NonEmptyAppend(a: seq<string>, b: seq<string>)
    ensures NonEmpty(a + b) == NonEmpty(a) + NonEmpty(b)
    decreases |a|
  {
    if a == [] {
      assert a + b == b;
    } else {
      assert (a + b)[0] == a[0];
      assert (a + b)[1..] == a[1..] + b;
      NonEmptyAppend(a[1..], b);
    }
  }

  /** A single line is kept exactly when it is not empty. */
  lemma NonEmptyOne(x: string)
    ensures NonEmpty([x]) == if x == "" then [] else [x]
  {
    assert [x][1..] == [];
  }

  /** ASCII `char::to_uppercase`. */
  function UpperAscii(ch: char): char
  {
    if 'a' <= ch <= 'z' then (ch as int - 32) as char else ch
  }

  /** `capitalize_str`: the first character upper-cased, the others as they are. */
  function Capitalize(s: string): (r: string)
    ensures |r| == |s|
    ensures s != "" ==> r[1..] == s[1..]
    ensures s != "" && 'a' <= s[0] <= 'z' ==> 'A' <= r[0] <= 'Z' && r[0] as int + 32 == s[0] as int
    ensures s != "" && !('a' <= s[0] <= 'z') ==> r[0] == s[0]
  {
    if s == "" then "" else [UpperAscii(s[0])] + s[1..]
  }

  // ---------------------------------------------------------------------------
  // Properties

  /** Capitalising twice is capitalising once. */
  lemma CapitalizeIdempotent(s: string)
    ensures Capitalize(Capitalize(s)) == Capitalize(s)
  {
  }

  /** Splitting and joining with the same separator gives the text back, and no
      piece holds the separator. */
  lemma {:induction false} JoinSplit(s: string, sep: char)
    ensures Join(Split(s, sep), sep) == s
    ensures forall i :: 0 <= i < |Split(s, sep)| ==> sep !in Split(s, sep)[i]
    decreases |s|
  {
    if s != [] {
      var rest := Split(s[1..], sep);
      JoinSplit(s[1..], sep);
      if s[0] == sep {
        assert ([""] + rest)[1..] == rest;
        assert s == [s[0]] + s[1..];
      } else {
        var pieces := [[s[0]] + rest[0]] + rest[1..];
        assert pieces == Split(s, sep);
        if |rest| == 1 {
          assert s == [s[0]] + rest[0];
        } else {
          assert pieces[1..] == rest[1..];
          calc {
            Join(pieces, sep);
            ([s[0]] + rest[0]) + [sep] + Join(rest[1..], sep);
            [s[0]] + (rest[0] + [sep] + Join(rest[1..], sep));
            [s[0]] + Join(rest, sep);
            s;
          }
        }
        forall i | 0 <= i < |pieces| ensures sep !in pieces[i] {
          if i > 0 { assert pieces[i] == rest[i]; }
        }
      }
    }
  }

  /** A separator-free prefix extends the first piece of what follows it. */
  lemma {:induction false} SplitPrefix(p: string, t: string, sep: char)
    requires sep !in p
    ensures Split(p + t, sep) == [p + Split(t, sep)[0]] + Split(t, sep)[1..]
    decreases |p|
  {
    if p != [] {
      assert (p + t)[1..] == p[1..] + t;
      assert (p + t)[0] == p[0];
      SplitPrefix(p[1..], t, sep);
      assert [p[0]] + (p[1..] + Split(t, sep)[0]) == p + Split(t, sep)[0];
    } else {
      var x := Split(t, sep);
      assert p + t == t && p + x[0] == x[0];
      assert [x[0]] + x[1..] == x;
    }
  }

  /** Joining separator-free pieces and splitting again gives the pieces back. */
  lemma {:induction false} SplitJoin(pieces: seq<string>, sep: char)
    requires |pieces| >= 1
    requires forall i :: 0 <= i < |pieces| ==> sep !in pieces[i]
    ensures Split(Join(pieces, sep), sep) == pieces
    decreases |pieces|
  {
    if |pieces| == 1 {
      SplitPrefix(pieces[0], "", sep);
      assert pieces[0] + "" == pieces[0];
    } else {
      var tail := Join(pieces[1..], sep);
      SplitJoin(pieces[1..], sep);
      assert Split([sep] + tail, sep) == [""] + pieces[1..];
      SplitPrefix(pieces[0], [sep] + tail, sep);
      assert pieces[0] + [sep] + tail == pieces[0] + ([sep] + tail);
      assert pieces[0] + "" == pieces[0];
      assert [pieces[0]] + pieces[1..] == pieces;
    }
  }

  lemma {:induction false} JoinSnoc(pieces: seq<string>, last: string, sep: char)
    requires |pieces| >= 1
    ensures Join(pieces + [last], sep) == Join(pieces, sep) + [sep] + last
    decreases |pieces|
  {
    if |pieces| == 1 {
      assert (pieces + [last])[1..] == [last];
    } else {
      assert (pieces + [last])[1..] == pieces[1..] + [last];
      JoinSnoc(pieces[1..], last, sep);
    }
  }

  /** Text that ends in `sep` splits (with `split_terminator`) into the pieces
      that were joined before it; this is how the written image file reads back
      as its lines. */
  lemma SplitTerminatorJoin(pieces: seq<string>, sep: char)
    requires |pieces| >= 1
    requires forall i :: 0 <= i < |pieces| ==> sep !in pieces[i]
    ensures SplitTerminator(Join(pieces, sep) + [sep], sep) == pieces
  {
    JoinSnoc(pieces, "", sep);
    assert Join(pieces, sep) + [sep] == Join(pieces + [""], sep);
    SplitJoin(pieces + [""], sep);
    assert (pieces + [""])[..|pieces|] == pieces;
  }

  lemma {:induction false} ConcatAppend(a: seq<string>, b: seq<string>)
    ensures Concat(a + b) == Concat(a) + Concat(b)
    decreases |a|
  {
    if a != [] {
      assert (a + b)[1..] == a[1..] + b;
      ConcatAppend(a[1..], b);
    } else {
      assert a + b == b;
    }
  }

  /** Concatenating the pieces of a split deletes the separator. */
  lemma {:induction false} ConcatSplit(s: string, c: char)
    ensures Concat(Split(s, c)) == Without(s, c)
    decreases |s|
  {
    if s != [] {
      var rest := Split(s[1..], c);
      ConcatSplit(s[1..], c);
      if s[0] == c {
        assert ([""] + rest)[1..] == rest;
      } else {
        var pieces := [[s[0]] + rest[0]] + rest[1..];
        assert pieces[1..] == rest[1..];
        assert Concat(rest) == rest[0] + Concat(rest[1..]);
      }
    }
  }

  /** `split_terminator(c).collect::<String>()` deletes every `c`, wherever it
      stands in the text. */
  lemma ConcatSplitTerminator(s: string, c: char)
    ensures Concat(SplitTerminator(s, c)) == Without(s, c)
  {
    var all := Split(s, c);
    ConcatSplit(s, c);
    if all[|all| - 1] == "" {
      var init := all[..|all| - 1];
      assert all == init + [""];
      ConcatAppend(init, [""]);
      assert Concat([""]) == "";
      assert Concat(init) + "" == Concat(init);
    }
  }

  /** Text that does not end with `sep` splits back into its pieces, the last
      one included; with `SplitTerminatorJoin` this covers every non-empty
      text. */
  lemma SplitTerminatorUnterminated(pieces: seq<string>, sep: char)
    requires |pieces| >= 1 && pieces[|pieces| - 1] != ""
    requires forall i :: 0 <= i < |pieces| ==> sep !in pieces[i]
    ensures SplitTerminator(Join(pieces, sep), sep) == pieces
  {
    SplitJoin(pieces, sep);
  }

  /** The empty text has no pieces at all. */
  lemma SplitTerminatorEmpty(sep: char)
    ensures SplitTerminator("", sep) == []
  {
  }

  /** A non-empty text always has a first piece (the mnemonic token of a line). */
  lemma SplitTerminatorNonEmpty(s: string, sep: char)
    requires s != ""
    ensures |SplitTerminator(s, sep)| >= 1
  {
    if s[0] != sep {
      assert Split(s, sep)[0] != "";
    } else {
      assert Split(s, sep) == [""] + Split(s[1..], sep);
    }
  }

  /** Deleting a character that does not occur changes nothing. */
  lemma {:induction false} WithoutAbsent(s: string, c: char)
    requires c !in s
    ensures Without(s, c) == s
    decreases |s|
  {
    if s != [] {
      assert c !in s[1..];
      WithoutAbsent(s[1..], c);
    }
  }

  /** Deleting `c` keeps every other character. */
  lemma {:induction false} WithoutKeeps(s: string, c: char, x: char)
    requires x in s && x != c
    ensures x in Without(s, c)
    decreases |s|
  {
    if s[0] != x {
      assert x in s[1..];
      WithoutKeeps(s[1..], c, x);
    }
  }

  lemma {:induction false} WithoutAppend(a: string, b: string, c: char)
    ensures Without(a + b, c) == Without(a, c) + Without(b, c)
    decreases |a|
  {
    if a != [] {
      assert (a + b)[1..] == a[1..] + b;
      WithoutAppend(a[1..], b, c);
    } else {
      assert a + b == b;
    }
  }

  lemma AppendAssoc(a: string, b: string, c: string, d: string)
    ensures a + (b + c + d) == a + b + c + d
  {
  }

  /** Deleting the only character a text holds leaves nothing. */
  lemma {:induction false} WithoutOnly(s: string, c: char)
    requires forall i :: 0 <= i < |s| ==> s[i] == c
    ensures Without(s, c) == ""
    decreases |s|
  {
    if s != [] {
      WithoutOnly(s[1..], c);
    }
  }

  lemma {:induction false} ConcatEmpty(pieces: seq<string>)
    requires Concat(pieces) == ""
    ensures forall k :: 0 <= k < |pieces| ==> pieces[k] == ""
    decreases |pieces|
  {
    if pieces != [] {
      assert |pieces[0]| + |Concat(pieces[1..])| == 0;
      ConcatEmpty(pieces[1..]);
      assert forall k :: 1 <= k < |pieces| ==> pieces[k] == pieces[1..][k - 1];
    }
  }

  lemma {:induction false} NonEmptyOfBlank(lines: seq<string>)
    requires forall k :: 0 <= k < |lines| ==> lines[k] == ""
    ensures NonEmpty(lines) == []
    decreases |lines|
  {
    if lines != [] {
      NonEmptyOfBlank(lines[1..]);
    }
  }
}
