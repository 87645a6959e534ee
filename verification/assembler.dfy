/** The driver of the assembler: `process_instructions` over all lines,
    `parse_file` (blank-line filtering, padding to 1024 words or failing, the
    image text it writes) and `add_underscore_padding`. */
module Assembler {
  import opened Results
  import opened Text
  import opened Numerals
  import opened Isa
  import opened Encoder

  /** Number of words in a program image. */
  const ImageWords: nat := 1024

  /** The padding word. */
  const ZeroWord: string := "0000000000000000"

  // ---------------------------------------------------------------------------
  // process_instructions

  /** The words of the lines, in line order; lines with an unknown mnemonic give
      none, and the first line that fails aborts everything. */
  function Process(t: Table, lines: seq<string>): (r: Result<seq<string>>)
    requires WellFormed(t)
    ensures r.Ok? ==> |r.value| <= |lines|
    decreases |lines|
  {
    if lines == [] then Ok([])
    else
      var words :- Process(t, lines[..|lines| - 1]);
      match EncodeLine(t, Tokens(lines[|lines| - 1]))
      case Err(e) => Err(e)
      case Ok(None) => Ok(words)
      case Ok(Some(w)) => Ok(words + [w])
  }

  predicate KnownLine(t: Table, line: string)
  {
    Known(t, Tokens(line))
  }

  /** The lines whose capitalised first token names an opcode, in order. */
  function Recognized(t: Table, lines: seq<string>): (r: seq<string>)
    ensures forall i :: 0 <= i < |r| ==> KnownLine(t, r[i])
    ensures |r| <= |lines|
  {
    if lines == [] then []
    else
      var last := lines[|lines| - 1];
      Recognized(t, lines[..|lines| - 1]) + (if KnownLine(t, last) then [last] else [])
  }

  /** Recognition distributes over concatenation: recognised lines stay in
      their order, and each line is kept or dropped on its own. */
  lemma {:induction false} RecognizedAppend(t: Table, a: seq<string>, b: seq<string>)
    ensures Recognized(t, a + b) == Recognized(t, a) + Recognized(t, b)
    decreases |b|
  {
    if b == [] {
      assert a + b == a;
    } else {
      var init := b[..|b| - 1];
      assert (a + b)[..|a + b| - 1] == a + init;
      assert (a + b)[|a + b| - 1] == b[|b| - 1];
      RecognizedAppend(t, a, init);
    }
  }

  /** A single line is kept exactly when its mnemonic is known. */
  lemma RecognizedOne(t: Table, x: string)
    ensures Recognized(t, [x]) == if KnownLine(t, x) then [x] else []
  {
    assert [x][..0] == [];
  }

  /** Every word comes from a recognised line, in the same order, and every
      recognised line gives exactly one word: unknown mnemonics shift the
      following words down. */
  lemma {:induction false} ProcessKeepsOrder(t: Table, lines: seq<string>)
    requires WellFormed(t)
    requires Process(t, lines).Ok?
    ensures var ws := Process(t, lines).value;
      var known := Recognized(t, lines);
      && |ws| == |known|
      && forall i :: 0 <= i < |ws| ==> EncodeLine(t, Tokens(known[i])) == Ok(Some(ws[i]))
    decreases |lines|
  {
    if lines != [] {
      var prefix := lines[..|lines| - 1];
      var last := lines[|lines| - 1];
      ProcessKeepsOrder(t, prefix);
      match EncodeLine(t, Tokens(last)) {
        case Ok(None) =>
          assert !KnownLine(t, last);
          assert Recognized(t, lines) == Recognized(t, prefix) + [];
        case Ok(Some(w)) =>
          assert KnownLine(t, last);
      }
    }
  }

  /** Processing succeeds exactly when every line encodes without failing. */
  lemma {:induction false} ProcessSucceedsIff(t: Table, lines: seq<string>)
    requires WellFormed(t)
    ensures Process(t, lines).Ok? <==> forall i :: 0 <= i < |lines| ==> EncodeLine(t, Tokens(lines[i])).Ok?
    decreases |lines|
  {
    if lines != [] {
      var prefix := lines[..|lines| - 1];
      var last := lines[|lines| - 1];
      ProcessSucceedsIff(t, prefix);
      assert lines == prefix + [last];
      AllSnoc(lines, prefix, last, line => EncodeLine(t, Tokens(line)).Ok?);
      ProcessLast(t, lines);
    }
  }

  lemma AllSnoc<T>(xs: seq<T>, prefix: seq<T>, last: T, p: T -> bool)
    requires xs == prefix + [last]
    ensures (forall i :: 0 <= i < |xs| ==> p(xs[i]))
      <==> (forall i :: 0 <= i < |prefix| ==> p(prefix[i])) && p(last)
  {
    assert forall i :: 0 <= i < |prefix| ==> xs[i] == prefix[i];
    assert xs[|prefix|] == last;
  }

  /** One more line: the result fails exactly when the earlier lines or the new
      line fail. */
  lemma ProcessLast(t: Table, lines: seq<string>)
    requires WellFormed(t)
    requires lines != []
    ensures Process(t, lines).Ok?
      <==> Process(t, lines[..|lines| - 1]).Ok? && EncodeLine(t, Tokens(lines[|lines| - 1])).Ok?
  {
  }

  /** A failure is the failure of the first line that fails. */
  lemma {:induction false} ProcessFailsAtFirstError(t: Table, lines: seq<string>)
    requires WellFormed(t)
    requires Process(t, lines).Err?
    ensures exists i ::
              && 0 <= i < |lines|
              && EncodeLine(t, Tokens(lines[i])) == Err(Process(t, lines).failure)
              && forall j :: 0 <= j < i ==> EncodeLine(t, Tokens(lines[j])).Ok?
    decreases |lines|
  {
    var prefix := lines[..|lines| - 1];
    if Process(t, prefix).Err? {
      ProcessFailsAtFirstError(t, prefix);
      var i :|
        && 0 <= i < |prefix|
        && EncodeLine(t, Tokens(prefix[i])) == Err(Process(t, prefix).failure)
        && forall j :: 0 <= j < i ==> EncodeLine(t, Tokens(prefix[j])).Ok?;
      FirstErrorInPrefix(t, lines, prefix, i);
    } else {
      FirstErrorLast(t, lines);
    }
  }

  lemma FirstErrorInPrefix(t: Table, lines: seq<string>, prefix: seq<string>, i: nat)
    requires WellFormed(t)
    requires lines != [] && prefix == lines[..|lines| - 1] && i < |prefix|
    requires Process(t, prefix).Err?
    requires EncodeLine(t, Tokens(prefix[i])) == Err(Process(t, prefix).failure)
    requires forall j :: 0 <= j < i ==> EncodeLine(t, Tokens(prefix[j])).Ok?
    ensures Process(t, lines).Err?
    ensures EncodeLine(t, Tokens(lines[i])) == Err(Process(t, lines).failure)
    ensures forall j :: 0 <= j < i ==> EncodeLine(t, Tokens(lines[j])).Ok?
  {
    assert forall j :: 0 <= j < |prefix| ==> prefix[j] == lines[j];
  }

  lemma FirstErrorLast(t: Table, lines: seq<string>)
    requires WellFormed(t)
    requires lines != []
    requires Process(t, lines).Err? && Process(t, lines[..|lines| - 1]).Ok?
    ensures EncodeLine(t, Tokens(lines[|lines| - 1])) == Err(Process(t, lines).failure)
    ensures forall j :: 0 <= j < |lines| - 1 ==> EncodeLine(t, Tokens(lines[j])).Ok?
  {
    var prefix := lines[..|lines| - 1];
    ProcessSucceedsIff(t, prefix);
    assert forall j :: 0 <= j < |prefix| ==> prefix[j] == lines[j];
  }

  /** A line with an unknown mnemonic can be deleted without changing the result. */
  lemma {:induction false} DropUnknownLine(t: Table, xs: seq<string>, u: string, ys: seq<string>)
    requires WellFormed(t)
    requires u != "" && !KnownLine(t, u)
    ensures Process(t, xs + [u] + ys) == Process(t, xs + ys)
    decreases |ys|
  {
    if ys == [] {
      SplitTerminatorNonEmpty(u, ' ');
      assert xs + [u] + ys == xs + [u];
      assert (xs + [u])[..|xs|] == xs;
      assert xs + ys == xs;
    } else {
      var ys' := ys[..|ys| - 1];
      var y := ys[|ys| - 1];
      assert xs + [u] + ys == (xs + [u] + ys') + [y];
      assert xs + ys == (xs + ys') + [y];
      DropUnknownLine(t, xs, u, ys');
      ProcessSnocSame(t, xs + [u] + ys', xs + ys', y);
    }
  }

  /** Lines that process alike still do after one more line. */
  lemma ProcessSnocSame(t: Table, a: seq<string>, b: seq<string>, y: string)
    requires WellFormed(t)
    requires Process(t, a) == Process(t, b)
    ensures Process(t, a + [y]) == Process(t, b + [y])
  {
    assert (a + [y])[..|a|] == a;
    assert (b + [y])[..|b|] == b;
  }

  lemma {:induction false} ProcessErrPersists(t: Table, lines: seq<string>, k: nat)
    requires WellFormed(t)
    requires k <= |lines| && Process(t, lines[..k]).Err?
    ensures Process(t, lines) == Process(t, lines[..k])
    decreases |lines| - k
  {
    if k < |lines| {
      assert lines[..k + 1][..k] == lines[..k];
      ProcessErrPersists(t, lines, k + 1);
    } else {
      assert lines[..k] == lines;
    }
  }

  /** Processing one more line extends, keeps or ends the result. */
  lemma ProcessStep(t: Table, lines: seq<string>, i: nat, words: seq<string>)
    requires WellFormed(t)
    requires i < |lines| && Process(t, lines[..i]) == Ok(words)
    ensures EncodeLine(t, Tokens(lines[i])).Err? ==>
      Process(t, lines[..i + 1]) == Err(EncodeLine(t, Tokens(lines[i])).failure)
    ensures EncodeLine(t, Tokens(lines[i])) == Ok(None) ==> Process(t, lines[..i + 1]) == Ok(words)
    ensures EncodeLine(t, Tokens(lines[i])).Ok? && EncodeLine(t, Tokens(lines[i])).value.Some? ==>
      Process(t, lines[..i + 1]) == Ok(words + [EncodeLine(t, Tokens(lines[i])).value.value])
  {
    assert lines[..i + 1][..i] == lines[..i];
  }

  /** `process_instructions`: one pass over the lines, pushing each word. */
  method ProcessInstructions(t: Table, asmVec: seq<string>) returns (r: Result<seq<string>>)
    requires WellFormed(t)
    ensures r == Process(t, asmVec)
  {
    var binVec: seq<string> := [];
    var i := 0;
    while i < |asmVec|
      invariant 0 <= i <= |asmVec|
      invariant Process(t, asmVec[..i]) == Ok(binVec)
    {
      var binInstr := EncodeInstruction(t, asmVec[i]);
      ProcessStep(t, asmVec, i, binVec);
      if binInstr.Err? {
        ProcessErrPersists(t, asmVec, i + 1);
        return Err(binInstr.failure);
      }
      if binInstr.value.Some? {
        binVec := binVec + [binInstr.value.value];
      }
      i := i + 1;
    }
    assert asmVec[..i] == asmVec;
    r := Ok(binVec);
  }

  // ---------------------------------------------------------------------------
  // add_underscore_padding

  /** A word in groups of four: an underscore after every complete group of
      four except the last complete one, so that a final run of four to seven
      characters stays together. */
  function Grouped(w: string): (g: string)
    ensures |g| == |w| + (if |w| < 8 then 0 else |w| / 4 - 1)
    ensures |w| < 8 ==> g == w
    decreases |w|
  {
    if |w| < 8 then w else w[..4] + "_" + Grouped(w[4..])
  }

  /** A 16-bit word becomes four nibbles, underscores at 4, 9 and 14. */
  lemma GroupedWord(w: string)
    requires |w| == 16
    ensures Grouped(w) == w[..4] + "_" + w[4..8] + "_" + w[8..12] + "_" + w[12..]
    ensures |Grouped(w)| == 19 && Grouped(w)[4] == '_' && Grouped(w)[9] == '_' && Grouped(w)[14] == '_'
  {
    var a := w[4..];
    var b := a[4..];
    var c := b[4..];
    assert a[..4] == w[4..8] && b[..4] == w[8..12] && c == w[12..];
    assert Grouped(b) == b[..4] + "_" + c;
    assert Grouped(a) == a[..4] + "_" + Grouped(b);
  }

  /** Deleting the underscores gives the word back. */
  lemma {:induction false} UngroupGrouped(w: string)
    requires '_' !in w
    ensures Without(Grouped(w), '_') == w
    decreases |w|
  {
    if |w| < 8 {
      WithoutAbsent(w, '_');
    } else {
      var head, rest := w[..4], w[4..];
      assert '_' !in head && '_' !in rest;
      UngroupGrouped(rest);
      WithoutAppend(head + "_", Grouped(rest), '_');
      WithoutAppend(head, "_", '_');
      WithoutAbsent(head, '_');
      assert Without("_", '_') == "";
      assert Without(head + "_", '_') == head;
      assert Grouped(w) == (head + "_") + Grouped(rest);
      assert head + rest == w;
    }
  }

  /** Grouping adds no character other than '_'. */
  lemma {:induction false} GroupedChars(w: string, c: char)
    requires c != '_' && c !in w
    ensures c !in Grouped(w)
    decreases |w|
  {
    if |w| >= 8 {
      assert c !in w[..4] && c !in w[4..];
      GroupedChars(w[4..], c);
    }
  }

  /** The word after the first `k` underscores of the insertion loop. */
  function Interleave(w: string, k: nat): (g: string)
    requires 4 * k <= |w|
    ensures |g| == |w| + k
  {
    if k == 0 then w else w[..4] + "_" + Interleave(w[4..], k - 1)
  }

  /** The next underscore goes at 4 * (k + 1) + k, the position the loop computes
      from `pos` and `expansion`. */
  lemma {:induction false} InsertNext(w: string, k: nat)
    requires 4 * (k + 1) <= |w|
    ensures var g := Interleave(w, k);
      Interleave(w, k + 1) == g[..4 * (k + 1) + k] + "_" + g[4 * (k + 1) + k..]
    decreases k
  {
    if k > 0 {
      var v := w[4..];
      InsertNext(v, k - 1);
      var inner := Interleave(v, k - 1);
      var g := Interleave(w, k);
      assert g == w[..4] + "_" + inner;
      var p := 4 * k + (k - 1);
      assert g[..p + 5] == w[..4] + "_" + inner[..p];
      assert g[p + 5..] == inner[p..];
    }
  }

  lemma {:induction false} GroupedIsInterleave(w: string)
    ensures 4 * (if |w| < 8 then 0 else |w| / 4 - 1) <= |w|
    ensures Grouped(w) == Interleave(w, if |w| < 8 then 0 else |w| / 4 - 1)
    decreases |w|
  {
    if |w| >= 8 {
      GroupedIsInterleave(w[4..]);
    }
  }

  /** The inner loop of `add_underscore_padding` on one word. */
  method FormatWord(line: string) returns (formatted: string)
    ensures formatted == Grouped(line)
  {
    formatted := line;
    var initialLen := |line|;
    var expansion := 0;
    var pos := 1;
    while pos < initialLen / 4
      invariant 1 <= pos && 4 * (pos - 1) <= initialLen
      invariant pos <= initialLen / 4 || pos == 1
      invariant expansion == pos - 1
      invariant formatted == Interleave(line, pos - 1)
    {
      InsertNext(line, pos - 1);
      formatted := formatted[..pos * 4 + expansion] + "_" + formatted[pos * 4 + expansion..];
      expansion := expansion + 1;
      pos := pos + 1;
    }
    GroupedIsInterleave(line);
  }

  /** `add_underscore_padding`: every word grouped, in order. */
  method AddUnderscorePadding(binInstr: seq<string>) returns (formatted: seq<string>)
    ensures |formatted| == |binInstr|
    ensures forall i :: 0 <= i < |binInstr| ==> formatted[i] == Grouped(binInstr[i])
  {
    formatted := binInstr;
    var i := 0;
    while i < |formatted|
      invariant 0 <= i <= |formatted| == |binInstr|
      invariant forall j :: 0 <= j < i ==> formatted[j] == Grouped(binInstr[j])
      invariant forall j :: i <= j < |binInstr| ==> formatted[j] == binInstr[j]
    {
      var line := FormatWord(formatted[i]);
      formatted := formatted[i := line];
      i := i + 1;
    }
  }

  // ---------------------------------------------------------------------------
  // parse_file

  function ZeroWords(n: nat): (r: seq<string>)
    ensures |r| == n && forall i :: 0 <= i < n ==> r[i] == ZeroWord
  {
    if n == 0 then [] else [ZeroWord] + ZeroWords(n - 1)
  }

  lemma ZeroWordsSnoc(n: nat)
    ensures ZeroWords(n) + [ZeroWord] == ZeroWords(n + 1)
  {
    assert forall i :: 0 <= i < n + 1 ==> (ZeroWords(n) + [ZeroWord])[i] == ZeroWord;
  }

  function FormatAll(ws: seq<string>): (r: seq<string>)
    ensures |r| == |ws| && forall i :: 0 <= i < |ws| ==> r[i] == Grouped(ws[i])
  {
    if ws == [] then [] else [Grouped(ws[0])] + FormatAll(ws[1..])
  }

  /** `FormatAll` is determined by what it does to each word. */
  lemma FormatAllPointwise(ws: seq<string>, fs: seq<string>)
    requires |fs| == |ws| && forall i :: 0 <= i < |ws| ==> fs[i] == Grouped(ws[i])
    ensures fs == FormatAll(ws)
  {
  }

  /** What `writeln!` puts in the output file: the lines joined with newlines
      and one more newline. */
  function Output(image: seq<string>): (o: string)
    ensures |o| >= 1 && o[|o| - 1] == '\n'
  {
    Join(image, '\n') + "\n"
  }

  /** The result of `parse_file`: the formatted image, the text written to the
      output file when one was named, and the input text it returns. */
  datatype Assembly = Assembly(image: seq<string>, written: Option<string>, returned: string)

  function Assemble(t: Table, content: string, writeOut: bool): (r: Result<Assembly>)
    requires WellFormed(t)
    ensures r.Ok? ==> |r.value.image| == ImageWords && r.value.returned == content
    ensures r.Ok? ==> (r.value.written.Some? <==> writeOut)
  {
    var words :- Process(t, NonEmpty(Lines(content)));
    if |words| > ImageWords then Err(TooManyInstructions)
    else
      var image := FormatAll(words + ZeroWords(ImageWords - |words|));
      Ok(Assembly(image, if writeOut then Some(Output(image)) else None, content))
  }

  /** The padding loop of `parse_file`: zero words are pushed until the image
      holds 1024 words. */
  method PadImage(binVec: seq<string>) returns (padded: seq<string>)
    requires |binVec| <= ImageWords
    ensures padded == binVec + ZeroWords(ImageWords - |binVec|)
  {
    padded := binVec;
    while |padded| < ImageWords
      invariant |binVec| <= |padded| <= ImageWords
      invariant padded == binVec + ZeroWords(|padded| - |binVec|)
      decreases ImageWords - |padded|
    {
      ZeroWordsSnoc(|padded| - |binVec|);
      padded := padded + [ZeroWord];
    }
  }

  /** `parse_file` after the file has been read: `content` is the input text,
      `writeOut` whether an output file was named. */
  method ParseFile(t: Table, content: string, writeOut: bool) returns (r: Result<Assembly>)
    requires WellFormed(t)
    ensures r == Assemble(t, content, writeOut)
  {
    var asmVec := NonEmpty(Lines(content));
    var binVec :- ProcessInstructions(t, asmVec);
    if |binVec| > ImageWords {
      assert Assemble(t, content, writeOut) == Err(TooManyInstructions);
      return Err(TooManyInstructions);
    }
    var padded := PadImage(binVec);
    binVec := AddUnderscorePadding(padded);
    FormatAllPointwise(padded, binVec);
    var written := if writeOut then Some(Output(binVec)) else None;
    assert Assemble(t, content, writeOut) == Ok(Assembly(binVec, written, content));
    r := Ok(Assembly(binVec, written, content));
  }

  /** The padding word as it appears in the image. */
  const ZeroLine: string := "0000_0000_0000_0000"

  lemma ZeroWordGrouped()
    ensures Grouped(ZeroWord) == ZeroLine
  {
    ZeroTwelveGrouped();
    assert ZeroWord[..4] == "0000" && ZeroWord[4..] == "000000000000";
  }

  lemma ZeroTwelveGrouped()
    ensures Grouped("000000000000") == "0000_0000_0000"
  {
    ZeroEightGrouped();
    assert "000000000000"[..4] == "0000" && "000000000000"[4..] == "00000000";
  }

  lemma ZeroEightGrouped()
    ensures Grouped("00000000") == "0000_0000"
  {
    assert "00000000"[..4] == "0000" && "00000000"[4..] == "0000";
  }

  /** Every word the encoder produces is a binary numeral. */
  lemma ProcessWordsAreBits(t: Table, lines: seq<string>)
    requires WellFormed(t)
    requires Process(t, lines).Ok?
    ensures forall i :: 0 <= i < |Process(t, lines).value| ==> IsBits(Process(t, lines).value[i])
  {
    ProcessKeepsOrder(t, lines);
  }

  /** A successful run yields exactly 1024 lines: the words of the program,
      grouped and in order, then grouped zero words; the input text is
      returned unchanged, and a text is written exactly when asked for. */
  lemma AssembleImage(t: Table, content: string, writeOut: bool)
    requires WellFormed(t)
    requires Assemble(t, content, writeOut).Ok?
    ensures var a := Assemble(t, content, writeOut).value;
      var words := Process(t, NonEmpty(Lines(content))).value;
      && |words| <= ImageWords
      && |a.image| == ImageWords
      && (forall i :: 0 <= i < |words| ==> a.image[i] == Grouped(words[i]))
      && (forall i :: |words| <= i < ImageWords ==> a.image[i] == ZeroLine)
      && a.returned == content
      && (a.written.Some? <==> writeOut)
  {
    var words := Process(t, NonEmpty(Lines(content))).value;
    var padded := words + ZeroWords(ImageWords - |words|);
    ZeroWordGrouped();
    assert forall i :: |words| <= i < ImageWords ==> padded[i] == ZeroWord;
  }

  /** A program fails with `TooManyInstructions` exactly when it encodes to
      more than 1024 words; any other failure is the failure of a line. */
  lemma AssembleFailure(t: Table, content: string, writeOut: bool)
    requires WellFormed(t)
    ensures var p := Process(t, NonEmpty(Lines(content)));
      && (p.Err? ==> Assemble(t, content, writeOut) == Err(p.failure))
      && (p.Ok? ==> (Assemble(t, content, writeOut) == Err(TooManyInstructions) <==> |p.value| > ImageWords))
  {
  }

  /** An empty or all-blank input assembles to 1024 zero lines. */
  lemma AssembleBlank(t: Table, content: string, writeOut: bool)
    requires WellFormed(t)
    requires forall i :: 0 <= i < |content| ==> content[i] == '\n'
    ensures Assemble(t, content, writeOut).Ok?
    ensures var a := Assemble(t, content, writeOut).value;
      |a.image| == ImageWords && forall i :: 0 <= i < ImageWords ==> a.image[i] == ZeroLine
  {
    var lines := Lines(content);
    ConcatSplitTerminator(content, '\n');
    WithoutOnly(content, '\n');
    ConcatEmpty(lines);
    NonEmptyOfBlank(lines);
    assert Process(t, []) == Ok([]);
    AssembleImage(t, content, writeOut);
  }

  /** The text written out reads back, line by line, as the image. */
  lemma WrittenReadsBack(t: Table, content: string)
    requires WellFormed(t)
    requires Assemble(t, content, true).Ok?
    ensures var a := Assemble(t, content, true).value;
      a.written.Some? && Lines(a.written.value) == a.image
  {
    var a := Assemble(t, content, true).value;
    ImageHasNoNewline(t, content);
    assert a.written == Some(Output(a.image));
    SplitTerminatorJoin(a.image, '\n');
  }

  /** No line of the image holds a newline. */
  lemma ImageHasNoNewline(t: Table, content: string)
    requires WellFormed(t)
    requires Assemble(t, content, true).Ok?
    ensures var a := Assemble(t, content, true).value;
      |a.image| >= 1 && forall i :: 0 <= i < |a.image| ==> '\n' !in a.image[i]
  {
    var lines := NonEmpty(Lines(content));
    AssembleImage(t, content, true);
    ProcessWordsAreBits(t, lines);
    NoNewlineInImage(Process(t, lines).value, Assemble(t, content, true).value.image);
  }

  lemma NoNewlineInImage(words: seq<string>, image: seq<string>)
    requires |words| <= |image|
    requires forall i :: 0 <= i < |words| ==> IsBits(words[i])
    requires forall i :: 0 <= i < |words| ==> image[i] == Grouped(words[i])
    requires forall i :: |words| <= i < |image| ==> image[i] == ZeroLine
    ensures forall i :: 0 <= i < |image| ==> '\n' !in image[i]
  {
    ZeroWordGrouped();
    forall i | 0 <= i < |image| ensures '\n' !in image[i] {
      if i < |words| {
        assert IsBits(words[i]);
        assert '\n' !in words[i];
        GroupedChars(words[i], '\n');
      } else {
        assert image[i] == ZeroLine;
      }
    }
  }
}
