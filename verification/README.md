# c51902asm assembler — a Dafny model

The assembler for the c51902 processor, whose instruction words are 16 bits
wide, turns a text file of assembly lines into a program image of exactly 1024
binary words. A word is normally written as sixteen `0`/`1` characters in four
underscore-separated nibbles; "What the code accepts" below says when it is
shorter or longer. This
project models the assembler core in `src/assembler.rs`:

- `parse_file` after the file has been read: it drops empty lines, encodes the
  rest, pads to 1024 words (or fails when there are more), groups each word
  with underscores, builds the text it would write, and returns the input
  text unchanged.
- `process_instructions`: it splits each line at spaces and capitalises the
  mnemonic. It looks the mnemonic up in the opcode table and drops the line if
  the mnemonic is unknown. Otherwise it emits the opcode's code bits, followed
  by the operand fields in the layout of that opcode.
- The operand readers `get_reg_id`, `get_port_id` and `get_raw_num`, plus
  `add_underscore_padding` and `capitalize_str`.

Modules, one per file:

| file | module | what it holds |
|---|---|---|
| `results.dfy` | `Results` | `Option`, `Result` and the `Failure` kinds, which stand for the places where the assembler panics |
| `text.dfy` | `Text` | `split_terminator`, `join`, `lines`, the collect of the pieces, blank-line filtering and `capitalize_str` |
| `numerals.dfy` | `Numerals` | `str::parse` for `u8`/`u16`, the `{:0wb}` binary formatting, and the bit-field packing these build up |
| `isa.dfy` | `Isa` | the opcodes, the opcode table the assembler consumes, and the widths of code bits and operand fields |
| `operands.dfy` | `Operands` | the token cursor (`slice::Iter`) and the three operand readers |
| `encoder.dfy` | `Encoder` | the encoding of one line: a specification function, a reference table of fields, and the method that mirrors the source |
| `assembler.dfy` | `Assembler` | `process_instructions`, `add_underscore_padding` and `parse_file` |

Each imperative routine of the source is a method, proved equal to a
specification function:

- `ProcessInstructions` and `EncodeInstruction` (with its `Push…` arms);
- `GetRegId`, `GetPortId` and `GetRawNum` on a `Cursor` object;
- `FormatWord` and `AddUnderscorePadding`;
- `ParseFile`.

The lemmas then state the assembler's promises about those functions. Three
examples:

- A line whose operands fit encodes to a 16-bit word that decodes back to the
  code bits and the operand values (`EncodeDecodes`). It is 16 bits exactly
  when the operands fit (`WordWidthIff`).
- Words come out in line order, one per recognised line (`ProcessKeepsOrder`).
- The written text reads back as the image (`WrittenReadsBack`).

### What the code accepts

- **Prefix stripping.** The code does not check the register or port prefix.
  `get_reg_id` collects the pieces of `split_terminator("R")` and parses the
  result (`RegisterIdMeaning`). That deletes every `R` anywhere in the token
  (`ConcatSplitTerminator`), so `5`, `R5` and `5R` all read as register 5. The
  model's `RegisterId` is written with that deletion directly. The same
  holds for `P` and `get_port_id`. Any other character except the digits and
  `+` makes the token malformed (`RegisterIdRejectsStray`).
- **No truncation.** `{:0wb}` pads to at least the given width and never
  truncates. A value too wide for its field therefore makes the word longer
  than 16 bits; it is not cut to its low bits (`BinWidth`, `WordTooWide`).
  The fields keep their order either way (`OperandBitsPack`): `Lw R1 100`
  gives the code bits, `1100100`, then `0001` (`LoadExample`).
  Words can also be shorter than 16 bits: `Li` with a register of 16 or more
  emits the code bits alone, and so does a branch to an address of 1024 or
  more. Either way, a line of the output is a grouped word of whatever length
  came out, not always four nibbles.
- **Leading `+` and zeros.** The numeric parse accepts one leading `+`
  (`ParseDecimal`) and leading zeros (`ParseLeadingZeros`).

## Model

| member | source | states |
|---|---|---|
| Text.Capitalize | src/assembler.rs:240-246 | the length is kept and every character after the first is unchanged; a lower-case ASCII first letter becomes its upper-case letter, and any other first character is kept |
| Text.CapitalizeIdempotent | src/assembler.rs:240-246 | capitalising an already capitalised mnemonic changes nothing |
| Text.NonEmpty | src/assembler.rs:26-34 | the kept lines are exactly the input lines that are not empty, and none of them is empty |
| Text.NonEmptyAppend | src/assembler.rs:26-34 | filtering a concatenation is the concatenation of the filtered parts, so kept lines stay in their order |
| Text.NonEmptyOne | src/assembler.rs:28-32 | a single line is kept if and only if it is not empty |
| Text.JoinSplit | src/assembler.rs:60-64 | splitting at a separator and joining the pieces back gives the line; no piece holds the separator |
| Text.SplitJoin | src/assembler.rs:60-64 | separator-free pieces, joined and split again, come back as the same pieces |
| Text.SplitTerminatorJoin | src/assembler.rs:53 | lines joined with a separator and ended by one more separator split back into those lines |
| Text.SplitTerminatorUnterminated | src/assembler.rs:60-64 | separator-free pieces whose last one is not empty, joined with the separator, split back into those pieces, the last included |
| Text.SplitTerminatorEmpty | src/assembler.rs:26 | the empty text has no pieces |
| Text.Lines | src/assembler.rs:26 | a text has no lines if and only if it is empty |
| Text.ConcatSplitTerminator | src/assembler.rs:214-215 | collecting the pieces of `split_terminator(c)` is the token with every `c` deleted |
| Text.SplitTerminatorNonEmpty | src/assembler.rs:72-74 | a non-empty line always has a first token, so the mnemonic `next().unwrap()` never fails on a kept line |
| Numerals.ParseUnsigned | src/assembler.rs:215 | a parsed value never exceeds the type's maximum |
| Numerals.ParseDecimal | src/assembler.rs:226 | a decimal numeral, with or without a leading `+`, parses to its value exactly when the value fits the type, and fails otherwise |
| Numerals.ParseRejectsSignless | src/assembler.rs:226 | the empty token, a lone `+` and any token starting with `-` fail to parse |
| Numerals.ParseRejectsNonDigit | src/assembler.rs:226 | a token with a non-digit anywhere except a single leading `+` fails to parse |
| Numerals.DecimalValueLeadingZeros | src/assembler.rs:226 | leading zeros keep a numeral all digits and do not change its value |
| Numerals.ParseLeadingZeros | src/assembler.rs:226 | a numeral with any number of leading zeros, with or without a leading `+`, parses to its value exactly when the value fits the type, and fails otherwise |
| Numerals.Bin | src/assembler.rs:95-96 | `{:0wb}` yields only `0`/`1` and is at least `w` characters long |
| Numerals.BinValue | src/assembler.rs:95-96 | the binary numeral reads back as the value it formats |
| Numerals.BinWidth | src/assembler.rs:95-96 | the numeral is exactly `w` characters long if and only if `w >= 1` and the value is below 2^w |
| Numerals.UnpackPack | src/assembler.rs:142-143 | fields that fit their widths pack into exactly the sum of the widths, and reading the fields back gives the values |
| Isa.WordIsSixteenBits | src/assembler.rs:85-202 | for every opcode, the code bits and the operand fields of its format add up to 16 bits |
| Isa.Lookup | src/assembler.rs:73-78 | a mnemonic is found if and only if the table names it, and the table's opcode is returned |
| Isa.DigitString | src/assembler.rs:79-81 | each code digit becomes its decimal character, and the length is kept |
| Isa.CodeBits | src/assembler.rs:79-83 | an opcode's code is a bit string of its code width (4 or 6) |
| Operands.RegisterId | src/assembler.rs:212-216 | a register read succeeds only on an existing token and gives at most 255 |
| Operands.RegisterIdMeaning | src/assembler.rs:212-216 | no token left fails with `MissingOperand`; otherwise the pieces of `split_terminator("R")`, collected into one string, are parsed as a `u8` |
| Operands.RegisterIdOfNumeral | src/assembler.rs:212-216 | `Rn` reads as `n` when `n <= 255`, and is malformed otherwise |
| Operands.RegisterIdRejectsStray | src/assembler.rs:212-216 | a register token holding any character other than `R`, `+` and the digits, anywhere, is malformed |
| Operands.PortId | src/assembler.rs:218-222 | a port read succeeds only on an existing token and gives at most 255 |
| Operands.PortIdMeaning | src/assembler.rs:218-222 | no token left fails with `MissingOperand`; otherwise the pieces of `split_terminator("P")`, collected into one string, are parsed as a `u8` |
| Operands.PortIdOfNumeral | src/assembler.rs:218-222 | `Pn` reads as `n` when `n <= 255`, and is malformed otherwise |
| Operands.PortIdRejectsStray | src/assembler.rs:218-222 | a port token holding any character other than `P`, `+` and the digits, anywhere, is malformed |
| Operands.RawNumber | src/assembler.rs:224-227 | a number read succeeds only on an existing token and gives at most 65535 |
| Operands.RawNumberOfNumeral | src/assembler.rs:224-227 | a decimal numeral reads as its value when it is at most 65535, and is malformed otherwise |
| Operands.RawNumberRejectsNonDigit | src/assembler.rs:224-227 | a number token with a non-digit anywhere except a single leading `+` is malformed |
| Operands.Cursor.constructor | src/assembler.rs:72 | a cursor over a line's tokens starts at the first token |
| Operands.Cursor.Next | src/assembler.rs:72-74 | yields the token under the cursor and advances by one, or yields nothing and stays put at the end |
| Operands.GetRegId | src/assembler.rs:212-216 | equals the register read at the cursor's position, and consumes exactly one token when one is left |
| Operands.GetPortId | src/assembler.rs:218-222 | equals the port read at the cursor's position, and consumes exactly one token when one is left |
| Operands.GetRawNum | src/assembler.rs:224-227 | equals the number read at the cursor's position, and consumes exactly one token when one is left |
| Encoder.OperandBits | src/assembler.rs:85-202 | the operand part of a word, when it is produced, is a bit string |
| Encoder.LiOperands | src/assembler.rs:91-98 | the `Li` operands are read if and only if the register reads and, when it is below 16, the immediate reads too; otherwise the failure is the register's, or else the immediate's; the result is a bit string |
| Encoder.BranchOperands | src/assembler.rs:100-122 | a branch's operands are read if and only if the address reads, and otherwise the failure is the address's; the result is a bit string |
| Encoder.MoveOperands | src/assembler.rs:124-136 | the `Mov`/`Not` operands are read if and only if both registers read; otherwise the failure is that of the first register that does not read; the result is a bit string |
| Encoder.AluOperands | src/assembler.rs:137-168 | the ALU operands are read if and only if all three registers read; otherwise the failure is that of the first register, in token order, that does not read; the result is a bit string |
| Encoder.LoadOperands | src/assembler.rs:179-184 | the `Lw` operands are read if and only if the register and the address read; otherwise the failure is the register's, or else the address's; the result is a bit string |
| Encoder.StoreOperands | src/assembler.rs:185-190 | the `Sw` operands are read if and only if the register and the address read; otherwise the failure is the register's, or else the address's; the result is a bit string |
| Encoder.PortOperands | src/assembler.rs:191-202 | the `In`/`Out` operands are read if and only if the port and the address read; otherwise the failure is the port's, or else the address's; the result is a bit string |
| Encoder.EncodeLine | src/assembler.rs:70-206 | a line is dropped if and only if its capitalised mnemonic is not in the table; a line without tokens fails with a missing operand; a known mnemonic whose operands do not read fails with the failure of the first read that fails; an emitted word is a bit string that starts with the opcode's code bits |
| Encoder.EncodeKnown | src/assembler.rs:78-85 | a line with a known mnemonic whose operands were read yields the code bits followed by the operand bits |
| Encoder.BranchFits | src/assembler.rs:100-122 | a branch's operands fit exactly when the address is below 1024 |
| Encoder.RegisterNumberFits | src/assembler.rs:179-190 | `Li`, `Lw` and `Sw` fit exactly when the register is below 16 and the number below 256 (`Li`) or 64 |
| Encoder.PortFits | src/assembler.rs:191-202 | `In` and `Out` fit exactly when the port is below 16 and the address below 64 |
| Encoder.MoveFits | src/assembler.rs:124-136 | `Mov` and `Not` fit exactly when both registers are below 16 |
| Encoder.AluFits | src/assembler.rs:137-168 | the ALU group fits exactly when all three registers are below 16 |
| Encoder.OperandBitsPack | src/assembler.rs:85-202 | whenever every operand is read and the encoder's own range checks pass (a `Li` register below 16, a branch address below 1024), the operand bits are the operand values, in the opcode's field order, each formatted at its field width, whether or not the value fits that width |
| Encoder.FitsInRange | src/assembler.rs:91-122 | operands that fit their fields always pass the `Li` register and branch address range checks |
| Encoder.EncodeDecodes | src/assembler.rs:79-205 | a line whose operands fit yields a 16-bit word: the code bits, then fields that decode back to the operand values |
| Encoder.WordWidthIff | src/assembler.rs:85-202 | an emitted word is exactly 16 bits long if and only if every operand was read and fits its field |
| Encoder.OperandsAtLeastWidth | src/assembler.rs:85-202 | operands that pass the range checks give a word of at least 16 bits |
| Encoder.WordTooWide | src/assembler.rs:85-202 | a word with a value too wide for its field, and no range check failing, is longer than 16 bits |
| Encoder.OperandWidthIff | src/assembler.rs:85-202 | the code bits and the operand bits add up to 16 exactly when every operand was read and fits |
| Encoder.LiWidth | src/assembler.rs:91-98 | the `Li` operand bits are 12 characters exactly when the format fits |
| Encoder.BranchWidth | src/assembler.rs:100-122 | a branch's operand bits are 10 characters exactly when the format fits |
| Encoder.LoadWidth | src/assembler.rs:179-184 | the `Lw` operand bits are 10 characters exactly when the format fits |
| Encoder.StoreWidth | src/assembler.rs:185-190 | the `Sw` operand bits are 10 characters exactly when the format fits |
| Encoder.PortWidth | src/assembler.rs:191-202 | the `In`/`Out` operand bits are 10 characters exactly when the format fits |
| Encoder.MoveWidth | src/assembler.rs:124-136 | the `Mov`/`Not` operand bits are 12 characters exactly when the format fits |
| Encoder.AluWidth | src/assembler.rs:137-168 | the ALU operand bits are 12 characters exactly when the format fits |
| Encoder.LiRegisterOutOfRange | src/assembler.rs:91-98 | `Li` with a register of 16 or more emits the code bits alone, and the immediate token is never read |
| Encoder.LiInRange | src/assembler.rs:91-98 | `Li Rd imm` with `Rd < 16` is the code bits, then `imm` in 8 bits, then `Rd` in 4 |
| Encoder.BranchOutOfRange | src/assembler.rs:100-122 | `Jmp`, `Jz`, `Jnz` or `Call` to an address of 1024 or more emits the code bits alone |
| Encoder.NoOperandOpcodes | src/assembler.rs:87-89 | `Nop` and `Ret` emit the code bits and ten zeros, whatever other tokens the line holds |
| Encoder.TrailingTokensIgnored | src/assembler.rs:70-206 | tokens after the ones the opcode reads do not change the result |
| Encoder.TokensOfWords | src/assembler.rs:60-64 | words without spaces, joined by single spaces, tokenise back into the same words |
| Encoder.Tokens | src/assembler.rs:60-64 | a line has no tokens if and only if it is empty |
| Encoder.AluFieldOrder | src/assembler.rs:137-168 | `Add`/`Sub`/`And`/`Or Rd R1 R2` emits `R1`, `R2`, then `Rd`, four bits each, after the code bits |
| Encoder.LoadFieldOrder | src/assembler.rs:179-184 | `Lw Rd addr` emits the address in six or more bits, then `Rd` in four or more, after the code bits, for any values |
| Encoder.LiExample | src/assembler.rs:91-98 | `Li R3 200` encodes to the `Li` code bits, then `11001000`, then `0011` |
| Encoder.AddExample | src/assembler.rs:137-144 | `Add R1 R2 R3` encodes to the `Add` code bits, then `0010`, `0011`, `0001` |
| Encoder.LoadExample | src/assembler.rs:179-184 | `Lw R1 100` encodes to the `Lw` code bits, then `1100100` (100 does not fit six bits and is kept whole), then `0001`: 17 bits |
| Encoder.LiMissingImmediate | src/assembler.rs:91-98 | `Li R3` fails with a missing operand because the immediate's token is absent, and emits no word |
| Encoder.AddMalformedOperand | src/assembler.rs:138-143 | `Add R1 R2 X` fails with the malformed token `X`, the third register, and emits no word |
| Encoder.EncodeInstruction | src/assembler.rs:70-206 | encoding one line with the cursor gives exactly the line's specified word, drop or failure |
| Encoder.PushLi | src/assembler.rs:91-98 | the `Li` arm yields the specified operand bits; on success the cursor has consumed the register and, only when it is below 16, the immediate |
| Encoder.PushBranch | src/assembler.rs:100-122 | the `Jmp`/`Jz`/`Jnz`/`Call` arms yield the specified operand bits; on success the cursor has consumed exactly the address token |
| Encoder.PushMove | src/assembler.rs:124-136 | the `Mov`/`Not` arms yield the specified operand bits; on success the cursor has consumed exactly the two register tokens |
| Encoder.PushAlu | src/assembler.rs:137-168 | the `Add`/`Sub`/`And`/`Or` arms yield the specified operand bits; on success the cursor has consumed exactly the three register tokens |
| Encoder.PushMemory | src/assembler.rs:179-202 | the `Lw`/`Sw`/`In`/`Out` arms yield the specified operand bits; on success the cursor has consumed exactly the two operand tokens |
| Assembler.Recognized | src/assembler.rs:78 | the recognised lines all name a known opcode and are no more than the input lines |
| Assembler.RecognizedAppend | src/assembler.rs:70-78 | recognising a concatenation is the concatenation of the recognised parts, so recognised lines stay in their order |
| Assembler.RecognizedOne | src/assembler.rs:73-78 | a single line is recognised if and only if its capitalised mnemonic is in the table |
| Assembler.ProcessKeepsOrder | src/assembler.rs:59-210 | on success there is one word per recognised line, in line order, and each word is that line's encoding |
| Assembler.ProcessSucceedsIff | src/assembler.rs:70-207 | processing succeeds if and only if every line encodes without failing |
| Assembler.ProcessFailsAtFirstError | src/assembler.rs:70-207 | a failure is the failure of the first line that fails, and every earlier line encodes |
| Assembler.DropUnknownLine | src/assembler.rs:78 | deleting a line whose mnemonic is unknown leaves the result unchanged |
| Assembler.ProcessErrPersists | src/assembler.rs:70-207 | once a prefix of the lines fails, the whole run fails the same way |
| Assembler.ProcessStep | src/assembler.rs:70-207 | one more line appends its word, is dropped, or makes the run fail with that line's failure |
| Assembler.ProcessInstructions | src/assembler.rs:59-210 | the loop over the lines yields exactly the specified word list or failure |
| Assembler.Process | src/assembler.rs:59-210 | a successful run yields no more words than there are lines |
| Assembler.Grouped | src/assembler.rs:229-238 | a grouped word is one character longer per complete group of four, minus one, for words of 8 or more characters; shorter words are returned unchanged |
| Assembler.GroupedWord | src/assembler.rs:229-238 | a 16-bit word becomes 19 characters: four nibbles with underscores at positions 4, 9 and 14 |
| Assembler.UngroupGrouped | src/assembler.rs:229-238 | deleting the underscores from a grouped word gives the word back |
| Assembler.GroupedChars | src/assembler.rs:229-238 | grouping adds no character other than `_` |
| Assembler.Interleave | src/assembler.rs:233-236 | after `k` insertions the word is `k` characters longer |
| Assembler.InsertNext | src/assembler.rs:234 | the next underscore goes at `pos * 4 + expansion` |
| Assembler.GroupedIsInterleave | src/assembler.rs:229-238 | the loop's insertions, run to the end, give the grouped word |
| Assembler.FormatWord | src/assembler.rs:230-237 | the inner insertion loop turns a word into its grouped form |
| Assembler.AddUnderscorePadding | src/assembler.rs:229-238 | every word of the vector is replaced by its grouped form, and the count is kept |
| Assembler.FormatAll | src/assembler.rs:229-238 | the formatted image has as many lines as words, and line `i` is word `i` grouped |
| Assembler.ZeroWordGrouped | src/assembler.rs:41 | a padding word appears in the image as `0000_0000_0000_0000` |
| Assembler.ProcessWordsAreBits | src/assembler.rs:59-210 | every emitted word consists of `0` and `1` only |
| Assembler.PadImage | src/assembler.rs:38-43 | the image is the words followed by as many all-zero words as bring it to 1024 |
| Assembler.ParseFile | src/assembler.rs:23-57 | filtering, encoding, padding, grouping and building the output give exactly the specified assembly or failure |
| Assembler.Assemble | src/assembler.rs:23-57 | a successful run gives 1024 lines and returns the input text; text is written exactly when an output was named |
| Assembler.Output | src/assembler.rs:53 | the written text is never empty and ends with a newline |
| Assembler.AssembleImage | src/assembler.rs:36-56 | a successful run gives 1024 lines: the program's words, grouped and in order, then `0000_0000_0000_0000`; the input text is returned; text is written exactly when an output was named |
| Assembler.AssembleFailure | src/assembler.rs:36-48 | a line's failure is the run's failure; otherwise the run fails with `TooManyInstructions` if and only if there are more than 1024 words |
| Assembler.AssembleBlank | src/assembler.rs:26-48 | an input of nothing but newlines assembles to 1024 lines of `0000_0000_0000_0000` |
| Assembler.WrittenReadsBack | src/assembler.rs:51-54 | the written text, read back line by line, is the image |

## Left out

- Reading and writing files (`fs::read_to_string`, `File::create`,
  `writeln!`) and their I/O errors are not modelled. The input text is a
  parameter, and the text that would be written is part of the result.
- The `labels` map and `Assembler::new` are not modelled: nothing in the core
  reads or writes the map.
- The command line in `src/main.rs` is not part of this model.
- The opcode table of the external `libc51902` crate (`Opcode::from_str`,
  `to_binary`) is not part of this model. It is a parameter: a map from
  mnemonic to opcode plus a code per opcode. The model assumes each code is
  made of binary digits of width 4 (`Li`, `Mov`, `Not`, `Add`, `Sub`, `And`,
  `Or`) or 6 (the others).
- Panics are modelled as failure values. `unwrap` on a missing token gives
  `MissingOperand`, a failed parse gives `MalformedOperand`, and more than
  1024 words give `TooManyInstructions`. Panic messages and unwinding are not
  modelled.
- Text.Capitalize: upper-cases ASCII letters only. Rust's `to_uppercase` also
  maps other Unicode letters, some of them to several characters.
- Text.Lines: treats only `\n` as a line end. Rust's `lines` also removes a
  `\r` before it.
- Text and operand positions are characters, not UTF-8 bytes. `String::insert`
  takes a byte index, which makes no difference for words made of `0` and `1`.
- Assembler.AddUnderscorePadding: returns the updated vector instead of
  changing the caller's vector in place. The vector is not shared, so no
  aliasing is lost.
