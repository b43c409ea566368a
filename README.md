# A verified model of the SEXP transcoder core

The SEXP tool reads S-expressions in any of their three transport forms and
writes them back in one of three forms:

- canonical: verbatim `length:bytes` strings, with no white space;
- base64: the canonical form, base64-encoded between braces;
- advanced: tokens, quoted strings, `#hex#` and `|base64|` strings, with
  indentation and line breaks.

This project models the three C files that do the work:

- `sexp-basic.c`: growable byte strings, string objects with an optional
  presentation hint, lists, and their iterators;
- `sexp-input.c`: the character channel `getChar`, which decodes 4-bit
  (hex) and 6-bit (base64) regions, and the recursive-descent scanners;
- `sexp-output.c`: the character channel `varPutChar`, which encodes into
  4-bit and 6-bit regions, and the canonical, base64 and advanced printers.

It also models the types of `sexp.h` that these files work on.

## How the model is built

Each stream is a Dafny class whose fields are those of the C struct:
`SexpInput.InputStream` and `SexpOutput.OutputStream`. The routines that
update a stream are methods with `modifies` clauses. Each method is proved
equal to a pure function over a state datatype (`InState` or `OutState`).
For example, `OutputStream.VarPutChar` ends in the state
`VarPutCharF(old(State()))`. The properties are proved about those
functions.

The system's promises are stated as lemmas over the functions:

- **Channels.** Base16 (section 8 of RFC 4648) and padded base64
  (section 4 of RFC 4648) are written and read back. Line breaks and
  indentation inserted in a region are white space, and the reader skips
  white space there (see section 3.3 of RFC 4648).
- **Readers.** `getChar` delivers a stream of characters. `Ahead(st)`, a
  ghost function, lists every character it will deliver. Each scanner is
  specified by what it reads from `Ahead`: `ReadsTo(r, v, rest)` says that
  the scan succeeds with value `v` and leaves `rest` to be read.
- **Round trips.**
  - canonical printing then scanning: `SexpRoundTrip.CanonicalRoundTrip`;
  - base64 printing of a whole object between braces, then scanning:
    `SexpRoundTrip.TransportRoundTrip`;
  - each encoding the advanced printer chooses for a simple string, read
    back by `scanSimpleString`: `SexpAdvancedRead.AdvancedSimpleRoundTrip`.

A few inputs are handled differently from the code: a quoted string that
never closes (with or without a declared length), a quoted string longer
than its declared length, and canonical printing after base64 printing. Each is modelled twice, as written and as
evidently intended (see "## Findings").

The C code's fatal `err` calls and its `warn` calls are modelled as follows:

- every `err` is an `Err` / `Fail` outcome naming the error;
- every warning is appended to a `warnings` log on the input state.

## Model

| member | source | states |
|---|---|---|
| SexpTypes.LowByte | sexp-output.c:29 | `c & 0xFF` is `c` itself for every value that already is a byte |
| SexpChars.DecValue | sexp-input.c:30-34 | the decvalue table gives each decimal digit a value below 10 |
| SexpChars.HexValue | sexp-input.c:30-38 | the hexvalue table gives each hex digit a value below 16 |
| SexpChars.Base64Value | sexp-input.c:30-48 | the base64value table gives each base64 digit a value below 64 |
| SexpChars.HexDigit | sexp-output.c:3-4 | the hex digit the printer writes for v reads back as v, and is a visible token character |
| SexpChars.Base64Digit | sexp-output.c:4-5 | the base64 digit the printer writes for v reads back as v, and is a visible token character |
| SexpChars.HexDigitsTable | sexp-output.c:3-4 | the hexDigits table holds, at every index, the digit HexDigit gives |
| SexpChars.Base64DigitsTable | sexp-output.c:4-5 | the base64Digits table holds, at every index, the digit Base64Digit gives |
| SexpChars.Base64ValueEncodes | sexp-input.c:30-72 | conversely, every character isBase64Digit accepts is the printer's digit for its table value |
| SexpChars.HexValueIgnoresCase | sexp-input.c:35-38 | a-f and A-F read as the same values 10-15 |
| SexpBasic.GrownAllocation | sexp-basic.c:60 | the capacity chosen when growing is always larger than the length |
| SexpBasic.SimpleString.constructor | sexp-basic.c:17-26 | a new simple string is empty, with a fresh 16-byte buffer |
| SexpBasic.SimpleString.Reallocate | sexp-basic.c:50-72 | the contents and length are kept in a fresh buffer of the grown capacity, and the old buffer is zeroed |
| SexpBasic.SimpleString.Append | sexp-basic.c:78-87 | the contents become the old contents plus the low byte of c; the buffer is kept unless it was full, in which case it grows |
| SexpBasic.SexpString.constructor | sexp-basic.c:97-106 | a new string object is tagged as a string, with neither hint nor value |
| SexpBasic.SexpString.SetPresentationHint | sexp-basic.c:120-124 | the hint is replaced and the value is untouched |
| SexpBasic.SexpString.SetString | sexp-basic.c:129-133 | the value is replaced and the hint is untouched |
| SexpBasic.SexpList.constructor | sexp-basic.c:159-168 | a new list object is tagged as a list and has no elements |
| SexpBasic.SexpList.Add | sexp-basic.c:173-185 | the object becomes the last element and the earlier elements are kept in order |
| SexpBasic.IterVisitsInOrder | sexp-basic.c:201-227 | iterating from sexpListIter, step k sees element k, the steps go on to the next cell, and the iterator is NULL after the last step |
| SexpBasic.WalkListIter | sexp-basic.c:201-227 | a C loop over the iterator hands its body exactly the list's elements, in insertion order |
| SexpBasic.TagTests | sexp-basic.c:229-239 | isObjectString holds exactly for strings and isObjectList exactly for lists; every object passes exactly one of the two |
| SexpInput.NewInState | sexp-input.c:156-169 | a new input stream is well formed: 8-bit width with no pending bits |
| SexpInput.RegionDigit | sexp-input.c:131-141 | only 4-bit and 6-bit regions have digits, and each digit's value fits in the region's width |
| SexpInput.GetCharF | sexp-input.c:105-149 | getChar reads the same input forward; unless it is already at EOF, it strictly consumes input |
| SexpInput.GetCharStep | sexp-input.c:113-148 | one pass of the read loop consumes exactly one input byte, whether it returns or reads on |
| SexpInput.TakeDigitF | sexp-input.c:131-146 | shifting a digit in never consumes input and keeps the stream well formed |
| SexpInput.GetCharLoop | sexp-input.c:113-149 | the read loop only moves forward over the same input |
| SexpInput.ByteFromTop | sexp-input.c:142-145 | the top 8 of n pending bits are a byte, equal to the bits divided by 2^(n-8); the bits left fit in n - 8 bits |
| SexpInput.EofIsSticky | sexp-input.c:109-112 | at EOF, getChar stays at EOF and only resets the width to 8 |
| SexpInput.EightBitGetChar | sexp-input.c:113-130 | at width 8, getChar delivers the next raw byte and counts it, or EOF at the end of the input |
| SexpInput.EightBitAhead | sexp-input.c:105-149 | at width 8 the characters ahead are the current one followed by the unread input |
| SexpInput.TerminatorEndsRegion | sexp-input.c:116-123 | a region terminator is delivered uncounted, resets the width to 8 with nothing pending, and warns exactly when the leftover bits are not zero |
| SexpInput.SkippedInRegion | sexp-input.c:125-127 | in a region, white space (and '=' in base64) is skipped without touching the pending bits |
| SexpInput.BadCharIsFatal | sexp-input.c:137-139 | any other non-digit in a region is fatal, and the error names the character and the width |
| SexpInput.AheadIgnoresWarnings | sexp-input.c:105-149 | warnings never change what getChar reads |
| SexpInput.InputStream.constructor | sexp-input.c:156-169 | the new stream is in the state NewInState of its input |
| SexpInput.InputStream.ChangeInputByteSize | sexp-input.c:89-95 | the width is set and the pending bits are cleared |
| SexpInput.InputStream.Warn | sexp-input.c:119-120 | a warning is appended to the log, and nothing else changes |
| SexpInput.InputStream.GetChar | sexp-input.c:105-149 | the method fails exactly when GetCharF does, with the same error; otherwise it ends in GetCharF's state |
| SexpInput.InputStream.ReadPass | sexp-input.c:113-148 | one pass of the loop does what GetCharStep says: goes on, returns, or fails |
| SexpInput.InputStream.TakeDigit | sexp-input.c:131-146 | the digit branch does what TakeDigitF says |
| SexpOutput.NewOutState | sexp-output.c:114-130 | a new output stream is well formed and has written nothing |
| SexpOutput.PutCharF | sexp-output.c:15-20 | putChar appends the low byte, advances the column by one, and changes nothing else |
| SexpOutput.VarPutCharF | sexp-output.c:25-46 | varPutChar leaves the channel invariant true and keeps the width, mode, maximum column and indentation |
| SexpOutput.EmitStep | sexp-output.c:32-44 | one pass of the digit loop consumes exactly one digit's worth of pending bits and counts it |
| SexpOutput.EmitLoop | sexp-output.c:32-45 | the digit loop ends with fewer pending bits than one digit needs |
| SexpOutput.ChangeOutputByteSizeF | sexp-output.c:52-65 | the change succeeds exactly for widths 4, 6 and 8, and the restricted widths only from width 8; success keeps the output and the column |
| SexpOutput.ChangeOutputByteSizeFields | sexp-output.c:52-65 | which error a refused width gives; an accepted width is recorded with the mode, the pending bits and the digit count are cleared, and the line is kept |
| SexpOutput.PaddedDigit | sexp-output.c:76-81 | the partial digit is the 2 or 4 pending bits shifted up to 6 bits with zero bits below |
| SexpOutput.FlushDigit | sexp-output.c:76-82 | the partial digit is counted and leaves nothing pending |
| SexpOutput.FlushF | sexp-output.c:70-90 | flushOutput leaves the channel invariant true and keeps the width, mode, maximum column and indentation |
| SexpOutput.PadLoop | sexp-output.c:82-88 | the padding loop ends on a multiple of four digits |
| SexpOutput.PadStep | sexp-output.c:83-87 | one pass writes '=' after any line break that is due, and counts it |
| SexpOutput.PutBytesF | sexp-output.c:169-170 | varPutChar over a run of bytes keeps the channel invariant, width, mode, maximum column and indentation |
| SexpOutput.OutputStream.constructor | sexp-output.c:114-130 | the new stream is in the state NewOutState |
| SexpOutput.OutputStream.PutChar | sexp-output.c:15-20 | the new state is PutCharF of the old one |
| SexpOutput.OutputStream.NewLine | sexp-output.c:98-109 | the new state is NewLineF of the old one |
| SexpOutput.OutputStream.VarPutChar | sexp-output.c:25-46 | the new state is VarPutCharF of the old one, and it is well formed |
| SexpOutput.OutputStream.TakeByte | sexp-output.c:29-31 | the low byte joins the pending bits below them |
| SexpOutput.OutputStream.EmitDigit | sexp-output.c:33-44 | one pass of the digit loop ends in EmitStep's state |
| SexpOutput.OutputStream.EmitDigits | sexp-output.c:32-45 | the digit loop ends in EmitLoop's state |
| SexpOutput.OutputStream.ChangeOutputByteSize | sexp-output.c:52-65 | fails exactly when ChangeOutputByteSizeF does, leaving the stream unchanged; otherwise it ends in its state |
| SexpOutput.OutputStream.FlushOutput | sexp-output.c:70-90 | the new state is FlushF of the old one |
| SexpOutput.OutputStream.Pad | sexp-output.c:82-88 | the padding loop ends in PadLoop's state |
| SexpOutput.OutputStream.PutBytes | sexp-output.c:169-170 | the printers' byte loops end in PutBytesF's state |
| SexpChannel.IndentTest | sexp-output.c:104-107 | the indentation loop's test is exactly "fewer blanks than IndentWidth so far" |
| SexpChannel.NewLineShape | sexp-output.c:98-109 | newLine writes nothing in canonical mode; a line feed that resets the column in base64 mode; in advanced mode also IndentWidth blanks |
| SexpChannel.NewLineInvisible | sexp-output.c:98-109 | a line break shows nothing but white space |
| SexpChannel.EmitStepShape | sexp-output.c:33-44 | one digit-loop pass shows one digit, and writes nothing else on a stream that never breaks lines |
| SexpChannel.HexPutChar | sexp-output.c:25-46 | in a hex region every byte shows as two digits, high nibble first, with nothing left pending |
| SexpChannel.EightBitPutChar | sexp-output.c:25-46 | at width 8 a byte is written as itself, after a line break that is due only for braces, '#' and '|' |
| SexpChannel.Base64FirstByte | sexp-output.c:25-46 | the first byte of a base64 group shows its top six bits as a digit and leaves two bits pending |
| SexpChannel.Base64SecondByte | sexp-output.c:25-46 | the second byte completes the second digit and leaves four bits pending |
| SexpChannel.Base64ThirdByte | sexp-output.c:25-46 | the third byte gives the third and fourth digits and leaves nothing pending |
| SexpChannel.PadLoopShape | sexp-output.c:82-88 | the padding loop shows exactly the '=' signs that complete the group |
| SexpChannel.PadLoopQuiet | sexp-output.c:82-88 | on a stream that never breaks lines, that padding is all the loop writes |
| SexpChannel.FlushShape | sexp-output.c:70-90 | flushOutput leaves nothing pending and completes a base64 group of four; at widths 4 and 8 it changes nothing |
| SexpChannel.FlushVisible | sexp-output.c:70-90 | at width 6, flushOutput shows the partial digit and then the '=' padding |
| SexpChannel.FlushQuiet | sexp-output.c:70-90 | on a stream that never breaks lines, that tail is all it writes |
| SexpEncode.HexEncode | sexp-output.c:365-380 | base16 (section 8 of RFC 4648) has two digits per byte |
| SexpEncode.Base64Encode | sexp-output.c:343-358 | padded base64 (section 4 of RFC 4648) has four digits per group of up to three bytes |
| SexpEncode.HexPutBytes | sexp-output.c:374-377 | every run of bytes written in a hex region shows as its base16 encoding, with nothing left pending |
| SexpEncode.HexPutBytesQuiet | sexp-output.c:374-377 | on a stream that never breaks lines, the encoding is all that is written |
| SexpEncode.EightBitPutBytesQuiet | sexp-output.c:169-170 | at width 8, on a stream that never breaks lines, the bytes themselves are written |
| SexpEncode.Base64PutQuantum | sexp-output.c:25-46 | a group of three bytes written from a group boundary shows as its four digits and ends on a boundary |
| SexpEncode.Base64PutBytes | sexp-output.c:352-355 | a run of bytes written into a fresh base64 region and flushed shows as its padded base64 encoding |
| SexpEncode.Base64PutBytesQuiet | sexp-output.c:352-355 | on a stream that never breaks lines, that encoding is exactly what is written |
| SexpCanonical.DecDigit | sexp-output.c:144 | the digit printed for v reads back as v |
| SexpCanonical.DecimalDigits | sexp-output.c:139-146 | `%ld` writes at least one decimal digit, with no leading zero for a nonzero n |
| SexpCanonical.PrintDecimal | sexp-output.c:139-146 | the stream ends in the state where varPutChar has run over the decimal digits of n |
| SexpCanonical.CanonicalPrintVerbatimSimpleString | sexp-output.c:155-171 | writes the length in decimal, ':' and the bytes |
| SexpCanonical.CanonicalPrintString | sexp-output.c:176-190 | writes the hint in brackets, if there is one, then the value, each verbatim (Canon) |
| SexpCanonical.CanonicalPrintList | sexp-output.c:195-209 | writes '(', each element's canonical encoding in order, then ')' |
| SexpCanonical.CanonicalPrintObject | sexp-output.c:215-224 | writes the object's canonical encoding through the channel |
| SexpCanonical.CanonicalQuiet | sexp-output.c:215-224 | on an 8-bit stream that never breaks lines, the output gains exactly the canonical encoding |
| SexpCanonical.CanonicalPrintAfterBase64 | sexp-output.c:33-36 | as written: on a base64-mode stream at 80 columns, printing the string `{` canonically writes `1:\n{`, not its canonical encoding |
| SexpCanonical.CanonicalPrintWholeObject | sexp-output.c:215-224 | corrected: with width 8 and canonical mode set first, exactly the canonical encoding is appended |
| SexpCanonical.Base64WholeF | sexp-output.c:231-241 | base64PrintWholeObject leaves width 8 in base64 mode, with the channel invariant true |
| SexpCanonical.Base64PrintWholeObject | sexp-output.c:231-241 | the stream ends in Base64WholeF's state |
| SexpCanonical.Base64WholeVisible | sexp-output.c:231-241 | what shows is '{', the base64 encoding of the canonical encoding, and '}'; only white space is added |
| SexpCanonical.Base64WholeQuiet | sexp-output.c:231-241 | with no maximum column, exactly that text is written |
| SexpAdvanced.CanPrintAsToken | sexp-output.c:253-271 | the result is true exactly when the string is a non-empty run of token characters, does not start with a digit, and fits before a positive maximum column |
| SexpAdvanced.CanPrintAsQuotedString | sexp-output.c:398-410 | the result is true exactly when the string holds only token characters and blanks |
| SexpAdvanced.SimpleWidth | sexp-output.c:499-513 | the width is never negative |
| SexpAdvanced.StringWidth | sexp-output.c:518-529 | the width is never negative |
| SexpAdvanced.ListWidth | sexp-output.c:534-554 | a list is at least two characters wide |
| SexpAdvanced.WidthSum | sexp-output.c:541-552 | every element adds at least one character |
| SexpAdvanced.AdvancedLengthSimpleString | sexp-output.c:499-513 | returns the width of the encoding the printer would choose (SimpleWidth) |
| SexpAdvanced.AdvancedLengthString | sexp-output.c:518-529 | returns the hint's width plus two brackets, plus the value's width |
| SexpAdvanced.AdvancedLengthList | sexp-output.c:534-554 | returns the two parentheses plus each element's width and one blank |
| SexpAdvanced.SimpleWidthAnywhere | sexp-output.c:253-271 | with no maximum column, the column does not change any width |
| SexpAdvanced.PrintTokenF | sexp-output.c:277-289 | the token printer changes only the output and the column |
| SexpAdvanced.AdvancedPrintTokenSimpleString | sexp-output.c:277-289 | the stream ends in PrintTokenF's state |
| SexpAdvanced.PrintQuotedF | sexp-output.c:418-435 | the quoted printer changes only the output and the column |
| SexpAdvanced.AdvancedPrintQuotedStringSimpleString | sexp-output.c:418-435 | the stream ends in PrintQuotedF's state |
| SexpAdvanced.PrintHexF | sexp-output.c:365-380 | the hex printer succeeds exactly on an 8-bit stream, and keeps the width, maximum column and indentation |
| SexpAdvanced.AdvancedPrintHexSimpleString | sexp-output.c:365-380 | fails exactly when PrintHexF does; otherwise it ends in its state |
| SexpAdvanced.PrintBase64F | sexp-output.c:343-358 | the base64 printer succeeds exactly on an 8-bit stream, and keeps the width, maximum column and indentation |
| SexpAdvanced.AdvancedPrintBase64SimpleString | sexp-output.c:343-358 | fails exactly when PrintBase64F does; otherwise it ends in its state |
| SexpAdvanced.PrintSimpleF | sexp-output.c:452-467 | fails (with the restricted-width error) exactly when the string is neither a token nor quotable and the stream is not 8 bits wide |
| SexpAdvanced.AdvancedPrintSimpleString | sexp-output.c:452-467 | fails exactly when PrintSimpleF does; otherwise it ends in its state |
| SexpAdvanced.PrintStringF | sexp-output.c:472-485 | never fails on an 8-bit stream, and keeps the width, maximum column and indentation |
| SexpAdvanced.AdvancedPrintString | sexp-output.c:472-485 | fails exactly when PrintStringF does; otherwise it ends in its state |
| SexpAdvanced.ListOpen | sexp-output.c:570-571 | '(' is written and the indentation goes one level deeper |
| SexpAdvanced.ListClose | sexp-output.c:589-592 | closing a list restores the indentation and changes only the output and the column |
| SexpAdvanced.PrintObjectF | sexp-output.c:598-609 | never fails on an 8-bit stream, and keeps the width, maximum column and indentation |
| SexpAdvanced.PrintListF | sexp-output.c:563-593 | never fails on an 8-bit stream, and keeps the indentation it started with |
| SexpAdvanced.AdvancedPrintObject | sexp-output.c:598-609 | fails exactly when PrintObjectF does; otherwise it ends in its state |
| SexpAdvanced.AdvancedPrintList | sexp-output.c:563-593 | fails exactly when PrintListF does; otherwise it ends in its state |
| SexpAdvanced.OpenList | sexp-output.c:570-573 | opens the list and returns the vertical-layout choice, made on the width of the list |
| SexpAdvanced.CloseList | sexp-output.c:589-592 | the stream ends in ListClose's state |
| SexpAdvanced.PrintElement | sexp-output.c:576-587 | one pass of the element loop does what PrintElemF says |
| SexpAdvanced.TokenQuiet | sexp-output.c:277-289 | with no maximum column, a token is written as exactly its bytes |
| SexpAdvanced.QuotedQuiet | sexp-output.c:418-435 | with no maximum column, a quoted string is its bytes between two double quotes |
| SexpAdvanced.QuotedBodySplice | sexp-output.c:426-433 | the backslash-newline continuations the quoted printer inserts are exactly those the reader drops, so the bytes come back |
| SexpAdvanced.HexQuiet | sexp-output.c:365-380 | with no maximum column, a hex string is its base16 digits between two '#' |
| SexpAdvanced.Base64Quiet | sexp-output.c:343-358 | with no maximum column, a base64 string is its padded base64 digits between two bars |
| SexpAdvanced.SimpleQuietWidth | sexp-output.c:499-513 | with no maximum column, on an 8-bit stream, the printer writes exactly as many characters as advancedLengthSimpleString predicts |
| SexpAdvanced.StringQuietWidth | sexp-output.c:518-529 | the same for a string with its hint |
| SexpAdvanced.ListQuietVertical | sexp-output.c:571-573 | with no maximum column, every list is laid out vertically |
| SexpAdvanced.PrintNeverFailsAtByteWidth | sexp-output.c:598-609 | on an 8-bit stream every object is printed, keeping the width, maximum column and indentation |
| SexpAdvancedRead.SimpleText | sexp-output.c:452-467 | the text chosen for a simple string, stated independently of the stream |
| SexpAdvancedRead.PrintSimpleText | sexp-output.c:452-467 | with no maximum column, on an 8-bit stream, the printer appends exactly that text |
| SexpAdvancedRead.HexSimpleStringReads | sexp-input.c:401-437 | scanSimpleString reads `#hex#` back as the bytes it encodes |
| SexpAdvancedRead.Base64SimpleStringReads | sexp-input.c:401-437 | scanSimpleString reads a base64 string between bars back as the bytes it encodes |
| SexpAdvancedRead.TokenTextReads | sexp-input.c:401-437 | a token the printer chose reads back as itself |
| SexpAdvancedRead.QuotedTextReads | sexp-input.c:401-437 | a quoted string the printer chose reads back as its contents |
| SexpAdvancedRead.SimpleTextReads | sexp-input.c:401-437 | each of the four forms the printer chooses reads back as the string |
| SexpAdvancedRead.AdvancedSimpleRoundTrip | sexp-output.c:452-467 | whatever text advancedPrintSimpleString appends is scanned back by scanSimpleString as the same bytes |
| SexpReading.Current | sexp-input.c:105-149 | the current character is the first one ahead, or EOF when none is left |
| SexpReading.Consume | sexp-input.c:105-149 | consuming a known first byte leaves exactly the characters after it |
| SexpReading.AheadStep | sexp-input.c:105-149 | the characters ahead are the current one, then those after getChar, or a failure marker |
| SexpReading.FreshAhead | sexp-input.c:156-169 | a new stream delivers the pretended blank, then all of its input |
| SexpReading.NoteEmptyReads | sexp-input.c:434-435 | the zero-length warning changes nothing that is read |
| SexpScanSpec.SkipWhiteSpaceF | sexp-input.c:178-183 | stops at the first character that is not white space, and changes nothing if the current one is not |
| SexpScanSpec.SkipCharF | sexp-input.c:189-197 | consumes c when it is current, and otherwise fails with an error naming both characters |
| SexpScanSpec.ScanTokenF | sexp-input.c:202-211 | moves forward, and consumes something when a token character is current |
| SexpScanSpec.TokenLoop | sexp-input.c:206-209 | stops at the first character that is not a token character |
| SexpScanSpec.ScanToEOFF | sexp-input.c:217-229 | ends at EOF with a string object that has no hint |
| SexpScanSpec.ToEOFLoop | sexp-input.c:223-226 | ends at EOF |
| SexpScanSpec.ScanDecimalF | sexp-input.c:234-246 | stops at the first character that is not a decimal digit |
| SexpScanSpec.ScanDecimalLoop | sexp-input.c:237-245 | the same, starting from any value and digit count |
| SexpScanSpec.ScanVerbatimF | sexp-input.c:251-264 | moves forward over the input |
| SexpScanSpec.VerbatimLoop | sexp-input.c:258-261 | moves forward over the input |
| SexpScanSpec.OctalLoop | sexp-input.c:305-320 | moves forward over the input |
| SexpScanSpec.HexEscLoop | sexp-input.c:321-336 | moves forward over the input |
| SexpScanSpec.EscapeF | sexp-input.c:284-348 | an escape moves forward and never closes the string |
| SexpScanSpec.OctalEscapeF | sexp-input.c:305-320 | an octal escape moves forward and never closes the string |
| SexpScanSpec.HexEscapeF | sexp-input.c:321-336 | a hex escape moves forward and never closes the string |
| SexpScanSpec.LineContinuationF | sexp-input.c:337-346 | a line continuation appends nothing |
| SexpScanSpec.QuotedIteration | sexp-input.c:277-353 | one pass consumes input unless at EOF; it closes only at the declared length (or when there is none); any byte but a backslash is appended |
| SexpScanSpec.ScanQuotedF | sexp-input.c:271-356 | the corrected quoted-string scanner moves forward |
| SexpScanSpec.QuotedLoop | sexp-input.c:276-354 | the corrected loop moves forward |
| SexpScanSpec.ScanRegionF | sexp-input.c:362-394 | the region scanner moves forward |
| SexpScanSpec.ScanHexF | sexp-input.c:362-375 | scanHexString moves forward |
| SexpScanSpec.ScanBase64F | sexp-input.c:381-394 | scanBase64String moves forward |
| SexpScanSpec.RegionLoop | sexp-input.c:366-369 | the copy loop stops only at EOF, or at the delimiter once the region has ended |
| SexpScanSpec.ScanSimpleStringF | sexp-input.c:401-437 | a successful simple string always consumes input |
| SexpScanSpec.ScanLengthAndBodyF | sexp-input.c:413-431 | the length-and-body branch always consumes input |
| SexpScanSpec.ScanStringF | sexp-input.c:442-461 | scanString consumes input and yields a string object |
| SexpScanSpec.ScanHintF | sexp-input.c:449-456 | the hint reader consumes input |
| SexpScanSpec.ScanObjectF | sexp-input.c:498-516 | scanObject consumes input |
| SexpScanSpec.ScanListF | sexp-input.c:466-493 | scanList consumes input and yields a list object |
| SexpScanSpec.ListFirstF | sexp-input.c:471-478 | the same, from the first element on |
| SexpScanSpec.ListLoop | sexp-input.c:479-492 | the same, from the element loop on |
| SexpScanner.SkipWhiteSpace | sexp-input.c:178-183 | the outcome and the new stream state are those of SkipWhiteSpaceF |
| SexpScanner.SkipChar | sexp-input.c:189-197 | the outcome and the new stream state are those of SkipCharF |
| SexpScanner.ScanToken | sexp-input.c:202-211 | the outcome, stream state and string contents are those of ScanTokenF |
| SexpScanner.ScanToEOF | sexp-input.c:217-229 | the outcome, stream state and object are those of ScanToEOFF |
| SexpScanner.ScanDecimal | sexp-input.c:234-246 | the outcome, stream state and value are those of ScanDecimalF |
| SexpScanner.ScanVerbatimString | sexp-input.c:251-264 | the outcome, stream state and string contents are those of ScanVerbatimF |
| SexpScanner.VerbatimCopy | sexp-input.c:258-261 | the copy loop ends as VerbatimLoop says |
| SexpScanner.OctalEscape | sexp-input.c:305-320 | the octal digit loop ends as OctalLoop says |
| SexpScanner.HexEscape | sexp-input.c:321-336 | the hex digit loop ends as HexEscLoop says |
| SexpScanner.Escape | sexp-input.c:284-348 | fails exactly when EscapeF does; otherwise the stream and string are as EscapeF says |
| SexpScanner.OctalEscapeByte | sexp-input.c:305-320 | fails exactly when OctalEscapeF does; otherwise the stream and string are as it says |
| SexpScanner.HexEscapeByte | sexp-input.c:321-336 | fails exactly when HexEscapeF does; otherwise the stream and string are as it says |
| SexpScanner.LineContinuation | sexp-input.c:337-346 | fails exactly when LineContinuationF does; otherwise the stream is as it says |
| SexpScanner.QuotedPass | sexp-input.c:277-353 | fails exactly when QuotedIteration does; otherwise the stream, the string and whether the string closed are as it says |
| SexpScanner.ScanQuotedString | sexp-input.c:271-356 | the outcome, stream state and string contents are those of ScanQuotedF |
| SexpScanner.ScanRegion | sexp-input.c:362-394 | the outcome, stream state and string contents are those of ScanRegionF |
| SexpScanner.RegionCopy | sexp-input.c:366-369 | the copy loop ends as RegionLoop says |
| SexpScanner.ScanHexString | sexp-input.c:362-375 | the outcome, stream state and string contents are those of ScanHexF |
| SexpScanner.ScanBase64String | sexp-input.c:381-394 | the outcome, stream state and string contents are those of ScanBase64F |
| SexpScanner.ScanSimpleString | sexp-input.c:401-437 | returns a fresh string whose contents, outcome and stream state are those of ScanSimpleStringF |
| SexpScanner.ScanLengthAndBody | sexp-input.c:413-431 | the branch ends as ScanLengthAndBodyF says |
| SexpScanner.ScanString | sexp-input.c:442-461 | the outcome, stream state and object are those of ScanStringF |
| SexpScanner.ScanHint | sexp-input.c:449-456 | returns a fresh hint string as ScanHintF says |
| SexpScanner.ScanObject | sexp-input.c:498-516 | the outcome, stream state and object are those of ScanObjectF |
| SexpScanner.ScanList | sexp-input.c:466-493 | the outcome, stream state and object are those of ScanListF |
| SexpScanner.ListFirst | sexp-input.c:471-492 | ends as ListFirstF says |
| SexpScanner.ListElements | sexp-input.c:479-492 | the element loop ends as ListLoop says, from the elements added so far |
| SexpScanProps.SimpleEscapeReads | sexp-input.c:287-304 | each of \b \t \v \n \f \r \" \' \\ appends the byte it stands for and consumes two characters |
| SexpScanProps.OctalEscapeReads | sexp-input.c:305-320 | \ooo appends the value of its three digits when that is at most 255, and is fatal otherwise |
| SexpScanProps.OctalOneDigit | sexp-input.c:308-317 | an octal escape with one digit is fatal, and the error carries its value |
| SexpScanProps.OctalTwoDigits | sexp-input.c:308-317 | an octal escape with two digits is fatal, and the error carries their value |
| SexpScanProps.HexEscapeReads | sexp-input.c:321-336 | \xhh appends 16 times the first digit's value plus the second's |
| SexpScanProps.HexNoDigit | sexp-input.c:324-335 | \x with no hex digit after it is fatal |
| SexpScanProps.HexOneDigit | sexp-input.c:324-335 | \x with one hex digit is fatal, and the error carries its value |
| SexpScanProps.LineContinuationReads | sexp-input.c:337-346 | a backslash before a lone LF or CR drops both |
| SexpScanProps.LineContinuationPairReads | sexp-input.c:337-346 | a backslash before a CR LF or LF CR pair drops all three |
| SexpScanProps.UnknownEscapeReads | sexp-input.c:347-348 | a backslash before any other character warns, and drops both |
| SexpScanProps.QuotedLoopReads | sexp-input.c:276-354 | plain text up to a closing quote, at the declared length or with none, reads back exactly and consumes the quote |
| SexpScanProps.QuotedTooEarlyReads | sexp-input.c:277-283 | a closing quote before the declared length is fatal |
| SexpScanProps.QuotedTooLongReads | sexp-input.c:276-354 | corrected: a quoted string longer than its declared length is fatal |
| SexpScanProps.QuotedOverrunAsWritten | sexp-input.c:276 | as written: the loop stops after length + 1 bytes and returns them, with the closing quote still unread |
| SexpScanProps.TooLongExample | sexp-input.c:276 | as written, `3"abcd"` yields the four bytes abcd and leaves `"` unread; the corrected loop is fatal |
| SexpScanProps.LoopAtEof | sexp-input.c:276-354 | corrected: at EOF, with no declared length or with at most that many bytes held, the loop is fatal |
| SexpScanProps.UnterminatedReads | sexp-input.c:276-354 | corrected: a quoted string that reaches EOF, with no declared length or before the declared length is passed, is fatal |
| SexpScanProps.AtEofAsWritten | sexp-input.c:276-352 | as written, at EOF with no declared length the loop never ends, however many passes are allowed |
| SexpScanProps.UnterminatedAsWritten | sexp-input.c:276-354 | as written, plain text running to EOF with no declared length never ends the loop |
| SexpScanProps.AtEofLengthAsWritten | sexp-input.c:276-352 | as written, at EOF with a declared length the loop appends byte 255 until it holds length + 1 bytes, and then returns them |
| SexpScanProps.UnterminatedLengthAsWritten | sexp-input.c:276-352 | as written, plain text running to EOF within a declared length is returned padded with bytes 255 to length + 1 bytes |
| SexpScanProps.UnterminatedLengthExample | sexp-input.c:276-352 | as written, `3"ab` then EOF yields the bytes a, b, 255, 255; the corrected loop is fatal |
| SexpScanProps.QuotedReads | sexp-input.c:271-356 | a quoted string of plain text, from its opening quote, reads back as its contents |
| SexpScanProps.QuotedStringReads | sexp-input.c:401-437 | scanSimpleString reads plain text between quotes back |
| SexpScanProps.LengthQuotedStringReads | sexp-input.c:401-437 | the same after its decimal length |
| SexpScanProps.TokenLoopReads | sexp-input.c:206-209 | the token loop reads the longest run of token characters |
| SexpScanProps.TokenReads | sexp-input.c:412-413 | a token that does not start with a digit reads back as itself |
| SexpScanProps.SkipWhiteSpaceReads | sexp-input.c:178-183 | skipWhiteSpace drops a run of white space and leaves what follows it ahead |
| SexpScanProps.ToEOFLoopReads | sexp-input.c:223-226 | the loop of scanToEOF appends every remaining character in order and ends at EOF |
| SexpScanProps.ScanToEOFReads | sexp-input.c:217-229 | scanToEOF returns, with no hint, exactly the characters after the leading white space, and leaves nothing ahead |
| SexpScanProps.IllegalStart | sexp-input.c:432-433 | a character that starts no simple string is fatal, and the error gives the position and the character |
| SexpRegionRead.HexPair | sexp-input.c:131-146 | in a hex region with nothing pending, the two digits of a byte deliver it |
| SexpRegionRead.HexFrom | sexp-input.c:366-369 | the base16 digits of s, then '#', are read back as s, ending the region |
| SexpRegionRead.Base64From | sexp-input.c:385-388 | the padded base64 digits of s, then a bar, are read back as s, ending the region |
| SexpRegionRead.CloseRegion | sexp-input.c:116-127 | '=' padding and the closing delimiter end a region with nothing pending |
| SexpRegionRead.RegionReads | sexp-input.c:362-394 | the region scanners return the bytes the copy loop collected, consume the delimiter, and warn only when the length differs from the declared one |
| SexpRegionRead.HexStringReads | sexp-input.c:362-375 | scanHexString reads base16 text between '#' back as its bytes |
| SexpRegionRead.Base64StringReads | sexp-input.c:381-394 | scanBase64String reads padded base64 text between bars back as its bytes |
| SexpRoundTrip.DecimalDigitsValue | sexp-input.c:237-245 | reading the digits printDecimal writes for n gives n back |
| SexpRoundTrip.DecimalDigitsCount | sexp-output.c:139-146 | n is below 10^k exactly when it has at most k digits |
| SexpRoundTrip.LimitDigits | sexp-input.c:241-242 | the lengths below 10^9 are exactly those with at most nine digits |
| SexpRoundTrip.DecimalLoopReads | sexp-input.c:237-245 | the decimal loop over at most nine digits reads their value |
| SexpRoundTrip.TenthDigitFatal | sexp-input.c:241-242 | a length of ten or more digits is fatal |
| SexpRoundTrip.VerbatimLoopReads | sexp-input.c:258-261 | the copy loop takes exactly the next `length` characters |
| SexpRoundTrip.VerbatimBodyReads | sexp-input.c:251-264 | scanVerbatimString reads ':' and then exactly the declared number of bytes |
| SexpRoundTrip.LengthAndBodyReads | sexp-input.c:413-431 | a length followed by a verbatim body reads back as the body |
| SexpRoundTrip.VerbatimReads | sexp-input.c:401-437 | scanSimpleString reads a verbatim string back |
| SexpRoundTrip.HintReads | sexp-input.c:449-456 | scanString's hint reader reads a bracketed verbatim hint back |
| SexpRoundTrip.HintedStringReads | sexp-input.c:442-461 | scanString reads a hinted string back with its hint |
| SexpRoundTrip.PlainStringReads | sexp-input.c:442-461 | scanString reads a string without a hint back |
| SexpRoundTrip.StringReads | sexp-input.c:442-461 | scanString reads a string back from its canonical encoding |
| SexpRoundTrip.ObjectReads | sexp-input.c:498-516 | scanObject reads any object back from its canonical encoding |
| SexpRoundTrip.ListReads | sexp-input.c:466-493 | scanList reads '(' and the elements in order, up to ')' |
| SexpRegionRead.Base64Ahead | sexp-input.c:105-149 | in a base64 region with nothing pending, the characters ahead are the current one, then the bytes of s decoded from their padded base64 digits, then the closing bar or brace, then the rest at 8 bits |
| SexpRegionRead.TransportAhead | sexp-input.c:503-505 | switching an 8-bit stream to 6 bits at the opening brace and consuming it leaves the decoded bytes, the closing brace and the rest ahead |
| SexpRoundTrip.ElementsReads | sexp-input.c:479-492 | the element loop appends the remaining elements in order |
| SexpRoundTrip.CanonicalRoundTrip | sexp-output.c:215-224 | a fresh input stream holding an object's canonical encoding scans back the same object and then reaches EOF |
| SexpRoundTrip.BraceObjectReads | sexp-input.c:498-516 | scanObject at a brace reads back the object whose canonical encoding is base64-encoded between the braces, and leaves the rest ahead |
| SexpRoundTrip.TransportRoundTrip | sexp-output.c:232-241 | a fresh input stream holding what base64PrintWholeObject writes for an object scans back the same object and then reaches EOF |

## Left out

- The global `bits` accumulators are C `int`s, and shifting into them can
  overflow on long inputs. The model keeps only the pending low bits, so
  that overflow is not modelled.
- Output goes to a sequence of bytes, not to `stdout` through `putchar`.
  Input comes from a byte sequence, not from `fgetc(stdin)`.
- `advancedPrintVerbatimSimpleString` and its length function are not
  modelled: no routine ever chooses them (sexp-output.c:306-336).
- `newSexpOutputStream` does not set `base64Count`; the model starts it at 0.
- `flushOutput` leaves `bits` uncleared; the model clears it, because only
  the pending count `nBits` is ever read afterwards.
- SexpAdvanced.SimpleWidth, SexpAdvanced.StringWidth: tied to the number
  of characters printed only with no maximum column (SimpleQuietWidth,
  StringQuietWidth). With a positive one, the model states what the C code
  computes but proves nothing more about line breaks.
- SexpAdvanced.ListWidth: the C formula of sexp-output.c:534-554, which
  counts a blank after the last element as well. No lemma ties it to the
  characters advancedPrintList writes, and no horizontal layout is proved:
  with no maximum column every list is printed vertically
  (SexpAdvanced.ListQuietVertical).
- SexpAdvanced.SimpleWidth, SexpAdvanced.StringWidth,
  SexpAdvanced.ListWidth: the `advancedLength*` functions return a C `int`
  and `column` is a `long`. The model's widths and columns are unbounded
  integers, so their overflow is not modelled.
- SexpRoundTrip.TransportRoundTrip: stated only with no maximum column,
  where base64PrintWholeObject inserts no line breaks.
- SexpRoundTrip.BraceObjectReads: stated only for an 8-bit stream before
  the opening brace.
- `err` and `warn` are modelled as an error result and a warning log.
  Process exit and stderr text are left out.
- `malloc` failure and NULL objects are not modelled. This includes the
  NULL-object errors of the printers and the lost buffer when
  `reallocateSimpleString` is given a NULL string.
- The union type-punning of sexp.h (lines 49-52) is modelled by a datatype
  `Obj` with a tag test.
- sexp-main.c (argument handling and file I/O) is not part of this model.
- The character classes are those of the C locale (`isspace`, `isdigit`,
  `isxdigit`).
- SexpRoundTrip.CanonicalRoundTrip: needs every length below 10^9
  (`DecimalLimit`), because `scanDecimal` refuses a tenth digit.
- SexpScanProps.UnknownEscapeReads: stated only for 8-bit streams.
- SexpRegionRead.HexStringReads, SexpRegionRead.Base64StringReads: stated
  only for 8-bit streams before the region.
- SexpAdvancedRead.AdvancedSimpleRoundTrip: stated only with no maximum
  column and on an 8-bit stream.
- `QuotedLoopAsWritten` runs for at most a given number of passes (`fuel`).
  The as-written loop is shown never to finish by proving that no number
  of passes suffices.
- `simpleStringLength` and `simpleStringString` return fields directly.
  They are modelled by the `length` field and `Contents()`.
- The code and its comments differ in two places; the model follows the code:
  - the comment of `newLine` says indentation is at most half of maxcolumn;
    the code stops at a quarter (`IndentWidth`);
  - `advancedPrintList` with maxcolumn of 0 or less is always vertical
    (SexpAdvanced.ListQuietVertical), though maxcolumn 0 is meant as
    "no limit".

## Findings

| source | as written | input that shows it | evidently intended | confidence | as-written member | corrected member |
|---|---|---|---|---|---|---|
| sexp-input.c:276-354 | the loop of `scanQuotedString` with no declared length ends only at a closing quote; at EOF it appends byte 255 forever | `"ab` followed by the end of the input | a fatal error for an unterminated quoted string | not executed | SexpScanProps.UnterminatedAsWritten | SexpScanProps.UnterminatedReads |
| sexp-input.c:276-352 | with a declared length, the loop of `scanQuotedString` does not test for EOF; it appends byte 255 until `length + 1` bytes are held and returns them | `3"ab` followed by the end of the input yields the bytes a, b, 255, 255 | a fatal error for an unterminated quoted string | not executed | SexpScanProps.UnterminatedLengthExample | SexpScanProps.UnterminatedReads |
| sexp-input.c:276 | the loop stops once `length + 1` bytes are read, so a string longer than declared is accepted | `3"abcd"` yields `abcd` and leaves `"` unread | a fatal error when the declared length is exceeded | not executed | SexpScanProps.TooLongExample | SexpScanProps.QuotedTooLongReads |
| sexp-output.c:215-224 | `canonicalPrintObject` keeps the mode from earlier printing; after base64 output past the maximum column, varPutChar (lines 33-36) puts a line feed before a brace | the string `{` printed canonically at column 80 of a stream left in base64 mode gives `1:\n{` | canonical output with no line breaks | not executed | SexpCanonical.CanonicalPrintAfterBase64 | SexpCanonical.CanonicalPrintWholeObject |
