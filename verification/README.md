# sapieLibrary braille pipeline, modelled in Dafny

sapieLibrary is an NVDA add-on that logs in to the Sapie braille library,
downloads braille (BES) and DAISY books and shows them as text. This project
models the part of it that turns downloaded bytes into readable text, and the
small pure decisions around downloading:

- **Byte decoders** (`BesFormat`, `TenjiTexter`). `DocumentsViewer.op1` and
  `convert_bes_to_unicode` decode a dot-pattern file (.BES/.BET): they skip a
  header, rewrite 0x0D 0xFE pairs, blank the two bytes before each 0xFD in
  place, then map each byte to a braille cell U+2800–U+283F, CR or LF.
  `op2` decodes a flat-table file (.BSE) through the NABCC glyph table.
- **Braille to kana** (`Runs`, `EngQuote`, `InfoNote`, `Kana`,
  `TenjiTexter`). `katakana_conv` moves one cursor over the buffer. At a
  prefix cell it hands over to `numeric_conv`, `numeric2_conv`, `roma_conv`,
  `eng_conv` (foreign quote ⠦) or `info_conv` (information quote ⠠⠦).
- **Clean-up** (`PostProcess`). `Cxx`, `Cxx2` and `Cxx3` are `str.replace`
  passes over the kana text.
- **Character helpers** (`CharCodes`). These are the kana and Latin case
  shifters and the code-range strings.
- **Lookup tables** (`TenjiTables`). They are built by inverting dictionaries.
- **Archive extraction** (`SapieConverter`). `extract_and_convert_bes`
  decodes every .BES member, picks the book title and falls back to braille
  when kana conversion raises.
- **DAISY helpers** (`DaisyConverter`). `get_daisy_type` and
  `is_daisy_file` classify an archive. `generate_html` serialises extracted
  content as one page.
- **Download helpers** (`SapieClient`). These cover the form values, the
  file name, the next-page URL, the ranking choice and the detail URL.

## How the model is built

- **Errors and infinite loops.** Python raises `IndexError` on a subscript
  past the buffer and `KeyError` on a missing dictionary key. A model
  function returns `Outcome<T>`: `Ok(value)`, `Raised(fault)`, or `Hangs`
  where the source loop never ends.
- **Methods and functions.** Each loop of the source is a method of
  `TenjiTexter.DocumentsViewer` (or a module-level method) over the field
  `buff` or over an array. Each method is proved equal to a specification
  function, and the properties are then lemmas about those functions. For
  the transcoder loops that function is tail-recursive and takes the loop's
  steps in order. The byte decoders (`DecodeBytes`, `DecodeFlat`) recurse on
  the prefix, because the loop appends one byte's text at a time. The
  character shifters, code ranges and the blanking loop are sequence
  comprehensions (`ShiftText`, `CodeRange`, `CodeRangeDown`, `BlankBeforeFd`).
- **Tests that can never hold, kept as written.** Several comparisons in
  the transcoder can never succeed. The model keeps each one and proves it
  never holds, or shows when it does:
  - `NoDoubleCap` (eng_conv) and `NoClosingPair` (info_conv): a one-cell
    slice is compared with a two-cell literal, so the test is always false.
  - `KanaLongSign` (katakana_conv, the ⠒ branch): the one-cell slice taken
    at ⠒ is compared with the one-cell "⠂". The slice is ⠒ itself, so the
    test is always false and ⠒ always goes through j01.
  - `ClosesAsWrittenIff` (eng_conv's closing tests): the slice has the
    length of the closer. With a two-cell closer all five comparisons are
    live. With the one-cell closer "⠴" the four two-cell literals can never
    match, and only ⠴ itself closes.
- **Header start follows the code.** The `for i in range(n): if i > 1024:
  break` idiom leaves the start at `min(1025, n - 1)`, or 0 for an empty
  file. A file of at most 1026 bytes therefore decodes only its last byte.
  The model follows this code rather than a fixed 1024-byte header.
- **Equivalence of the two decoders.** `DocumentsViewer.Op1` and
  `SapieConverter.ConvertBesToUnicode` are both proved equal to
  `BesFormat.DotPattern`.
- **A single capital in an information quote skips a cell.** After a
  single-capital sign ⠠, info_conv reads one letter at `x`, sets
  `x = x + 1` and `pos = x`, breaks, and then adds 1 to `pos` at the end of
  the outer loop body. The cell right after the letter is therefore never
  read. `InfoNote.SingleLetter` resumes at `x + 2` to match.
- **A capital run re-reads the last digit.** In info_conv's capital-run
  loop, the branch that calls `numeric2_conv` does not add 1 to `x`, unlike
  the other branches. The next pass therefore reads the last digit cell
  again. It is emitted a second time through i01 when i01 has it.
  `InfoNote.CapsStep` continues at the index `numeric2_conv` returns.
- **Line 569 of `eng_conv`.** The lower-case loop tests
  `buff[x:pos+len(xxx)]` where every other test uses `x`. In that loop `pos`
  equals `x` whenever the test runs, so the model uses `x`.

## Model

| member | source | states |
|---|---|---|
| TenjiTables.Invert | sapieLibrary/globalPlugins/sapieLibrary/TenjiTexter/__init__.py:13-39 | the inverted table's keys are exactly the values of the original items |
| TenjiTables.InvertLastWins | sapieLibrary/globalPlugins/sapieLibrary/TenjiTexter/__init__.py:13-39 | a value maps back to the key of its last item: a later duplicate wins |
| TenjiTables.InvertInjective | sapieLibrary/globalPlugins/sapieLibrary/TenjiTexter/__init__.py:13-39 | when no two items share a value, every item can be looked up backwards |
| BesFormat.HeaderStart | sapieLibrary/globalPlugins/sapieLibrary/TenjiTexter/__init__.py:118-123 | decoding starts at 0 for an empty file, at limit+1 for a long one, and at the last byte of a short one |
| BesFormat.ByteText | sapieLibrary/globalPlugins/sapieLibrary/TenjiTexter/__init__.py:129-147 | a byte contributes at most two characters |
| BesFormat.CellByte | sapieLibrary/globalPlugins/sapieLibrary/TenjiTexter/__init__.py:143-144 | a braille cell is stored as a byte in 0xA0..0xDF |
| BesFormat.CellRoundTrip | sapieLibrary/globalPlugins/sapieLibrary/TenjiTexter/__init__.py:143-144 | a cell written as its byte decodes back to the same cell |
| BesFormat.CellBytes | sapieLibrary/globalPlugins/sapieLibrary/TenjiTexter/__init__.py:129-147 | a byte yields a single braille cell exactly when it lies in 0xA0..0xDF |
| BesFormat.DecodeBytes | sapieLibrary/globalPlugins/sapieLibrary/TenjiTexter/__init__.py:129-147 | the decoding loop produces at most two characters per byte |
| BesFormat.DecodeBytesAlphabet | sapieLibrary/globalPlugins/sapieLibrary/TenjiTexter/__init__.py:129-147 | the decoding loop produces only braille cells, CR and LF, and no byte raises |
| BesFormat.DecodeConcat | sapieLibrary/globalPlugins/sapieLibrary/TenjiTexter/__init__.py:129-147 | the decoding of two byte runs is the concatenation of their decodings |
| BesFormat.EncodeCells | sapieLibrary/globalPlugins/sapieLibrary/TenjiTexter/__init__.py:143-144 | writing a text of cells as bytes gives one byte per cell |
| BesFormat.DecodeEncodeCells | sapieLibrary/globalPlugins/sapieLibrary/TenjiTexter/__init__.py:129-147 | any text of braille cells survives being written as bytes and decoded |
| BesFormat.ReplaceCrFe | sapieLibrary/globalPlugins/sapieLibrary/TenjiTexter/__init__.py:124 | the bytes with every non-overlapping 0x0D 0xFE, read left to right, rewritten to 0x0D 0x0A (bytearray.replace) |
| BesFormat.CrFeEffect | sapieLibrary/globalPlugins/sapieLibrary/TenjiTexter/__init__.py:124 | the 0x0D 0xFE rewrite keeps the length and the 0xFD bytes, and leaves no 0x0D 0xFE pair |
| BesFormat.BlankBeforeFd | sapieLibrary/globalPlugins/sapieLibrary/TenjiTexter/__init__.py:125-128 | the buffer after the in-place loop: byte k becomes 0x0C when a 0xFD of the original sits at k+1 (k >= 1) or at k+2, else it is kept; the length is kept |
| BesFormat.BlankingEffect | sapieLibrary/globalPlugins/sapieLibrary/TenjiTexter/__init__.py:125-128 | a 0xFD at index 2 or later blanks the two bytes before it; one at index 0 or 1 blanks nothing; every changed byte is 0x0C with a 0xFD one or two places later |
| BesFormat.NoFdNoBlanking | sapieLibrary/globalPlugins/sapieLibrary/TenjiTexter/__init__.py:125-128 | without 0xFD the blanking loop changes nothing |
| BesFormat.FdLineBreak | sapieLibrary/globalPlugins/sapieLibrary/TenjiTexter/__init__.py:125-138 | a 0xFD at index 2 or later, with no 0xFD right after it, decodes together with the two bytes before it to one CR LF |
| BesFormat.DotPattern | sapieLibrary/globalPlugins/sapieLibrary/TenjiTexter/__init__.py:115-147 | op1's text: the body from HeaderStart, 0x0D 0xFE rewritten, bytes before 0xFD blanked, then decoded byte by byte |
| BesFormat.DotPatternAlphabet | sapieLibrary/globalPlugins/sapieLibrary/TenjiTexter/__init__.py:115-147 | a decoded file holds only U+2800–U+283F, CR and LF, at most two characters per decoded byte |
| BesFormat.DotPatternShort | sapieLibrary/globalPlugins/sapieLibrary/TenjiTexter/__init__.py:118-123 | an empty file decodes to ""; a file of up to 1026 bytes decodes to its last byte's text |
| BesFormat.DecodeCrLf | sapieLibrary/globalPlugins/sapieLibrary/TenjiTexter/__init__.py:131-134 | 0x0D 0x0A decodes to CR LF |
| BesFormat.DecodeCrFeIsDecodePairs | sapieLibrary/globalPlugins/sapieLibrary/TenjiTexter/__init__.py:124-138 | rewriting then decoding equals an independent left-to-right reader that treats each non-overlapping 0x0D 0xFE as one CR LF |
| BesFormat.DecodeWithoutFd | sapieLibrary/globalPlugins/sapieLibrary/TenjiTexter/__init__.py:123-138 | for a body without 0xFD the whole dot-pattern pipeline is that reference reader |
| BesFormat.DecodeFlat | sapieLibrary/globalPlugins/sapieLibrary/TenjiTexter/__init__.py:160-172 | the flat-table loop: 0xFD, 0xFE and 0x0A give CR LF, 0x0D and 0xFF give nothing, any other byte its NABCC glyph; the first byte without one raises KeyError |
| BesFormat.FlatTable | sapieLibrary/globalPlugins/sapieLibrary/TenjiTexter/__init__.py:150-172 | op2's text: DecodeFlat of the body from HeaderStart with the flat-table limit |
| BesFormat.DecodeFlatFails | sapieLibrary/globalPlugins/sapieLibrary/TenjiTexter/__init__.py:160-172 | the flat-table decoder never hangs; it raises KeyError exactly when some byte has no NABCC glyph |
| BesFormat.DecodeFlatLines | sapieLibrary/globalPlugins/sapieLibrary/TenjiTexter/__init__.py:160-172 | when no glyph holds LF, a successful decoding has one LF per 0xFD, 0xFE and 0x0A byte |
| CharCodes.ShiftText | sapieLibrary/globalPlugins/sapieLibrary/TenjiTexter/__init__.py:205-255 | a case shift keeps the length |
| CharCodes.ShiftClears | sapieLibrary/globalPlugins/sapieLibrary/TenjiTexter/__init__.py:205-255 | a shift leaves no character of its source range and changes exactly the characters in that range |
| CharCodes.ShiftRoundTrip | sapieLibrary/globalPlugins/sapieLibrary/TenjiTexter/__init__.py:205-255 | shifting back restores the text if and only if it had no character of the target range |
| CharCodes.ShiftIdempotent | sapieLibrary/globalPlugins/sapieLibrary/TenjiTexter/__init__.py:205-255 | a second shift changes nothing |
| CharCodes.KanaRoundTrip | sapieLibrary/globalPlugins/sapieLibrary/TenjiTexter/__init__.py:205-229 | katakana→hiragana→katakana is the identity exactly on text without hiragana; no ァ..ン remains after the first shift |
| CharCodes.LatinRoundTrip | sapieLibrary/globalPlugins/sapieLibrary/TenjiTexter/__init__.py:231-255 | a→A→a is the identity exactly on text without A..Z; no a..z remains after a_to_A |
| CharCodes.CodeRange | sapieLibrary/globalPlugins/sapieLibrary/TenjiTexter/__init__.py:175-179 | the ascending code string has hi-lo+1 characters, the i-th being lo+i |
| CharCodes.CodeRangeDown | sapieLibrary/globalPlugins/sapieLibrary/TenjiTexter/__init__.py:181-185 | the descending code string has hi-lo characters, the i-th being hi-i; lo itself is excluded |
| CharCodes.CodeStrings | sapieLibrary/globalPlugins/sapieLibrary/TenjiTexter/__init__.py:175-203 | the five code strings have lengths 64, 63, 64, 63 and 45; each descending one is its ascending one reversed without the first character; cell i and WinBES character i are 0x27E0 apart |
| PostProcess.Cxx | sapieLibrary/globalPlugins/sapieLibrary/TenjiTexter/__init__.py:722-728 | "ッッ" replaced by "……", then "…ッ" replaced by "……", each left to right without overlap |
| PostProcess.CxxClears | sapieLibrary/globalPlugins/sapieLibrary/TenjiTexter/__init__.py:722-728 | Cxx keeps the length and leaves neither "ッッ" nor "…ッ" |
| PostProcess.CxxIdempotent | sapieLibrary/globalPlugins/sapieLibrary/TenjiTexter/__init__.py:722-728 | Cxx applied twice equals Cxx applied once |
| PostProcess.CxxKeepsLines | sapieLibrary/globalPlugins/sapieLibrary/TenjiTexter/__init__.py:722-728 | Cxx keeps the count of every character other than ッ and … |
| PostProcess.Cxx2 | sapieLibrary/globalPlugins/sapieLibrary/TenjiTexter/__init__.py:749-753 | every non-overlapping CR LF replaced by LF |
| PostProcess.Cxx2Effect | sapieLibrary/globalPlugins/sapieLibrary/TenjiTexter/__init__.py:749-753 | Cxx2 keeps every LF and drops one CR per non-overlapping CR LF; it is the identity exactly on text without CR LF |
| PostProcess.Cxx2LeavesCrLf | sapieLibrary/globalPlugins/sapieLibrary/TenjiTexter/__init__.py:749-753 | "\r\r\n" becomes "\r\n", so Cxx2 is not idempotent |
| PostProcess.Cxx3 | sapieLibrary/globalPlugins/sapieLibrary/TenjiTexter/__init__.py:766-770 | every non-overlapping "\n\n" replaced by LF, three U+3000, LF |
| PostProcess.Cxx3Effect | sapieLibrary/globalPlugins/sapieLibrary/TenjiTexter/__init__.py:766-770 | Cxx3 keeps every LF and adds three ideographic spaces per non-overlapping "\n\n"; it is the identity exactly on text without "\n\n" |
| PostProcess.Cxx3LeavesEmptyLine | sapieLibrary/globalPlugins/sapieLibrary/TenjiTexter/__init__.py:766-770 | three LFs are padded once and an empty line remains |
| PostProcess.KanaCleanup | sapieLibrary/globalPlugins/sapieLibrary/sapieConverter.py:79-81 | Cxx3(Cxx2(Cxx(s))), the order the extractor applies them in |
| PostProcess.KanaCleanupKeepsLines | sapieLibrary/globalPlugins/sapieLibrary/sapieConverter.py:79-81 | Cxx, Cxx2 and Cxx3 in sequence keep the number of LFs |
| Runs.NumericLoop | sapieLibrary/globalPlugins/sapieLibrary/TenjiTexter/__init__.py:351-366 | the returned index is at least one before the start and at most the buffer length |
| Runs.NumericConv | sapieLibrary/globalPlugins/sapieLibrary/TenjiTexter/__init__.py:348-366 | the returned index is at or after the ⠼, so the main loop advances |
| Runs.DigitsEnd | sapieLibrary/globalPlugins/sapieLibrary/TenjiTexter/__init__.py:351-362 | the digit run ends at the first cell that is not a j10 key |
| Runs.NumericLoopSpec | sapieLibrary/globalPlugins/sapieLibrary/TenjiTexter/__init__.py:351-366 | the loop translates the digit run through j10, then ends as NumericTail says |
| Runs.NumericConvSpec | sapieLibrary/globalPlugins/sapieLibrary/TenjiTexter/__init__.py:348-366 | the text is the digits through j10 followed by the tail: a second ⠼ gives "、" and is consumed, CR gives CR LF and consumes the next cell, any other cell is handed back |
| Runs.Numeric2Loop | sapieLibrary/globalPlugins/sapieLibrary/TenjiTexter/__init__.py:372-395 | the returned index is at least one before the start and at most the buffer length |
| Runs.Numeric2Conv | sapieLibrary/globalPlugins/sapieLibrary/TenjiTexter/__init__.py:368-395 | the returned index is at or after the ⠼ |
| Runs.Digits2End | sapieLibrary/globalPlugins/sapieLibrary/TenjiTexter/__init__.py:372-387 | the run ends at the first cell that is neither ⠼ nor an i03 key |
| Runs.Numeric2LoopSpec | sapieLibrary/globalPlugins/sapieLibrary/TenjiTexter/__init__.py:372-395 | the loop translates the run (⠼ as ",", digits through i03), then ends as Numeric2Tail says |
| Runs.Numeric2ConvSpec | sapieLibrary/globalPlugins/sapieLibrary/TenjiTexter/__init__.py:368-395 | the text is the translated run plus its tail; numeric2_conv hands back its own start exactly when the next cell is neither ⠼, a digit nor CR |
| Runs.RomaLoop | sapieLibrary/globalPlugins/sapieLibrary/TenjiTexter/__init__.py:401-423 | the loop never hangs, can raise only IndexError, and returns an index in range |
| Runs.RomaConv | sapieLibrary/globalPlugins/sapieLibrary/TenjiTexter/__init__.py:397-423 | roma_conv never hangs, can raise only IndexError, and returns an index at or after its start |
| Runs.RomaEnd | sapieLibrary/globalPlugins/sapieLibrary/TenjiTexter/__init__.py:401-411 | the run ends at the first cell that is neither ⠠ nor a j11 key |
| Runs.RomaStep | sapieLibrary/globalPlugins/sapieLibrary/TenjiTexter/__init__.py:401-422 | on a run cell that is not a final ⠠, the loop moves on one cell with the carried text and mode |
| Runs.RomaLoopFails | sapieLibrary/globalPlugins/sapieLibrary/TenjiTexter/__init__.py:403-404 | roma_conv raises exactly when its run ends the buffer on a ⠠ |
| Runs.RomaLoopNext | sapieLibrary/globalPlugins/sapieLibrary/TenjiTexter/__init__.py:409-411 | otherwise it returns the index before the first cell outside the run, or the buffer length |
| Runs.RomaLower | sapieLibrary/globalPlugins/sapieLibrary/TenjiTexter/__init__.py:412-414 | without ⠠ every letter comes from j12, and a letter j12 lacks is dropped |
| Runs.RomaCapsStep | sapieLibrary/globalPlugins/sapieLibrary/TenjiTexter/__init__.py:415-417 | in capital-run mode one cell adds its j11 text and the mode stays |
| Runs.RomaCapsRun | sapieLibrary/globalPlugins/sapieLibrary/TenjiTexter/__init__.py:403-417 | after ⠠⠠ every later letter of the run comes from j11 |
| Runs.RomaSingleCap | sapieLibrary/globalPlugins/sapieLibrary/TenjiTexter/__init__.py:406-421 | a single ⠠ takes exactly the next letter from j11; the rest of the run comes from j12 |
| Runs.RomaDoubleCap | sapieLibrary/globalPlugins/sapieLibrary/TenjiTexter/__init__.py:404-405 | ⠠⠠ at the start of a run puts the whole rest of the run in capitals |
| Kana.KanaStep | sapieLibrary/globalPlugins/sapieLibrary/TenjiTexter/__init__.py:260-345 | one pass of the loop body never moves the cursor back |
| Kana.KanaFrom | sapieLibrary/globalPlugins/sapieLibrary/TenjiTexter/__init__.py:258-346 | the text only grows: a result starts with the text so far |
| Kana.KanaStepPlain | sapieLibrary/globalPlugins/sapieLibrary/TenjiTexter/__init__.py:341-345 | a cell that is no sign goes through j01, or is kept when j01 lacks it |
| Kana.KatakanaConv | sapieLibrary/globalPlugins/sapieLibrary/TenjiTexter/__init__.py:257-346 | katakana_conv: the cursor loop from index 0 with empty text, resuming one past each step's index; a fault or divergence of any step is the result |
| Kana.KanaPlain | sapieLibrary/globalPlugins/sapieLibrary/TenjiTexter/__init__.py:257-346 | a buffer without sign cells is transcribed cell by cell, the same as an independent plain reader |
| Kana.Prefixed | sapieLibrary/globalPlugins/sapieLibrary/TenjiTexter/__init__.py:297-340 | a two-cell lookup at the cursor: a hit gives the table text and consumes the next cell, a miss gives the branch's fallback text and consumes nothing |
| Kana.RomaPrefix | sapieLibrary/globalPlugins/sapieLibrary/TenjiTexter/__init__.py:265-277 | ⠰⠄ gives "＜" and ⠰⠤ gives "『", consuming the second cell; ⠰ before another separator gives j01's text for ⠰ (or nothing when j01 lacks it); otherwise nothing; then roma_conv starts at the returned index |
| Kana.KanaPrefix | sapieLibrary/globalPlugins/sapieLibrary/TenjiTexter/__init__.py:297-340 | after ⠲ ⠢ ⠐ ⠸ ⠨ ⠘ ⠈ a two-cell hit emits the table text and consumes two cells; a miss emits "。", "？", "ッ" or nothing and consumes one |
| Kana.KanaStepPrefix | sapieLibrary/globalPlugins/sapieLibrary/TenjiTexter/__init__.py:297-340 | at a prefix sign the loop body is the two-cell lookup |
| Kana.KanaPassThrough | sapieLibrary/globalPlugins/sapieLibrary/TenjiTexter/__init__.py:343-344 | a cell in no table and no sign passes through unchanged |
| Kana.KanaLongSign | sapieLibrary/globalPlugins/sapieLibrary/TenjiTexter/__init__.py:291-296 | ⠒ always goes through j01, raising KeyError when j01 lacks it; "ー・" is never produced |
| Kana.KanaLastCellRaises | sapieLibrary/globalPlugins/sapieLibrary/TenjiTexter/__init__.py:265-290 | ⠰, ⠤, ⠠ or ⠦ as the last cell raises IndexError |
| Kana.KanaQuoteWraps | sapieLibrary/globalPlugins/sapieLibrary/TenjiTexter/__init__.py:278-279 | ⠦ in the first cell passes the buffer's last cell to eng_conv as the cell before it |
| Kana.KanaStepHangs | sapieLibrary/globalPlugins/sapieLibrary/TenjiTexter/__init__.py:325-328 | a pass diverges only inside info_conv, at a stalling ⠼ |
| Kana.KanaHangs | sapieLibrary/globalPlugins/sapieLibrary/TenjiTexter/__init__.py:257-346 | katakana_conv fails to return only where a ⠼ stalls numeric2_conv inside an info quote |
| EngQuote.ClosesAsWrittenIff | sapieLibrary/globalPlugins/sapieLibrary/TenjiTexter/__init__.py:545-560 | the five slice comparisons are the cell test: a one-cell closer closes only on ⠴; a two-cell closer also on ⠴ followed by a blank cell, LF, CR or ⠤ |
| EngQuote.ClosesIff | sapieLibrary/globalPlugins/sapieLibrary/TenjiTexter/__init__.py:524-532 | the closer is ⠴ plus the cell before ⠦ when j01 reads that cell as "＿", "｜" or "　", else ⠴ alone |
| EngQuote.NoDoubleCap | sapieLibrary/globalPlugins/sapieLibrary/TenjiTexter/__init__.py:586-590 | the ⠠⠠ test compares one cell with two and never holds |
| EngQuote.ReadCell | sapieLibrary/globalPlugins/sapieLibrary/TenjiTexter/__init__.py:595-601 | reading a cell never moves back and stays in the buffer |
| EngQuote.InnerStep | sapieLibrary/globalPlugins/sapieLibrary/TenjiTexter/__init__.py:564-603 | the inner body leaves its loop exactly at a closing ⠴ or a ⠠, keeping its text |
| EngQuote.LettersLoop | sapieLibrary/globalPlugins/sapieLibrary/TenjiTexter/__init__.py:562-604 | the lower-case loop ends at or after its start |
| EngQuote.CapitalsLoop | sapieLibrary/globalPlugins/sapieLibrary/TenjiTexter/__init__.py:605-648 | the capital-run loop ends at or after its start |
| EngQuote.CapitalPass | sapieLibrary/globalPlugins/sapieLibrary/TenjiTexter/__init__.py:649-691 | the single-capital pass ends at or after its start |
| EngQuote.OuterPass | sapieLibrary/globalPlugins/sapieLibrary/TenjiTexter/__init__.py:544-695 | a pass of the outer body ends at or after its start |
| EngQuote.EngLoop | sapieLibrary/globalPlugins/sapieLibrary/TenjiTexter/__init__.py:543-696 | the outer loop returns an index at or after its start |
| EngQuote.EngStart | sapieLibrary/globalPlugins/sapieLibrary/TenjiTexter/__init__.py:533-542 | the loop starts after ⠦; ⠦ as the last cell raises IndexError |
| EngQuote.EngConv | sapieLibrary/globalPlugins/sapieLibrary/TenjiTexter/__init__.py:521-696 | eng_conv raises exactly when ⠦ is the last cell, never hangs, and returns an index past the ⠦ |
| EngQuote.LettersExtends | sapieLibrary/globalPlugins/sapieLibrary/TenjiTexter/__init__.py:562-604 | the lower-case loop only appends, and a close ends on a closing ⠴ with "￣" appended to the text it started with |
| EngQuote.CapitalsExtends | sapieLibrary/globalPlugins/sapieLibrary/TenjiTexter/__init__.py:605-648 | the capital-run loop only appends, and a close ends on a closing ⠴ with "￣" appended to the text it started with |
| EngQuote.OuterExtends | sapieLibrary/globalPlugins/sapieLibrary/TenjiTexter/__init__.py:544-695 | a pass of the outer loop only appends, and a close ends on a closing ⠴ with "￣" appended to the text it started with |
| EngQuote.EngLoopEnds | sapieLibrary/globalPlugins/sapieLibrary/TenjiTexter/__init__.py:543-696 | the outer loop returns past the buffer, or at a closing ⠴ with "￣" appended to its starting text |
| EngQuote.EngConvEnds | sapieLibrary/globalPlugins/sapieLibrary/TenjiTexter/__init__.py:521-696 | eng_conv's text starts with "￣"; it returns past the buffer or at a closing ⠴ after a second "￣", so a closed quote holds at least two marks |
| EngQuote.LettersNeverCapsRun | sapieLibrary/globalPlugins/sapieLibrary/TenjiTexter/__init__.py:586-590 | the lower-case loop never hands capital-run mode back |
| EngQuote.EngNeverCapsRun | sapieLibrary/globalPlugins/sapieLibrary/TenjiTexter/__init__.py:533-691 | neither the start nor any pass enters capital-run mode, so that branch is unreachable from eng_conv's start |
| InfoNote.NoClosingPair | sapieLibrary/globalPlugins/sapieLibrary/TenjiTexter/__init__.py:479-481 | the inner loops' ⠠⠴ test compares one cell with two and never holds |
| InfoNote.PlainStep | sapieLibrary/globalPlugins/sapieLibrary/TenjiTexter/__init__.py:449-473 | a plain-mode pass moves forward, resumes in mode 0 past its cell, or returns without hanging past its cell |
| InfoNote.PlainLoop | sapieLibrary/globalPlugins/sapieLibrary/TenjiTexter/__init__.py:446-474 | the plain loop resumes past its start in mode 0, or returns without hanging |
| InfoNote.CapsStep | sapieLibrary/globalPlugins/sapieLibrary/TenjiTexter/__init__.py:478-493 | a capital-run pass moves forward, resumes in mode 1, or is a stall that hangs |
| InfoNote.CapsLoop | sapieLibrary/globalPlugins/sapieLibrary/TenjiTexter/__init__.py:476-493 | the capital-run loop resumes past its start in mode 1, or hangs |
| InfoNote.SingleLetter | sapieLibrary/globalPlugins/sapieLibrary/TenjiTexter/__init__.py:495-515 | the single-capital pass always resumes past its cell in mode 0 |
| InfoNote.OuterPass | sapieLibrary/globalPlugins/sapieLibrary/TenjiTexter/__init__.py:430-518 | a pass of the outer body resumes or returns past its start |
| InfoNote.OuterLoop | sapieLibrary/globalPlugins/sapieLibrary/TenjiTexter/__init__.py:429-519 | the outer loop returns an index at or after its start |
| InfoNote.InfoConv | sapieLibrary/globalPlugins/sapieLibrary/TenjiTexter/__init__.py:425-519 | info_conv returns an index past its ⠠ |
| InfoNote.CapsStall | sapieLibrary/globalPlugins/sapieLibrary/TenjiTexter/__init__.py:482-484 | at a ⠼ the capital-run loop stops moving exactly when numeric2_conv hands back its own start |
| InfoNote.CapsStepHangs | sapieLibrary/globalPlugins/sapieLibrary/TenjiTexter/__init__.py:478-493 | a capital-run pass gives up only at a stalling ⠼ |
| InfoNote.CapsLoopHangs | sapieLibrary/globalPlugins/sapieLibrary/TenjiTexter/__init__.py:476-493 | the capital-run loop hangs only if a stalling ⠼ lies ahead |
| InfoNote.OuterLoopHangs | sapieLibrary/globalPlugins/sapieLibrary/TenjiTexter/__init__.py:429-519 | info_conv fails to return only if a stalling ⠼ lies ahead |
| InfoNote.InfoHangExample | sapieLibrary/globalPlugins/sapieLibrary/TenjiTexter/__init__.py:476-493 | the buffer ⠠⠦⠠⠠⠁⠼⠀ makes info_conv loop for ever |
| InfoNote.PlainStepCloses | sapieLibrary/globalPlugins/sapieLibrary/TenjiTexter/__init__.py:453-457 | a plain-mode return is at a ⠴ whose i02 text was just appended |
| InfoNote.PlainLoopCloses | sapieLibrary/globalPlugins/sapieLibrary/TenjiTexter/__init__.py:446-474 | every return of the plain loop has that shape |
| InfoNote.OuterPassCloses | sapieLibrary/globalPlugins/sapieLibrary/TenjiTexter/__init__.py:431-435 | a return of the outer body is at ⠠⠴ after ")", or a plain-mode close |
| InfoNote.OuterLoopEnds | sapieLibrary/globalPlugins/sapieLibrary/TenjiTexter/__init__.py:425-519 | every return of info_conv is at ⠠⠴ after ")", after a plain ⠴ and its i02 text, or past the buffer |
| InfoNote.PlainLoopFaults | sapieLibrary/globalPlugins/sapieLibrary/TenjiTexter/__init__.py:446-474 | the plain loop raises only KeyError, and only when i02 lacks ⠴ |
| InfoNote.OuterPassFaults | sapieLibrary/globalPlugins/sapieLibrary/TenjiTexter/__init__.py:430-518 | a pass raises IndexError only when the buffer ends in ⠠, and KeyError only when i02 lacks ⠴ |
| InfoNote.OuterLoopFaults | sapieLibrary/globalPlugins/sapieLibrary/TenjiTexter/__init__.py:425-519 | info_conv raises IndexError only when the buffer ends in ⠠, and KeyError only when i02 lacks ⠴ |
| TenjiTexter.SkipHeader | sapieLibrary/globalPlugins/sapieLibrary/TenjiTexter/__init__.py:119-122 | the header loop leaves its index at HeaderStart |
| TenjiTexter.BlankBeforeFdInPlace | sapieLibrary/globalPlugins/sapieLibrary/TenjiTexter/__init__.py:125-128 | the in-place loop turns the array into BlankBeforeFd of its old contents |
| TenjiTexter.DecodeDots | sapieLibrary/globalPlugins/sapieLibrary/TenjiTexter/__init__.py:129-147 | the decoding loop computes DecodeBytes of the array |
| TenjiTexter.ViewText | sapieLibrary/globalPlugins/sapieLibrary/TenjiTexter/__init__.py:101-111 | view's new buffer: DotPattern for .BES and .BET, FlatTable for .BSE, "" for any other upper-cased extension |
| TenjiTexter.ViewOutcomes | sapieLibrary/globalPlugins/sapieLibrary/TenjiTexter/__init__.py:101-111 | view never hangs; only a .BSE file can fail, with KeyError; any other extension leaves the buffer empty |
| TenjiTexter.DocumentsViewer.constructor | sapieLibrary/globalPlugins/sapieLibrary/TenjiTexter/__init__.py:79-81 | a new viewer has an empty buffer |
| TenjiTexter.DocumentsViewer.View | sapieLibrary/globalPlugins/sapieLibrary/TenjiTexter/__init__.py:101-111 | the buffer becomes the decoding chosen by extension; a fault leaves it unchanged and is reported |
| TenjiTexter.DocumentsViewer.Op1 | sapieLibrary/globalPlugins/sapieLibrary/TenjiTexter/__init__.py:115-147 | op1 computes DotPattern, the same function convert_bes_to_unicode computes |
| TenjiTexter.DocumentsViewer.Op2 | sapieLibrary/globalPlugins/sapieLibrary/TenjiTexter/__init__.py:151-173 | op2 computes FlatTable, skipping min(513, n-1) bytes |
| TenjiTexter.DocumentsViewer.NumericConv | sapieLibrary/globalPlugins/sapieLibrary/TenjiTexter/__init__.py:348-366 | the loop over buff computes Runs.NumericConv |
| TenjiTexter.DocumentsViewer.Numeric2Conv | sapieLibrary/globalPlugins/sapieLibrary/TenjiTexter/__init__.py:368-395 | the loop computes Runs.Numeric2Conv; the half-width flag never clears |
| TenjiTexter.DocumentsViewer.RomaConv | sapieLibrary/globalPlugins/sapieLibrary/TenjiTexter/__init__.py:397-423 | the loop computes Runs.RomaConv, including its IndexError |
| TenjiTexter.DocumentsViewer.EngConv | sapieLibrary/globalPlugins/sapieLibrary/TenjiTexter/__init__.py:521-696 | eng_conv computes EngQuote.EngConv |
| TenjiTexter.DocumentsViewer.EngQuoted | sapieLibrary/globalPlugins/sapieLibrary/TenjiTexter/__init__.py:543-696 | the outer loop computes EngQuote.EngLoop |
| TenjiTexter.DocumentsViewer.EngPass | sapieLibrary/globalPlugins/sapieLibrary/TenjiTexter/__init__.py:544-695 | one pass of the outer body computes EngQuote.OuterPass |
| TenjiTexter.DocumentsViewer.ReadCell | sapieLibrary/globalPlugins/sapieLibrary/TenjiTexter/__init__.py:595-601 | reading a cell computes EngQuote.ReadCell |
| TenjiTexter.DocumentsViewer.IsDoubleCap | sapieLibrary/globalPlugins/sapieLibrary/TenjiTexter/__init__.py:586 | the ⠠⠠ test computes EngQuote.DoubleCap, which never holds |
| TenjiTexter.DocumentsViewer.IsClosing | sapieLibrary/globalPlugins/sapieLibrary/TenjiTexter/__init__.py:565-584 | the five closing comparisons compute the cell test EngQuote.Closes |
| TenjiTexter.DocumentsViewer.EngLetters | sapieLibrary/globalPlugins/sapieLibrary/TenjiTexter/__init__.py:562-604 | the lower-case loop computes EngQuote.LettersLoop |
| TenjiTexter.DocumentsViewer.EngCapitals | sapieLibrary/globalPlugins/sapieLibrary/TenjiTexter/__init__.py:605-648 | the capital-run loop computes EngQuote.CapitalsLoop |
| TenjiTexter.DocumentsViewer.EngCapital | sapieLibrary/globalPlugins/sapieLibrary/TenjiTexter/__init__.py:649-691 | the single-capital loop computes EngQuote.CapitalPass |
| TenjiTexter.DocumentsViewer.InnerStep | sapieLibrary/globalPlugins/sapieLibrary/TenjiTexter/__init__.py:564-603 | the shared inner body computes EngQuote.InnerStep |
| TenjiTexter.DocumentsViewer.InfoConv | sapieLibrary/globalPlugins/sapieLibrary/TenjiTexter/__init__.py:425-519 | info_conv computes InfoNote.InfoConv, returning Hangs where the source spins |
| TenjiTexter.DocumentsViewer.InfoPass | sapieLibrary/globalPlugins/sapieLibrary/TenjiTexter/__init__.py:430-518 | one pass of the outer body computes InfoNote.OuterPass |
| TenjiTexter.DocumentsViewer.IsClosingPair | sapieLibrary/globalPlugins/sapieLibrary/TenjiTexter/__init__.py:450 | the ⠠⠴ test computes InfoNote.ClosingPair, which never holds |
| TenjiTexter.DocumentsViewer.InfoPlain | sapieLibrary/globalPlugins/sapieLibrary/TenjiTexter/__init__.py:446-474 | the plain loop computes InfoNote.PlainLoop |
| TenjiTexter.DocumentsViewer.PlainStep | sapieLibrary/globalPlugins/sapieLibrary/TenjiTexter/__init__.py:450-473 | the plain body computes InfoNote.PlainStep |
| TenjiTexter.DocumentsViewer.InfoCapitals | sapieLibrary/globalPlugins/sapieLibrary/TenjiTexter/__init__.py:476-493 | the capital-run loop computes InfoNote.CapsLoop |
| TenjiTexter.DocumentsViewer.CapsStep | sapieLibrary/globalPlugins/sapieLibrary/TenjiTexter/__init__.py:479-493 | the capital-run body computes InfoNote.CapsStep |
| TenjiTexter.DocumentsViewer.InfoCapital | sapieLibrary/globalPlugins/sapieLibrary/TenjiTexter/__init__.py:495-515 | the single-capital loop computes InfoNote.SingleLetter |
| TenjiTexter.DocumentsViewer.KatakanaConv | sapieLibrary/globalPlugins/sapieLibrary/TenjiTexter/__init__.py:257-346 | katakana_conv over buff computes Kana.KatakanaConv |
| TenjiTexter.DocumentsViewer.KanaStep | sapieLibrary/globalPlugins/sapieLibrary/TenjiTexter/__init__.py:260-345 | one pass of the body computes Kana.KanaStep |
| TenjiTexter.DocumentsViewer.CapSignStep | sapieLibrary/globalPlugins/sapieLibrary/TenjiTexter/__init__.py:325-334 | the ⠠ branch computes Kana.KanaStep |
| TenjiTexter.DocumentsViewer.OtherCell | sapieLibrary/globalPlugins/sapieLibrary/TenjiTexter/__init__.py:297-344 | the prefix-sign and j01 branches compute Kana.KanaStep |
| TenjiTexter.DocumentsViewer.RomaSign | sapieLibrary/globalPlugins/sapieLibrary/TenjiTexter/__init__.py:265-277 | the ⠰ branch, with roma_conv always called, computes Kana.KanaStep |
| TenjiTexter.DocumentsViewer.Lookup | sapieLibrary/globalPlugins/sapieLibrary/TenjiTexter/__init__.py:289-290 | a j01 subscript computes Kana.Lookup, raising KeyError on a miss |
| TenjiTexter.DocumentsViewer.Prefixed | sapieLibrary/globalPlugins/sapieLibrary/TenjiTexter/__init__.py:297-302 | a two-cell lookup computes Kana.Prefixed |
| TenjiTexter.DocumentsViewer.Shift | sapieLibrary/globalPlugins/sapieLibrary/TenjiTexter/__init__.py:205-216 | the shifting loop computes CharCodes.ShiftText |
| TenjiTexter.DocumentsViewer.KatakanaToHiragana | sapieLibrary/globalPlugins/sapieLibrary/TenjiTexter/__init__.py:205-216 | katakana_to_hiragana computes CharCodes.KatakanaToHiragana |
| TenjiTexter.DocumentsViewer.HiraganaToKatakana | sapieLibrary/globalPlugins/sapieLibrary/TenjiTexter/__init__.py:218-229 | hiragana_to_katakana computes CharCodes.HiraganaToKatakana |
| TenjiTexter.DocumentsViewer.LowerToUpper | sapieLibrary/globalPlugins/sapieLibrary/TenjiTexter/__init__.py:231-242 | a_to_A computes CharCodes.LowerToUpper |
| TenjiTexter.DocumentsViewer.UpperToLower | sapieLibrary/globalPlugins/sapieLibrary/TenjiTexter/__init__.py:244-255 | A_to_a computes CharCodes.UpperToLower |
| TenjiTexter.DocumentsViewer.CodeUp | sapieLibrary/globalPlugins/sapieLibrary/TenjiTexter/__init__.py:175-179 | the ascending range loop computes CharCodes.CodeRange |
| TenjiTexter.DocumentsViewer.CodeDown | sapieLibrary/globalPlugins/sapieLibrary/TenjiTexter/__init__.py:181-185 | the descending range loop computes CharCodes.CodeRangeDown |
| TenjiTexter.DocumentsViewer.BrailleCode | sapieLibrary/globalPlugins/sapieLibrary/TenjiTexter/__init__.py:175-179 | braille_code computes CharCodes.BrailleCode |
| TenjiTexter.DocumentsViewer.BrailleCodeR | sapieLibrary/globalPlugins/sapieLibrary/TenjiTexter/__init__.py:181-185 | braille_code_r computes CharCodes.BrailleCodeR |
| TenjiTexter.DocumentsViewer.WinbesCode | sapieLibrary/globalPlugins/sapieLibrary/TenjiTexter/__init__.py:187-191 | winbes_code computes CharCodes.WinbesCode |
| TenjiTexter.DocumentsViewer.WinbesCodeR | sapieLibrary/globalPlugins/sapieLibrary/TenjiTexter/__init__.py:193-197 | winbes_code_r computes CharCodes.WinbesCodeR |
| TenjiTexter.DocumentsViewer.KatakanaCode | sapieLibrary/globalPlugins/sapieLibrary/TenjiTexter/__init__.py:199-203 | katakana_code computes CharCodes.KatakanaCode |
| SapieConverter.ConvertBesToUnicode | sapieLibrary/globalPlugins/sapieLibrary/sapieConverter.py:11-46 | convert_bes_to_unicode computes DotPattern, as op1 does |
| SapieConverter.ExtractAndConvertBes | sapieLibrary/globalPlugins/sapieLibrary/sapieConverter.py:49-85 | the extraction loop and kana fallback compute Extracted |
| SapieConverter.BesText | sapieLibrary/globalPlugins/sapieLibrary/sapieConverter.py:56-68 | the DotPattern decodings of the members whose upper-cased extension is .BES, concatenated in archive order |
| SapieConverter.BesTextConcat | sapieLibrary/globalPlugins/sapieLibrary/sapieConverter.py:56-68 | the members' texts are concatenated in archive order |
| SapieConverter.BesTextSingle | sapieLibrary/globalPlugins/sapieLibrary/sapieConverter.py:62-68 | only a member whose extension upper-cases to ".BES" contributes, with its decoding |
| SapieConverter.BesTextAlphabet | sapieLibrary/globalPlugins/sapieLibrary/sapieConverter.py:56-68 | the braille text holds only cells, CR and LF |
| SapieConverter.FirstOwnTitle | sapieLibrary/globalPlugins/sapieLibrary/sapieConverter.py:70-71 | a title found is neither empty nor the archive's stem |
| SapieConverter.TitleFrom | sapieLibrary/globalPlugins/sapieLibrary/sapieConverter.py:52-71 | the title starts as the archive stem; each .BES member's stem replaces it while it is still "" or the archive stem |
| SapieConverter.TitleChoice | sapieLibrary/globalPlugins/sapieLibrary/sapieConverter.py:52-71 | the title is the stem of the first .BES member whose stem is its own; without one it is empty or the archive's stem |
| SapieConverter.TitleWithoutBes | sapieLibrary/globalPlugins/sapieLibrary/sapieConverter.py:52 | without a .BES member the title is the archive's stem |
| SapieConverter.Extracted | sapieLibrary/globalPlugins/sapieLibrary/sapieConverter.py:49-85 | the book of an archive that opens: with conversion on and a non-empty braille text, the cleaned kana when katakana_conv returns, the braille text when it raises; otherwise the braille text; with the chosen title |
| SapieConverter.ExtractedOutcomes | sapieLibrary/globalPlugins/sapieLibrary/sapieConverter.py:73-85 | extraction never raises; with conversion off or raising, the result is the braille text, which holds only cells, CR and LF |
| SapieConverter.ExtractedHangs | sapieLibrary/globalPlugins/sapieLibrary/sapieConverter.py:73-85 | extraction fails to return only with conversion on and a stalling ⠼ in the text |
| SapieConverter.ExtractedKana | sapieLibrary/globalPlugins/sapieLibrary/sapieConverter.py:73-81 | a successful conversion is cleaned by Cxx, Cxx2, Cxx3 and keeps its line count |
| DaisyConverter.AnyNcc | sapieLibrary/globalPlugins/sapieLibrary/daisyConverter.py:38 | true exactly when some lower-cased name contains "ncc.html" or "ncc.htm" |
| DaisyConverter.AnyEndsWith | sapieLibrary/globalPlugins/sapieLibrary/daisyConverter.py:40 | true exactly when some lower-cased name ends with the suffix |
| DaisyConverter.GetDaisyType | sapieLibrary/globalPlugins/sapieLibrary/daisyConverter.py:33-44 | None for an archive that fails, "2.02" when a lower-cased name contains ncc.html or ncc.htm, else "3" when a name ends with .opf, else None |
| DaisyConverter.IsDaisyFile | sapieLibrary/globalPlugins/sapieLibrary/daisyConverter.py:14-30 | false for an archive that fails, else whether some name is an NCC or ends with .opf or .smil |
| DaisyConverter.DaisyTypeCases | sapieLibrary/globalPlugins/sapieLibrary/daisyConverter.py:33-44 | "2.02" exactly for an NCC, "3" exactly for a package file without NCC, none otherwise or when the archive cannot be opened |
| DaisyConverter.DaisyFileIffTyped | sapieLibrary/globalPlugins/sapieLibrary/daisyConverter.py:14-30 | an archive is DAISY exactly when it has a type or holds a ".smil" name |
| DaisyConverter.NccShortSuffices | sapieLibrary/globalPlugins/sapieLibrary/daisyConverter.py:20 | the "ncc.htm" test alone decides the NCC check |
| DaisyConverter.EscapeChar | sapieLibrary/globalPlugins/sapieLibrary/daisyConverter.py:368-371 | an escaped character has no raw angle bracket |
| DaisyConverter.Escape | sapieLibrary/globalPlugins/sapieLibrary/daisyConverter.py:368-371 | escaped text has no raw angle bracket |
| DaisyConverter.EscapeContent | sapieLibrary/globalPlugins/sapieLibrary/daisyConverter.py:370 | "&" replaced by "&amp;", then "<" by "&lt;", then ">" by "&gt;" |
| DaisyConverter.EscapeContentCharwise | sapieLibrary/globalPlugins/sapieLibrary/daisyConverter.py:370 | the three chained replaces, "&" first, equal escaping character by character |
| DaisyConverter.SubstChain | sapieLibrary/globalPlugins/sapieLibrary/daisyConverter.py:370 | the three chained substitutions equal the character-wise escape |
| DaisyConverter.UnescapeEscape | sapieLibrary/globalPlugins/sapieLibrary/daisyConverter.py:368-371 | unescaping the escaped content restores it exactly |
| DaisyConverter.UnescapeCharwise | sapieLibrary/globalPlugins/sapieLibrary/daisyConverter.py:368-371 | unescaping the character-wise escape restores the text |
| DaisyConverter.SectionPart | sapieLibrary/globalPlugins/sapieLibrary/daisyConverter.py:361-372 | a section's appends give SectionLines |
| DaisyConverter.TocPart | sapieLibrary/globalPlugins/sapieLibrary/daisyConverter.py:352-356 | the contents loop gives one TocLine per section in order |
| DaisyConverter.BodyPart | sapieLibrary/globalPlugins/sapieLibrary/daisyConverter.py:361-372 | the sections loop gives BodyLines |
| DaisyConverter.HtmlParts | sapieLibrary/globalPlugins/sapieLibrary/daisyConverter.py:317-379 | the page's lines in order: the head with the title, the contents block when there are sections, each section's lines, then the closing tags |
| DaisyConverter.GenerateHtml | sapieLibrary/globalPlugins/sapieLibrary/daisyConverter.py:317-379 | the page is HtmlParts joined by "\n" |
| DaisyConverter.JoinEndsWithLast | sapieLibrary/globalPlugins/sapieLibrary/daisyConverter.py:379 | a joined list ends with its last part |
| DaisyConverter.HeadShape | sapieLibrary/globalPlugins/sapieLibrary/daisyConverter.py:322-345 | the head has 22 lines, opens with the doctype, and carries the title at 4 and 21 |
| DaisyConverter.HtmlFraming | sapieLibrary/globalPlugins/sapieLibrary/daisyConverter.py:319-379 | the page starts "<!DOCTYPE html>", ends "</html>", and puts the title (default "DAISY図書") unescaped in title and h1 |
| DaisyConverter.HtmlWithoutSections | sapieLibrary/globalPlugins/sapieLibrary/daisyConverter.py:348-358 | without sections there is no table of contents: head then "</body>", "</html>" |
| DaisyConverter.TocLinesLength | sapieLibrary/globalPlugins/sapieLibrary/daisyConverter.py:352-356 | the contents have one line per section |
| DaisyConverter.TocLineAt | sapieLibrary/globalPlugins/sapieLibrary/daisyConverter.py:352-356 | contents line i is section i's entry |
| DaisyConverter.HtmlToc | sapieLibrary/globalPlugins/sapieLibrary/daisyConverter.py:348-358 | with sections, "<nav>", "<ul>", one entry per section in order, "</ul>", "</nav>" follow the head |
| DaisyConverter.TocEntryLinks | sapieLibrary/globalPlugins/sapieLibrary/daisyConverter.py:353-356 | entry i opens with "<li>", level-1 ideographic spaces and a link to "#section{i}" |
| DaisyConverter.BodyHasDivs | sapieLibrary/globalPlugins/sapieLibrary/daisyConverter.py:361-366 | the section lines hold each section's div |
| DaisyConverter.TocLinksResolve | sapieLibrary/globalPlugins/sapieLibrary/daisyConverter.py:348-372 | every contents link has its target div on the page |
| DaisyConverter.SectionDivsDistinct | sapieLibrary/globalPlugins/sapieLibrary/daisyConverter.py:366 | distinct sections carry distinct ids |
| DaisyConverter.HeadingLevels | sapieLibrary/globalPlugins/sapieLibrary/daisyConverter.py:362-367 | a positive level gives a heading h1..h6, and level 6 or more gives h6 |
| DaisyConverter.SectionContent | sapieLibrary/globalPlugins/sapieLibrary/daisyConverter.py:364-372 | the content div appears exactly for non-empty content, holds it escaped with no raw angle bracket, and unescapes back |
| SapieClient.Chosen | sapieLibrary/globalPlugins/sapieLibrary/sapieClient.py:508-516 | a non-empty override wins; otherwise the default is used |
| SapieClient.StartDownload | sapieLibrary/globalPlugins/sapieLibrary/sapieClient.py:491-528 | not logged in, then an id of "" or "0", refuse; otherwise the download form with J31DWN21/22/J01LST11 for DAISY and J31DWN17/11/J01LST01 for braille, overrides winning when non-empty |
| SapieClient.StartDownloadCases | sapieLibrary/globalPlugins/sapieLibrary/sapieClient.py:491-528 | a form is posted exactly when logged in with an id other than "" and "0"; its action, return page and default S00202 follow the format; S00215 defaults to "1"; it carries the id and session tokens |
| SapieClient.Sanitize | sapieLibrary/globalPlugins/sapieLibrary/sapieClient.py:565-568 | sanitising keeps the length |
| SapieClient.SanitizeProperties | sapieLibrary/globalPlugins/sapieLibrary/sapieClient.py:565-568 | allowed characters are kept, every output character is allowed, sanitising twice equals once, and a clean name is unchanged |
| SapieClient.Truncated | sapieLibrary/globalPlugins/sapieLibrary/sapieClient.py:570-573 | the stem cut to its first 100 characters when longer, then the extension appended |
| SapieClient.TruncatedKeepsExtension | sapieLibrary/globalPlugins/sapieLibrary/sapieClient.py:570-573 | the result ends with the extension, starts with the first 100 stem characters, and is unchanged for a stem of at most 100 |
| SapieClient.SaveName | sapieLibrary/globalPlugins/sapieLibrary/sapieClient.py:545-573 | the header's file name, or "sapie_book_{id}.zip" without one, sanitised and then truncated |
| SapieClient.FallbackSplit | sapieLibrary/globalPlugins/sapieLibrary/sapieClient.py:556-562 | the fallback name of an alphanumeric id splits into "sapie_book_{id}" and ".zip" |
| SapieClient.FallbackNameKept | sapieLibrary/globalPlugins/sapieLibrary/sapieClient.py:556-573 | without a header name, an alphanumeric id of at most 89 characters is saved as "sapie_book_{id}.zip" in both formats |
| SapieClient.NextPageUrl | sapieLibrary/globalPlugins/sapieLibrary/sapieClient.py:284-288 | an href starting with "http" as is, otherwise the CGI directory URL followed by the href |
| SapieClient.NextPageUrlAbsolute | sapieLibrary/globalPlugins/sapieLibrary/sapieClient.py:284-288 | the next-page URL starts with "http", resolving twice equals once, and a relative href stays its suffix |
| SapieClient.RankingFor | sapieLibrary/globalPlugins/sapieLibrary/sapieClient.py:725-738 | the ranking of a known type from the five-entry map, else the braille-download ranking |
| SapieClient.RankingChoice | sapieLibrary/globalPlugins/sapieLibrary/sapieClient.py:725-738 | an unknown ranking type falls back to braille_download's ("1", "braille", "点字ダウンロード"); the book type is braille or daisy, daisy exactly for S00201 3, 4 or 22 |
| SapieClient.RankingsDistinct | sapieLibrary/globalPlugins/sapieLibrary/sapieClient.py:725-731 | different ranking types ask for different S00201 values |
| SapieClient.DetailUrl | sapieLibrary/globalPlugins/sapieLibrary/sapieClient.py:1309-1328 | the detail URL: base, "?", S00101, S00102 and S00103, "S00221={s00221}&" only when S00221 is non-empty, then S00222 and RTNTME |
| SapieClient.DetailUrlField | sapieLibrary/globalPlugins/sapieLibrary/sapieClient.py:1309-1328 | with a non-empty S00221 the URL is the S00221-less URL with "S00221={s00221}&" inserted, and contains "S00221={s00221}" |

## Left out

- File, archive and network I/O are not modelled. This covers opening files
  in `op1`/`op2`/`view`, `zipfile`, the cp437/cp932 member-name decoding and
  logging. The models take the bytes or the member names as parameters.
  `SapieConverter.ExtractAndConvertBes` does not model an archive that fails
  to open, which the source re-raises.
- The session, HTTP requests, BeautifulSoup parsing, Shift_JIS form encoding,
  the Content-Disposition regex and `unquote` are not modelled. The header
  file name is a parameter (`SaveName`), and session tokens are a map
  parameter.
- The contents of Japanese_Table, English_Table, Info_Table and nabcc are
  not part of this model. The converters take the inverted tables as
  parameters.
- `eng_conv2`, `test()` and `main()` are not modelled; the first is only
  named in a comment and the others are debugging entry points.
- The DAISY extraction functions are not modelled: `_extract_*`,
  `_clean_html`, `_parse_dtbook`, `_try_decode`, `_decode_filename`,
  `open_daisy_in_browser` and the `isalnum()`-based safe title. They rely on
  Python regex, codec and Unicode-database behaviour.
- `generate_html` takes a dictionary. The model types it as
  `DaisyContent` with optional fields, so a value of another Python type is
  not represented. A missing `sections` key gives the empty list, as the
  source's default does.
- The rest of `get_popular_books` is not modelled: the date window and the
  request URL built after the ranking choice.
- The rest of `download_book` and `search` is not modelled: the result-page
  loop, the HTTP status check and writing the file.
- Python's `upper()`/`lower()` on file names and extensions are modelled as
  ASCII case mapping (`AsciiUpper`, `AsciiLower`). Non-ASCII case mappings
  are not modelled.
- `os.path.basename` is modelled without drive-letter handling.
  `os.path.splitext` follows the Windows flavour: both `/` and `\` separate,
  and leading dots of a name are not an extension.
- Where the source loops for ever, the model returns `Hangs` instead of not
  returning. This happens in `info_conv`'s capital-run loop at a ⠼ that
  `numeric2_conv` hands back.
- SapieClient.DetailUrlField: this shows that with a non-empty S00221 the
  URL differs from the S00221-less URL by exactly the field. It does not
  claim that "S00221=" is absent from the S00221-less URL, because session
  tokens are arbitrary strings that could contain it.
- SapieClient.FallbackSplit: this is stated for ids made of ASCII letters
  and digits. An id containing dots or separators would change the split.
- SapieClient.TruncatedKeepsExtension: this states that the extension is
  kept as the suffix. It does not claim that splitting the truncated name
  gives the same extension back, which can fail when a cut stem ends in
  dots.
