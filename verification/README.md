# libkasm front end in Dafny

libkasm is the library behind the kasm assembler. `kasm_build` opens a source
file, reads it in chunks of at most 1024 bytes and tokenizes it. The tokenizer
is a per-byte state machine. It cuts the text into tokens and classifies each
one against an ordered table of token kinds. Every kind in that table carries
a recogniser and three bit masks over six adjacency categories: LABEL, ACTION,
VALUE, COMMA, STRING and EOL. The stage and the result of the build are
recorded in a `BuildContext`. `kasm_parse` validates the token list: each
token's masks must admit the categories of its neighbours. The parser's
handlers fold label definitions, directives, instructions and immediates into
a `ParserContext`. Directive names are looked up in a directive table and
mnemonics in the opcode table of a backend. The km8 backend supplies that
table. All tokens, actions and labels live in a growable pointer list with a
count and a capacity.

The model is split into these modules:

- `KasmTypes` (kasm_types.dfy): the entities of the public header. It holds
  the kind, category, argument, stage and result enumerations with their
  numeric codes, plus tokens, labels, actions and the target descriptor.
- `Classifier` (classifier.dfy): the shape recognisers, the token table, the
  first-match classification and the two name lookups. `strcmp` is modelled on
  NUL-terminated byte strings.
- `Km8` (km8.dfy): the km8 opcode table, operand sizes and descriptor.
- `Lexer` (lexer.dfy): the tokenizer in two forms.
  - A pure specification: one byte is `StepChar`, a chunk is `RunChars`, the
    whole stream is `RunChunks`/`LexOutcome`.
  - The `Tokenizer` class, whose fields are the tokenizer context and whose
    pending-token buffer is a 64-slot array. Its methods are proved to compute
    exactly those functions.
- `Build` (build.dfy): `BuildContext` and `kasm_build`.
- `Parser` (parser.dfy): token-sequence validation, `strtoul` in base 0, the
  immediate width, `ParserContext` and its handlers, and `kasm_parse`.
- `PointerList` (list.dfy): the list as a class over a slot array, with
  allocation outcomes as boolean inputs.

Where the code disagrees with its comments, the model follows the code: token
validation in `kasm_parse` uses the token table exactly as initialised in
src/libkasm.c, including its EOL entry. Two of those disagreements are
genuine defects; they are listed under "## Findings" below. Only the
corrected-half members of that section use the corrected definitions: the
token table with the EOL mask its comment describes (`TokenTypeDefCorrected`),
and the list resize, which `List.Resize` states as intended while the
`Footprint` functions model it as written.

## Model

| member | source | states |
|---|---|---|
| KasmTypes.OperandTypeOf | src/libkasm.h:12-17 | exactly the codes 0..3 name an operand kind, and the kind found carries that code |
| KasmTypes.KindOf | src/libkasm.h:28-41 | the kind with enumerator value n has code n |
| KasmTypes.KindCodeRoundTrip | src/libkasm.h:28-41 | kinds and codes 0..TOKEN_MAX-1 are in bijection; UNKNOWN is 0 and EOL is the last kind |
| KasmTypes.FlagsAreDistinctBits | src/libkasm.h:43-50 | every category flag is a single bit and no two categories share one |
| KasmTypes.MaskMembership | src/libkasm.h:43-50 | a mask built from a list of categories has a category's bit set iff that category is in the list |
| KasmTypes.ArgumentLowNibble | src/libkasm.h:104-112 | the low four bits of each argument code are the operand kind it assembles as (immediate→IMM, register→REG, address and label→MEM) |
| KasmTypes.BuildStagesOrdered | src/libkasm.h:150-156 | the build stages are strictly ordered LOAD_FILE < … < FINALIZE and codes identify stages |
| Classifier.FoldedLetter | src/libkasm.c:27-38 | folding with 0x20 lands in 'a'..'z' exactly for the ASCII letters |
| Classifier.FoldedDigit | src/libkasm.c:41-49 | folding with 0x20 lands in '0'..'9' exactly for the decimal digits and the control bytes 0x10..0x19 |
| Classifier.IsLabelDefShape | src/libkasm.c:12-14 | parse_label_def: the first byte is '@' and the last is ':' |
| Classifier.IsLabelRefShape | src/libkasm.c:17-19 | parse_label_ref: the first byte is '@' |
| Classifier.IsDirectiveShape | src/libkasm.c:22-24 | parse_directive: the first byte is '.' |
| Classifier.IsInstructionShape | src/libkasm.c:27-38 | parse_instruction: every byte, folded with 0x20, lies in 'a'..'z' |
| Classifier.IsRegisterShape | src/libkasm.c:52-65 | parse_register: exactly "pc" or "sp", compared without case folding, or 'r' followed by a decimal parse_number run, possibly empty |
| Classifier.IsImmediateShape | src/libkasm.c:68-80 | parse_immediate: '#', then a hex parse_number run after "0x" (the 'x' folded), else a decimal run after '#' |
| Classifier.IsAddressShape | src/libkasm.c:83-93 | parse_address: at least 4 bytes, "$0x" with the 'x' folded, then a hex parse_number run |
| Classifier.IsCommaShape | src/libkasm.c:96-98 | parse_comma: exactly the one byte ',' |
| Classifier.IsEolShape | src/libkasm.c:101-103 | parse_eol: exactly the one byte '\n' |
| Classifier.IsStringShape | src/libkasm.c:106-108 | parse_string: the first and the last byte are '"' (one '"' alone passes) |
| Classifier.Accepts | src/libkasm.c:110-132 | the call `gTokenTypes[i].can_parse(value, length)`: each table entry's recogniser applied to the token; the zero-filled entry 0 accepts nothing and is never called |
| Classifier.ScanKinds | src/libkasm.c:123-132 | the result is the first kind from index i on whose recogniser accepts the text; None iff none does |
| Classifier.ParseTokenType | src/libkasm.c:123-132 | a kind is returned iff some kind 1..10 accepts the text, and it is the first such; UNKNOWN is never returned |
| Classifier.FirstAcceptingWins | src/libkasm.c:123-132 | a kind that accepts while every earlier kind rejects is the classification |
| Classifier.NotAnInstruction | src/libkasm.c:27-38 | a token whose first byte is no letter fails the instruction recogniser |
| Classifier.InstructionIffLetters | src/libkasm.c:27-38 | a token is an instruction iff all its bytes are ASCII letters |
| Classifier.PcAndSpAreInstructions | src/libkasm.c:52-59 | 'pc', 'sp' and 'r' classify as instructions because the instruction entry precedes the register entry |
| Classifier.RegisterIffRDigits | src/libkasm.c:52-65 | a token is a register iff it is 'r' followed by one or more digit bytes |
| Classifier.NeverAddress | src/libkasm.c:116 | no token is ever classified as an address (its entry uses the immediate recogniser, which the immediate entry already tried) |
| Classifier.DollarTokensAreUnknown | src/libkasm.c:83-93 | every token starting with '$' is unclassifiable |
| Classifier.AddressTextIsUnknown | src/libkasm.c:83-93 | '$0x10' has the address shape yet classifies as nothing |
| Classifier.LabelDefOrRef | src/libkasm.c:12-19 | an '@' token is a label definition iff it ends in ':', and a label reference otherwise |
| Classifier.DirectiveIffDot | src/libkasm.c:22-24 | a token is a directive iff it starts with '.' |
| Classifier.ImmediateIffShape | src/libkasm.c:68-80 | a token is an immediate iff it is '#' then hex digits after '0x', or decimal digits otherwise |
| Classifier.BareHashIsImmediate | src/libkasm.c:68-80 | '#' alone is an immediate (the digit string may be empty) |
| Classifier.BarePrefixIsImmediate | src/libkasm.c:73-74 | '#0x' without digits is an immediate |
| Classifier.HexImmediate | src/libkasm.c:73-74 | '#0xFF' is an immediate |
| Classifier.HexLettersNeedPrefix | src/libkasm.c:76-78 | '#1F' is unclassifiable: hex letters need the '0x' prefix |
| KasmTypes.EolToken | src/libkasm.h:75-83 | create_eol_token: an EOL token whose text is the one byte '\n', at the given line and column |
| KasmTypes.CommaToken | src/libkasm.h:85-93 | create_comma_token: a comma token whose text is the one byte ',', at the given line and column |
| Classifier.CreatedTokensReclassify | src/libkasm.h:75-93 | the tokenizer's own EOL and comma tokens carry one byte and classify back to their own kind |
| Classifier.TokenTypeDefAsWritten | src/libkasm.c:110-121 | gTokenTypes as initialised: each kind's recogniser, type flag and preceding and succeeding masks, with the EOL preceding mask 0b111011 and a zero-filled UNKNOWN entry; get_token_type_def returns these entries unchanged |
| Classifier.TokenTypeDefCorrected | src/libkasm.c:120 | the corrected half of the EOL finding: the same table with the EOL preceding mask 0b110111, "all but comma" |
| Classifier.IsNumber | src/libkasm.c:41-49 | parse_number: every byte, folded with 0x20, is a decimal digit, or a letter a..f when hexadecimal |
| Classifier.CategoryOf | src/libkasm.c:110-121 | each kind's type flag is the flag of its category; UNKNOWN's flag is 0 |
| Classifier.AdjacencyTable | src/libkasm.c:111-120 | in the table as written, a label definition needs EOL on both sides, a comma needs values on both sides, and an instruction is followed by a value or EOL |
| Classifier.EolMaskAsWritten | src/libkasm.c:120 | the EOL preceding mask as written admits every category but VALUE |
| Classifier.EolMaskCorrected | src/libkasm.c:120 | the corrected EOL preceding mask admits every category but COMMA, and no other entry changes |
| Classifier.CString | src/libkasm.c:165 | the C string of a buffer is its prefix before the first NUL |
| Classifier.StrEqualPlain | src/libkasm.c:165 | for NUL-free strings strcmp equality is exact, case-sensitive equality |
| Classifier.FirstMatch | src/libkasm.c:176-192 | the lowest index from `from` whose name is present and equals the value; no earlier one matches |
| Classifier.DirectiveTypes | src/libkasm.c:157-161 | gDirectiveTypes: "org" and "bank" without serialised arguments and "db" with them, indexed by ORG, BANK, DB |
| Classifier.ParseDirectiveType | src/libkasm.c:163-174 | the lowest directive type whose name equals the value, or None iff none equals it |
| Classifier.Mnemonics | src/libkasm.c:177-181 | the mnemonics get_opcode yields for every index below opcodeCount |
| Classifier.ParseOpcodeType | src/libkasm.c:176-192 | the lowest opcode below opcodeCount with a non-NULL mnemonic equal to the value; no earlier one matches |
| Classifier.DirectiveLookups | src/libkasm.c:157-174 | 'org', 'bank' and 'db' resolve to 0, 1 and 2; 'ORG' resolves to nothing |
| Classifier.DirectiveTokenTextNeverResolves | src/libkasm.c:163-174 | a text starting with '.' never names a directive |
| Km8.GetOpcode | targets/km8/km8.c:17-85 | gOpcodes indexed by opcode: mnemonic, operand count and signature of each of the 256 slots, unlisted slots empty |
| Km8.GetOperandSize | targets/km8/km8.c:103-110 | 1 byte for an immediate or a register, 2 for a memory operand, 0 otherwise |
| Km8.Km8Target | targets/km8/km8.c:113-125 | the registered descriptor is valid, has 256 opcodes and its table is gOpcodes |
| Km8.Km8Descriptor | targets/km8/km8.c:103-125 | 256 opcodes, 14 registers, 1-byte immediates and 2-byte addresses, matching get_operand_size |
| Km8.NoOperandOpcodes | targets/km8/km8.c:19-80 | nop, ret and hlt take no operands and have no signature |
| Km8.MnemonicIsLowerWord | targets/km8/km8.c:17-81 | every mnemonic in the table is a non-empty lowercase word |
| Km8.MnemonicsAreInstructions | targets/km8/km8.c:17-81 | every mnemonic in the table classifies as an instruction token |
| Km8.OperandCountsMatchSignatures | targets/km8/km8.c:17-81 | the declared operand count equals the signature length, except push, pop and clr, which declare 2 with a 1-element signature |
| Km8.MatchesMnemonic | targets/km8/km8.c:83-85 | for NUL-free text, a slot matches iff its mnemonic is that text |
| Km8.LdrResolvesToFirstEntry | targets/km8/km8.c:19-21 | 'ldr' resolves to 0x01 (register, memory) and never to 0x02 |
| Km8.AddResolvesToFirstEntry | targets/km8/km8.c:17-45 | 'add' resolves to 0x10, the first of its four entries 0x10, 0x11, 0x20 and 0x21 |
| Lexer.Tokenizer.constructor | src/lexer.c:135-138 | a zero-initialised context with an all-zero buffer appending to the given list |
| Lexer.Tokenizer.ParseToken | src/lexer.c:6-37 | the new context and result are exactly Flush of the old context |
| Lexer.Tokenizer.TokenizeChar | src/lexer.c:43-124 | the new context and result are exactly StepChar of the old context and the byte |
| Lexer.Tokenizer.HandleSemicolon | src/lexer.c:44-51 | follows OnSemicolon: start a comment, flush the pending token |
| Lexer.Tokenizer.HandleBlank | src/lexer.c:53-63 | follows OnBlank: flush, then step the column past the blank |
| Lexer.Tokenizer.HandleNewline | src/lexer.c:65-89 | follows OnNewline: end a comment or flush, then emit EOL and start the next line |
| Lexer.Tokenizer.HandleComma | src/lexer.c:91-110 | follows OnComma: flush, then emit the comma token |
| Lexer.Tokenizer.HandleOther | src/lexer.c:112-123 | follows OnOther: drop in a comment, overflow at 63 bytes, else append |
| Lexer.Tokenizer.TokenizeBuffer | src/lexer.c:39-132 | the context and result after a chunk are RunChars of the old context over it |
| Lexer.Lex | src/lexer.c:134-154 | result and tokens are LexOutcome of the chunks and the read-error flag |
| Lexer.RunCharsAppend | src/lexer.c:126-128 | tokenizing a + b is tokenizing a and then, unless it failed, b: the first failure ends the run |
| Lexer.RunChunksAppend | src/lexer.c:141-148 | the same over chunks: one context is kept across reads and the first failure ends lex |
| Lexer.FlushSpec | src/lexer.c:6-37 | a flush appends exactly one classified token with the pending text, line and starting column and empties the buffer; or it reports TOKEN_UNKNOWN, records the error token and changes neither buffer nor list |
| Lexer.PendingNeverExceeds63 | src/lexer.c:116-119 | the pending token stays below 64 bytes; a plain byte overflows iff 63 are pending, and an overflow changes nothing |
| Lexer.BlankSeparates | src/lexer.c:53-63 | a blank with nothing pending is a no-op; otherwise it emits the pending token and the next one starts one column on |
| Lexer.NewlineEndsLine | src/lexer.c:65-89 | a newline emits one EOL at the current line and column, after the flushed token, and moves to column 0 of the next line outside any comment |
| Lexer.NewlineLosesFlushFailure | src/lexer.c:69-73 | a newline after an unclassifiable token reports OK, emits no EOL, keeps the line and leaves the token pending |
| Lexer.CommentsDropPlainBytesOnly | src/lexer.c:44-123 | ';' opens a comment after flushing; inside it plain bytes are dropped but a comma is still emitted |
| Lexer.StepKeepsWellFormed | src/lexer.c:43-124 | one byte keeps every listed token classified to its own kind and 1..63 bytes long, and only appends |
| Lexer.RunKeepsWellFormed | src/lexer.c:39-132 | the same for a chunk |
| Lexer.ChunksKeepWellFormed | src/lexer.c:134-154 | the same for the whole stream |
| Lexer.LexedTokensAreClassified | src/lexer.c:6-37 | every token lex produces has a kind other than UNKNOWN that its text classifies to, and 1..63 bytes |
| Lexer.ChunkOf256IsSkipped | src/lexer.h:18 | a read of exactly 256 bytes is processed as an empty chunk, since its length is kept in a uint8_t |
| Lexer.PlainBytesAccumulate | src/lexer.c:112-123 | outside a comment, plain bytes append to the pending token one column each |
| Lexer.LastTokenIsDropped | src/lexer.c:150-153 | a word with no final newline yields OK and no token at all |
| Lexer.NewlineAfterWord | src/lexer.c:65-89 | a newline after a classifiable pending token emits it, then the EOL |
| Lexer.NewlineEmitsLastToken | src/lexer.c:39-154 | a word w and a newline lex to [instruction w at 0:0, EOL at line 0, column length of w] |
| Build.LexerFailure | src/libkasm.c:214-234 | every failing tokenizer code maps to a failing build result |
| Build.LexerFailuresStayDistinct | src/libkasm.c:214-234 | distinct lexer failures map to distinct build results, none to UNKNOWN_ERROR; codes beyond the enumeration do |
| Build.StreamErrorCaughtByLex | src/libkasm.c:241-247 | after a read error lex never returns OK, so kasm_build's ferror branch cannot fire |
| Build.BuildContext.constructor | src/libkasm.h:185-198 | a zeroed context for the target |
| Build.BuildContext.KasmBuild | src/libkasm.c:196-256 | an unopened file gives 1, LOAD_FILE, FILE_ERROR; a lex failure gives 1, TOKENIZE and the mapped result; success gives 0 and FINALIZE; the tokens, actions and labels are untouched |
| Parser.ValidateTokenSequence | src/parser.c:7-15 | the base's preceding mask meets the neighbour before's type flag and its succeeding mask meets the neighbour after's |
| Parser.MaskAdmits | src/parser.c:7-15 | a mask meets a kind's flag iff the kind has a category and the mask admits it |
| Parser.ValidateIffAdmitted | src/parser.c:7-15 | validate_token_sequence holds iff the base's masks admit both neighbours' categories |
| Parser.ValidateTokens | src/parser.c:132-154 | for a given token table: OK iff every token fits between its neighbours, with EOL standing in beyond either end; otherwise TOKEN_SEQUENCE_ERROR |
| Parser.RejectedSequences | src/parser.c:132-154 | with the table as written, a list ending in a comma, or holding an UNKNOWN token, is rejected |
| Parser.LabelLinePasses | src/parser.c:132-154 | with the table as written, a label line followed by a bare instruction line passes |
| Parser.MissingCommaRejected | src/parser.c:132-154 | with the table as written, two operands without a comma are rejected |
| Parser.ValueBeforeEolRejected | src/libkasm.c:120 | with the table as written, every token list in which an operand is directly followed by EOL is rejected |
| Parser.OperandBeforeEolAsWritten | src/libkasm.c:120 | with the table as written, "inc r1" and the operand list instruction, register, comma, immediate, EOL are rejected at the EOL, while a comma before EOL passes that check |
| Parser.CommaBeforeEolRejectedCorrected | src/libkasm.c:120 | with the corrected EOL mask, every token list with a comma directly before EOL is rejected |
| Parser.OperandBeforeEolCorrected | src/libkasm.c:120 | with the corrected EOL mask, "inc r1" passes and a comma before EOL is rejected |
| Parser.OperandListPassesCorrected | src/libkasm.c:120 | with the corrected EOL mask, instruction, register, comma, immediate, EOL passes |
| Parser.DigitValue | src/parser.c:62 | a digit's value lies below its base, and a decimal digit's is its offset from '0' |
| Parser.DigitRun | src/parser.c:62 | the length of the longest prefix of digits in the base |
| Parser.BaseOf | src/parser.c:62 | the base and start strtoul picks for base 0, never past the end |
| Parser.StrToUl | src/parser.c:62 | the value is at most ULONG_MAX, and text not starting with a decimal digit reads as 0; the value itself is stated by the round trips below |
| Parser.DigitChar | src/parser.c:62 | a digit below the radix prints as a digit of that radix whose value is the digit |
| Parser.Numeral | src/parser.c:62 | the numeral of n in base 8, 10 or 16: digits of that radix only, no leading zero |
| Parser.NumeralValue | src/parser.c:62 | the digit string of Numeral(n, base) has value n |
| Parser.DecimalRoundTrip | src/parser.c:62 | strtoul reads every decimal numeral back as its value, saturated at ULONG_MAX |
| Parser.HexRoundTrip | src/parser.c:62 | strtoul reads "0x" and every hexadecimal numeral back as its value, saturated at ULONG_MAX |
| Parser.OctalRoundTrip | src/parser.c:62 | strtoul reads '0' and every octal numeral back as its value, saturated at ULONG_MAX |
| Parser.LeadingZeroStopsAtNonOctal | src/parser.c:62 | after a leading '0' an '8' or '9' ends the number, so "08…" and "09…" read as 0 |
| Parser.OctalExample | src/parser.c:62 | "010" is read as octal 8 |
| Parser.HexExample | src/parser.c:62 | "0x1F" is read as 31 |
| Parser.BarePrefixExample | src/parser.c:62 | "0x" with no hex digit is read as 0 |
| Parser.ImmediateWidth | src/parser.c:64-69 | 1, 2 or 4 bytes: the fewest of those that hold the value |
| Parser.ByteImmediates | src/parser.c:64-74 | with 1-byte immediates a value is accepted iff it is at most 255: "255" yields width 1 and "256" width 2 |
| Parser.ParserContext.constructor | src/parser.c:119 | a zero-filled context bound to the build, with no open action and no arguments |
| Parser.ParserContext.DefineLabel | src/parser.c:18-29 | appends a label with the name at the current position; nothing else in the build changes |
| Parser.ParserContext.ParseDirective | src/parser.c:31-43 | MULTIPLE_ACTIONS if an action is open; else opens a DIRECTIVE and keeps the looked-up id, or INVALID_DIRECTIVE; a '.'-prefixed text is always invalid |
| Parser.ParserContext.ParseInstruction | src/parser.c:45-58 | MULTIPLE_ACTIONS if an action is open; else opens an OPCODE with the first matching opcode, or INVALID_INSTRUCTION and no change |
| Parser.ParserContext.ParseImmediate | src/parser.c:60-88 | OK iff the value's width equals the target's immediate size, appending the immediate argument; otherwise IMMEDIATE_OUT_OF_RANGE and nothing changes |
| Parser.KasmParse | src/parser.c:102-155 | empties actions and labels and leaves the tokens, target, stage and results alone; makes a fresh zero-filled context; returns OK iff the token list is a valid sequence under the table as written, else TOKEN_SEQUENCE_ERROR |
| PointerList.RemovedIndexing | src/list.c:41-48 | removal keeps the elements before the index and moves those after it down one place |
| PointerList.RemovedMultiset | src/list.c:41-48 | removal drops exactly one occurrence of the removed element |
| PointerList.List.constructor | src/list.h:7-11 | `List l = { 0 }`: no slots, count and capacity 0 |
| PointerList.List.Init | src/list.c:3-14 | count 0 and capacity 32; a fresh empty slot array, or ALLOC_FAILED and no array |
| PointerList.List.Resize | src/list.c:76-85 | the corrected resize: the contents are kept in a fresh array of the new capacity; a failed realloc loses the array |
| PointerList.List.Add | src/list.c:16-29 | appends the value and doubles the capacity when the add would fill the array; ALLOC_FAILED without an array or when growing fails |
| PointerList.List.Remove | src/list.c:31-62 | NOT_INITIALIZED, OUT_OF_RANGE, or OK with the element removed in order, the vacated slot NULL (Valid: every slot past the count is NULL) and the capacity halved when a quarter or less is used and the realloc succeeds |
| PointerList.List.ShiftDown | src/list.c:42-44 | the elements after the index move down one slot; the rest are untouched |
| PointerList.List.Shrink | src/list.c:51-58 | half the capacity, the same elements |
| PointerList.List.RemoveAll | src/list.c:64-74 | empties the list, or NOT_INITIALIZED for a non-empty list without an array |
| PointerList.List.DisposeChild | src/list.c:87-102 | NOT_INITIALIZED, OUT_OF_RANGE or the element removed |
| PointerList.List.DisposeChildren | src/list.c:104-119 | OK, and a list with an array ends empty |
| PointerList.List.Dispose | src/list.c:121-131 | OK, with every element disposed and the array released |
| PointerList.AddsAsWrittenOverflow | src/list.c:76-85 | with resize as written, 32 adds after init record capacity 64 over 32 slots, so the 33rd add stores past the array |
| PointerList.AddsCorrectedStayInBounds | src/list.c:16-29 | with the corrected resize, any number of adds keeps the slots equal to the capacity and one slot free |

## Left out

- File I/O is not modelled. Whether fopen succeeds, the sequence of reads and whether the stream ended on an error are parameters; fclose and free are not modelled.
- Allocation is not modelled in the lexer, build and parser: every malloc there is taken to succeed. The list's own allocations are explicit boolean inputs.
- The command-line front end, getopt and the km8 `assemble`/`assemble_impl` entry point (printing) are not part of this model.
- The message tables `get_lexer_result_msg`, `get_token_type_name` and `list_result_message` are not modelled; they only map codes to text.
- The parser's `parse_token` dispatch is not modelled: it calls handlers (`parse_register`, `parse_address`, `parse_label`) that the repository does not define, and nothing calls it.
- Parser.ValidateTokens: the loop passes token kinds where table entries are expected (src/parser.c:139,146,149). The model looks each kind up in the token table; Parser.KasmParse does so in gTokenTypes as written, the table `get_token_type_def` returns for the EOL stand-in.
- Parser.ParserContext.ParseImmediate: strtoul is handed the byte after '#' rather than a pointer to it (src/parser.c:62). The model parses the text after '#' in base 0. It takes unsigned long as 32 bits and assumes no leading blank or sign. The argument allocation and its failure path are not modelled.
- Parser.ParserContext.ParseDirective and Parser.ParserContext.ParseInstruction: the looked-up id is written through the address of the action-type byte (src/parser.c:38,50). The model keeps the id in `currentValue` and leaves the action type as DIRECTIVE or OPCODE.
- Functions that fall off their end without a return (src/libkasm.c:256, src/parser.c:88, src/parser.c:155) are modelled as returning success.
- Integer widths are unbounded in the model: the wrap-around of the uint32 line, column, count and capacity fields and of the uint16 opcode index is not modelled.
- A NULL list pointer (LIST_NULL_REFRENCE) is not modelled, because a Dafny receiver is never null.
- PointerList.List.Resize: requires an existing array and a new capacity above the count, which are the only calls the list makes.
- PointerList.List.RemoveAll, PointerList.List.DisposeChild, PointerList.List.DisposeChildren and PointerList.List.Dispose: their contracts do not state the capacity left behind by repeated shrinking. Freeing the element pointers is not modelled.
- The token that fails classification is stored with kind UNKNOWN; in the source its type byte is left uninitialised.
- The lexer ignores the results of its own `list_add` calls for EOL and comma tokens. The model's token list is a sequence that always accepts them.
- Lexer.Lex takes non-empty chunks of any length; the source never reads more than 1024 bytes at once, and its read loop stops at the first empty read.
- `kasm_build` never calls `kasm_parse` and never stores the lexed tokens in the context. The model keeps both as written, with KasmParse as a separate operation over the context's token list.
- `gParserContext` is a global in the source; the model returns the context from KasmParse instead.

## Findings

| source | as written | input that shows it | evidently intended | confidence | as-written member | corrected member |
|---|---|---|---|---|---|---|
| src/libkasm.c:120 | the EOL entry's preceding mask is 0b111011, which admits COMMA and leaves out VALUE | "inc r1" and a newline: tokens instruction, register, EOL fail the check at the EOL (TOKEN_SEQUENCE_ERROR) | 0b110111, "all but comma" as the comment says | not executed | Parser.OperandBeforeEolAsWritten | Parser.OperandBeforeEolCorrected |
| src/list.c:77 | list_resize passes the old capacity to realloc and then records the new one | list_init then 33 list_add calls: the 32nd records capacity 64 over 32 slots, and the 33rd writes slot 32 of 32 | realloc to the requested capacity | not executed | PointerList.AddsAsWrittenOverflow | PointerList.AddsCorrectedStayInBounds |
