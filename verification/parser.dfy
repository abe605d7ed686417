/**
 * The parser (src/parser.c, src/parser.h): the adjacency check over the
 * token list, and the handlers that fold tokens into the parser context
 * (label definitions, directives, instructions and immediates).
 */
module Parser {
  import opened KasmTypes
  import opened Classifier
  import opened Build

  // ---------------------------------------------------------------------------
  // Token sequence validation

  /** validate_token_sequence: the neighbour before must carry a flag the
      base's preceding mask admits, and the neighbour after one its succeeding
      mask admits. */
  predicate ValidateTokenSequence(base: TokenTypeDef, preceding: TokenTypeDef, succeeding: TokenTypeDef)
  {
    base.precedingFlag & preceding.typeFlag != 0 && base.succeedingFlag & succeeding.typeFlag != 0
  }

  /** A mask test is membership: a kind's flag meets the mask exactly when
      the kind has a category and the mask admits it. UNKNOWN, whose flag is
      zero, meets no mask. */
  lemma MaskAdmits(mask: bv8, k: TokenKind)
    ensures mask & TokenTypeDefAsWritten(k).typeFlag != 0 <==> CategoryOf(k).Some? && CategoryOf(k).value in Admitted(mask)
  {
    var c := CategoryOf(k);
    if c.Some? {
      assert c.value in AllCategories;
    }
  }

  /** validate_token_sequence with neighbours from gTokenTypes holds exactly
      when the base's masks admit the categories of both neighbours. */
  lemma ValidateIffAdmittedBy(b: TokenTypeDef, preceding: TokenKind, succeeding: TokenKind)
    ensures ValidateTokenSequence(b, TokenTypeDefAsWritten(preceding), TokenTypeDefAsWritten(succeeding)) <==>
      && CategoryOf(preceding).Some? && CategoryOf(preceding).value in Admitted(b.precedingFlag)
      && CategoryOf(succeeding).Some? && CategoryOf(succeeding).value in Admitted(b.succeedingFlag)
  {
    MaskAdmits(b.precedingFlag, preceding);
    MaskAdmits(b.succeedingFlag, succeeding);
  }

  /** So validate_token_sequence on entries of gTokenTypes holds exactly when
      the base's masks admit the categories of both neighbours. */
  lemma ValidateIffAdmitted(base: TokenKind, preceding: TokenKind, succeeding: TokenKind)
    ensures ValidateTokenSequence(TokenTypeDefAsWritten(base), TokenTypeDefAsWritten(preceding), TokenTypeDefAsWritten(succeeding)) <==>
      && CategoryOf(preceding).Some? && CategoryOf(preceding).value in Admitted(TokenTypeDefAsWritten(base).precedingFlag)
      && CategoryOf(succeeding).Some? && CategoryOf(succeeding).value in Admitted(TokenTypeDefAsWritten(base).succeedingFlag)
  {
    ValidateIffAdmittedBy(TokenTypeDefAsWritten(base), preceding, succeeding);
  }

  function Kinds(tokens: seq<Token>): (kinds: seq<TokenKind>)
    ensures |kinds| == |tokens|
    ensures forall i :: 0 <= i < |tokens| ==> kinds[i] == tokens[i].kind
  {
    seq(|tokens|, i requires 0 <= i < |tokens| => tokens[i].kind)
  }

  /** The kind kasm_parse checks before position i: the previous token's, or
      EOL at the start of the list. */
  function Before(kinds: seq<TokenKind>, i: nat): TokenKind
    requires i < |kinds|
  {
    if i > 0 then kinds[i - 1] else Eol
  }

  /** The kind kasm_parse checks after position i: the next token's, or EOL
      at the end of the list. */
  function After(kinds: seq<TokenKind>, i: nat): TokenKind
    requires i < |kinds|
  {
    if i + 1 < |kinds| then kinds[i + 1] else Eol
  }

  /** Token i passes validate_token_sequence under the token table `table`. */
  predicate FitsAt(table: TokenKind -> TokenTypeDef, kinds: seq<TokenKind>, i: nat)
    requires i < |kinds|
  {
    ValidateTokenSequence(table(kinds[i]), table(Before(kinds, i)), table(After(kinds, i)))
  }

  /** A token list kasm_parse accepts under `table`: every token fits between
      its neighbours. */
  predicate ValidSequence(table: TokenKind -> TokenTypeDef, kinds: seq<TokenKind>)
  {
    forall i :: 0 <= i < |kinds| ==> FitsAt(table, kinds, i)
  }

  /** The validation loop of kasm_parse over the token table `table`:
      TOKEN_SEQUENCE_ERROR at the first token that does not fit between its
      neighbours. */
  method ValidateTokens(table: TokenKind -> TokenTypeDef, tokens: seq<Token>) returns (r: ParserResult)
    ensures r == ParserOk || r == SequenceError
    ensures r == ParserOk <==> ValidSequence(table, Kinds(tokens))
  {
    var kinds := Kinds(tokens);
    var i := 0;
    while i < |tokens|
      invariant 0 <= i <= |tokens|
      invariant forall j :: 0 <= j < i ==> FitsAt(table, kinds, j)
    {
      var base := table(tokens[i].kind);
      var precedingType := table(Eol);
      if i > 0 {
        precedingType := table(tokens[i - 1].kind);
      }
      var succeedingType := table(Eol);
      if i < |tokens| - 1 {
        succeedingType := table(tokens[i + 1].kind);
      }
      if !ValidateTokenSequence(base, precedingType, succeedingType) {
        assert !FitsAt(table, kinds, i);
        return SequenceError;
      }
      i := i + 1;
    }
    r := ParserOk;
  }

  /** A comma must sit between two values, so a list ending in a comma, or
      holding an UNKNOWN token, is rejected. */
  lemma RejectedSequences(kinds: seq<TokenKind>)
    ensures |kinds| > 0 && kinds[|kinds| - 1] == Comma ==> !ValidSequence(TokenTypeDefAsWritten, kinds)
    ensures Unknown in kinds ==> !ValidSequence(TokenTypeDefAsWritten, kinds)
  {
    if |kinds| > 0 && kinds[|kinds| - 1] == Comma {
      assert !FitsAt(TokenTypeDefAsWritten, kinds, |kinds| - 1);
    }
    if Unknown in kinds {
      var i :| 0 <= i < |kinds| && kinds[i] == Unknown;
      assert !FitsAt(TokenTypeDefAsWritten, kinds, i);
    }
  }

  /** A label on its own line, then a bare instruction on the next, passes. */
  lemma LabelLinePasses()
    ensures ValidSequence(TokenTypeDefAsWritten, [LabelDef, Eol, Instruction, Eol])
  {
    var a := [LabelDef, Eol, Instruction, Eol];
    assert FitsAt(TokenTypeDefAsWritten, a, 0) && FitsAt(TokenTypeDefAsWritten, a, 1);
    assert FitsAt(TokenTypeDefAsWritten, a, 2) && FitsAt(TokenTypeDefAsWritten, a, 3);
  }

  /** Two operands without a comma between them are rejected. */
  lemma MissingCommaRejected()
    ensures !ValidSequence(TokenTypeDefAsWritten, [Instruction, Register, Immediate, Eol])
  {
    assert !FitsAt(TokenTypeDefAsWritten, [Instruction, Register, Immediate, Eol], 1);
  }

  predicate IsValueKind(k: TokenKind)
  {
    k == Register || k == Immediate || k == Address || k == LabelRef
  }

  /** With the table as written, no token list in which an end of line
      follows an operand passes: every instruction line with operands is
      rejected at its end of line. */
  lemma ValueBeforeEolRejected(kinds: seq<TokenKind>, i: nat)
    requires 0 < i < |kinds| && kinds[i] == Eol && IsValueKind(kinds[i - 1])
    ensures !ValidSequence(TokenTypeDefAsWritten, kinds)
  {
    assert !FitsAt(TokenTypeDefAsWritten, kinds, i);
  }

  /** With the table as written, a line that ends in an operand fails at its
      end of line ("inc r1" then a newline is rejected, and so is an operand
      list), while one that ends in a comma passes that check. */
  lemma OperandBeforeEolAsWritten()
    ensures !ValidSequence(TokenTypeDefAsWritten, [Instruction, Register, Eol])
    ensures !ValidSequence(TokenTypeDefAsWritten, [Instruction, Register, Comma, Immediate, Eol])
    ensures FitsAt(TokenTypeDefAsWritten, [Register, Comma, Eol], 2)
  {
    ValueBeforeEolRejected([Instruction, Register, Eol], 2);
    ValueBeforeEolRejected([Instruction, Register, Comma, Immediate, Eol], 4);
  }

  /** With the EOL mask corrected, an end of line after a comma is always
      rejected. */
  lemma CommaBeforeEolRejectedCorrected(kinds: seq<TokenKind>, i: nat)
    requires 0 < i < |kinds| && kinds[i] == Eol && kinds[i - 1] == Comma
    ensures !ValidSequence(TokenTypeDefCorrected, kinds)
  {
    assert !FitsAt(TokenTypeDefCorrected, kinds, i);
  }

  /** With the EOL mask corrected, "inc r1" passes, and a line ending in a
      comma is rejected at its end of line. */
  lemma OperandBeforeEolCorrected()
    ensures ValidSequence(TokenTypeDefCorrected, [Instruction, Register, Eol])
    ensures !FitsAt(TokenTypeDefCorrected, [Register, Comma, Eol], 2)
  {
    var a := [Instruction, Register, Eol];
    assert FitsAt(TokenTypeDefCorrected, a, 0);
    assert FitsAt(TokenTypeDefCorrected, a, 1);
    assert FitsAt(TokenTypeDefCorrected, a, 2);
  }

  /** With the EOL mask corrected, an instruction with a comma-separated
      operand list passes. */
  lemma OperandListPassesCorrected()
    ensures ValidSequence(TokenTypeDefCorrected, [Instruction, Register, Comma, Immediate, Eol])
  {
    var b := [Instruction, Register, Comma, Immediate, Eol];
    assert FitsAt(TokenTypeDefCorrected, b, 0);
    assert FitsAt(TokenTypeDefCorrected, b, 1);
    assert FitsAt(TokenTypeDefCorrected, b, 2);
    assert FitsAt(TokenTypeDefCorrected, b, 3);
    assert FitsAt(TokenTypeDefCorrected, b, 4);
  }

  // ---------------------------------------------------------------------------
  // Numbers

  /** ULONG_MAX of a 32-bit unsigned long: strtoul saturates to it. */
  const ULONG_MAX: nat := 0xFFFF_FFFF

  predicate IsDigitIn(c: char, base: nat)
  {
    if base == 16 then '0' <= c <= '9' || 'a' <= c <= 'f' || 'A' <= c <= 'F'
    else if base == 8 then '0' <= c <= '7'
    else '0' <= c <= '9'
  }

  function DigitValue(c: char): (v: nat)
    ensures IsDigitIn(c, 16) ==> v < 16
    ensures IsDigitIn(c, 10) ==> v < 10 && v == c as nat - '0' as nat
    ensures IsDigitIn(c, 8) ==> v < 8
  {
    if '0' <= c <= '9' then c as nat - '0' as nat
    else if 'a' <= c <= 'f' then c as nat - 'a' as nat + 10
    else if 'A' <= c <= 'F' then c as nat - 'A' as nat + 10
    else 0
  }

  /** The length of the longest prefix of `s` made of digits in `base`. */
  function DigitRun(s: seq<char>, base: nat): (n: nat)
    ensures n <= |s|
    ensures forall k :: 0 <= k < n ==> IsDigitIn(s[k], base)
    ensures n < |s| ==> !IsDigitIn(s[n], base)
  {
    if s == [] || !IsDigitIn(s[0], base) then 0
    else 1 + DigitRun(s[1..], base)
  }

  /** The value of a digit string, most significant digit first. */
  function ValueOf(s: seq<char>, base: nat): nat
  {
    if s == [] then 0 else ValueOf(s[..|s| - 1], base) * base + DigitValue(s[|s| - 1])
  }

  /** The base strtoul picks for base 0 and where its digits start: "0x" or
      "0X" followed by a hex digit selects 16, another leading '0' selects 8,
      anything else 10. */
  function BaseOf(s: seq<char>): (p: (nat, nat))
    ensures p.1 <= |s|
  {
    if |s| >= 3 && s[0] == '0' && (s[1] == 'x' || s[1] == 'X') && IsDigitIn(s[2], 16) then (16, 2)
    else if |s| >= 1 && s[0] == '0' then (8, 0)
    else (10, 0)
  }

  /** strtoul(s, NULL, 0) on text with no leading blank or sign: the value of
      the longest run of digits in the chosen base, saturated at ULONG_MAX.
      Text that does not start with a decimal digit converts nothing and
      reads as 0. */
  function StrToUl(s: seq<char>): (v: nat)
    ensures v <= ULONG_MAX
    ensures |s| == 0 || !IsDigitIn(s[0], 10) ==> v == 0
  {
    var (base, start) := BaseOf(s);
    var digits := s[start..];
    var n := ValueOf(digits[..DigitRun(digits, base)], base);
    if n > ULONG_MAX then ULONG_MAX else n
  }

  /** The radixes strtoul can pick for base 0. */
  predicate IsRadix(base: nat)
  {
    base == 8 || base == 10 || base == 16
  }

  /** The digit character of `d`, lower-case beyond 9. */
  function DigitChar(d: nat, base: nat): (c: char)
    requires IsRadix(base) && d < base
    ensures IsDigitIn(c, base) && DigitValue(c) == d
  {
    if d < 10 then ('0' as nat + d) as char else ('a' as nat + d - 10) as char
  }

  /** The numeral of n in `base`, without leading zeros. */
  function Numeral(n: nat, base: nat): (s: seq<char>)
    requires IsRadix(base)
    ensures |s| > 0 && forall k :: 0 <= k < |s| ==> IsDigitIn(s[k], base)
    ensures n > 0 ==> s[0] != '0'
    decreases n
  {
    if n < base then [DigitChar(n, base)]
    else Numeral(n / base, base) + [DigitChar(n % base, base)]
  }

  lemma {:induction false} NumeralValue(n: nat, base: nat)
    requires IsRadix(base)
    ensures ValueOf(Numeral(n, base), base) == n
    decreases n
  {
    if n >= base {
      var s := Numeral(n, base);
      assert s[..|s| - 1] == Numeral(n / base, base);
      NumeralValue(n / base, base);
    }
  }

  /** A leading zero does not change the value of a digit string. */
  lemma {:induction false} LeadingZeroValue(s: seq<char>, base: nat)
    ensures ValueOf(['0'] + s, base) == ValueOf(s, base)
    decreases |s|
  {
    if s != [] {
      var z := ['0'] + s;
      assert z[..|z| - 1] == ['0'] + s[..|s| - 1];
      LeadingZeroValue(s[..|s| - 1], base);
    } else {
      assert (['0'] + s)[..0] == [];
    }
  }

  lemma {:induction false} WholeRun(s: seq<char>, base: nat)
    requires forall k :: 0 <= k < |s| ==> IsDigitIn(s[k], base)
    ensures DigitRun(s, base) == |s|
    decreases |s|
  {
    if s != [] {
      WholeRun(s[1..], base);
    }
  }

  /** strtoul reads back every decimal numeral it could print, up to the
      saturation bound. */
  lemma DecimalRoundTrip(n: nat)
    ensures StrToUl(Numeral(n, 10)) == if n > ULONG_MAX then ULONG_MAX else n
  {
    var s := Numeral(n, 10);
    WholeRun(s, 10);
    NumeralValue(n, 10);
    if n == 0 {
      assert s == ['0'];
      assert BaseOf(s) == (8, 0);
      assert s[0..] == s;
      assert DigitRun(s, 8) == 1;
      assert s[..1] == s;
      assert ValueOf(s, 8) == ValueOf([], 8) * 8 + 0;
    } else {
      assert BaseOf(s) == (10, 0);
      assert s[0..] == s;
      assert s[..|s|] == s;
    }
  }

  /** strtoul reads back every "0x" hexadecimal numeral, up to the
      saturation bound. */
  lemma HexRoundTrip(n: nat)
    ensures StrToUl("0x" + Numeral(n, 16)) == if n > ULONG_MAX then ULONG_MAX else n
  {
    var h := Numeral(n, 16);
    var s := "0x" + h;
    assert s[2] == h[0];
    assert BaseOf(s) == (16, 2);
    assert s[2..] == h;
    WholeRun(h, 16);
    assert h[..|h|] == h;
    NumeralValue(n, 16);
  }

  /** strtoul reads back every octal numeral behind a leading zero, up to the
      saturation bound. */
  lemma OctalRoundTrip(n: nat)
    ensures StrToUl("0" + Numeral(n, 8)) == if n > ULONG_MAX then ULONG_MAX else n
  {
    var o := Numeral(n, 8);
    var s := "0" + o;
    assert s[1] == o[0];
    assert BaseOf(s) == (8, 0);
    assert s[0..] == s;
    assert forall k :: 0 <= k < |s| ==> IsDigitIn(s[k], 8) by {
      forall k | 0 <= k < |s| ensures IsDigitIn(s[k], 8) {
        if k > 0 {
          assert s[k] == o[k - 1];
        }
      }
    }
    WholeRun(s, 8);
    assert s[..|s|] == s;
    LeadingZeroValue(o, 8);
    NumeralValue(n, 8);
  }

  /** After a leading zero the digits are octal, so an 8 or a 9 ends the
      number: "09" and "08" read as 0. */
  lemma LeadingZeroStopsAtNonOctal(s: seq<char>)
    requires |s| >= 2 && s[0] == '0' && (s[1] == '8' || s[1] == '9')
    ensures StrToUl(s) == 0
  {
    assert BaseOf(s) == (8, 0);
    assert s[0..] == s;
    assert DigitRun(s, 8) == 1 by {
      assert s[1..][0] == s[1];
    }
    assert s[..1] == ['0'] && s[..1][..0] == [];
    assert ValueOf(s[..1], 8) == ValueOf([], 8) * 8 + DigitValue('0');
  }

  /** A leading zero makes the digits octal: "010" is 8. */
  lemma OctalExample()
    ensures StrToUl("010") == 8
  {
    var s := "010";
    assert BaseOf(s) == (8, 0);
    assert s[0..] == s;
    assert DigitRun(s, 8) == 3 by {
      assert s[1..] == "10" && s[1..][1..] == "0" && s[1..][1..][1..] == [];
    }
    assert s[..3] == s;
    assert s[..2] == "01" && s[..2][..1] == "0" && s[..2][..1][..0] == [];
    assert ValueOf("0", 8) == 0;
    assert ValueOf("01", 8) == 1;
  }

  /** "0x" followed by a hex digit selects base 16: "0x1F" is 31. */
  lemma HexExample()
    ensures StrToUl("0x1F") == 31
  {
    var s := "0x1F";
    assert BaseOf(s) == (16, 2);
    var d := s[2..];
    assert d == "1F";
    assert DigitRun(d, 16) == 2 by {
      assert d[1..] == "F" && d[1..][1..] == [];
    }
    assert d[..2] == d;
    assert d[..1] == "1" && d[..1][..0] == [];
    assert ValueOf("1", 16) == 1;
  }

  /** "0x" with no hex digit after it is read as the octal numeral "0". */
  lemma BarePrefixExample()
    ensures StrToUl("0x") == 0
  {
    var s := "0x";
    assert BaseOf(s) == (8, 0);
    assert s[0..] == s;
    assert DigitRun(s, 8) == 1 by {
      assert s[1..] == "x";
    }
    assert s[..1] == "0" && s[..1][..0] == [];
    assert ValueOf("0", 8) == 0;
  }

  /** 256 to the power w: the values w bytes hold. */
  function ByteRange(w: nat): nat
  {
    if w == 0 then 1 else 256 * ByteRange(w - 1)
  }

  /** The immediate's size in bytes as parse_immediate computes it: the
      fewest of 1, 2 and 4 bytes that hold the value. */
  function ImmediateWidth(value: nat): (w: nat)
    requires value <= ULONG_MAX
    ensures w == 1 || w == 2 || w == 4
    ensures value < ByteRange(w)
    ensures forall k :: 1 <= k < w && (k == 1 || k == 2) ==> value >= ByteRange(k)
  {
    if value <= 0xFF then 1
    else if value <= 0xFFFF then 2
    else 4
  }

  // ---------------------------------------------------------------------------
  // The parser context

  class ParserContext {
    const build: BuildContext
    var currentPosition: nat
    var currentActionType: nat
    var currentValue: nat
    var currentArguments: seq<Argument>

    /** The zero-filled context kasm_parse allocates, with an empty argument
        list. */
    constructor (build: BuildContext)
      ensures this.build == build && currentPosition == 0
      ensures currentActionType == ActionNone.Code() && currentValue == 0
      ensures currentArguments == []
    {
      this.build := build;
      currentPosition := 0;
      currentActionType := ActionNone.Code();
      currentValue := 0;
      currentArguments := [];
    }

    /** define_label: record `name` at the current position in the build's
        label table. */
    method DefineLabel(name: seq<char>) returns (r: ParserResult)
      modifies build
      ensures r == ParserOk
      ensures build.labels == old(build.labels) + [Label(name, currentPosition)]
      ensures build.target == old(build.target) && build.tokens == old(build.tokens)
      ensures build.actions == old(build.actions)
      ensures build.buildState == old(build.buildState)
      ensures build.assemblerResult == old(build.assemblerResult)
      ensures build.tokenizerResult == old(build.tokenizerResult)
    {
      build.labels := build.labels + [Label(name, currentPosition)];
      r := ParserOk;
    }

    /** parse_directive: only one action per line; a directive opens a
        DIRECTIVE action and the directive type found for the token text is
        kept as the current value. */
    method ParseDirective(token: Token) returns (r: ParserResult)
      modifies this
      ensures currentPosition == old(currentPosition) && currentArguments == old(currentArguments)
      ensures old(currentActionType) != ActionNone.Code() ==>
        r == MultipleActions && currentActionType == old(currentActionType) && currentValue == old(currentValue)
      ensures old(currentActionType) == ActionNone.Code() ==>
        currentActionType == ActionDirective.Code() &&
        match ParseDirectiveType(token.text)
        case None => r == InvalidDirective && currentValue == old(currentValue)
        case Some(id) => r == ParserOk && currentValue == id
      ensures old(currentActionType) == ActionNone.Code() && |token.text| > 0 && token.text[0] == '.' ==>
        r == InvalidDirective
    {
      if currentActionType != ActionNone.Code() {
        return MultipleActions;
      }
      currentActionType := ActionDirective.Code();
      var id := ParseDirectiveType(token.text);
      if |token.text| > 0 && token.text[0] == '.' {
        DirectiveTokenTextNeverResolves(token.text);
      }
      if id.None? {
        return InvalidDirective;
      }
      currentValue := id.value;
      r := ParserOk;
    }

    /** parse_instruction: only one action per line; an instruction naming an
        opcode of the target opens an OPCODE action with the first matching
        opcode as the current value, anything else is INVALID_INSTRUCTION and
        changes nothing. */
    method ParseInstruction(token: Token) returns (r: ParserResult)
      requires build.target.Valid()
      modifies this
      ensures currentPosition == old(currentPosition) && currentArguments == old(currentArguments)
      ensures old(currentActionType) != ActionNone.Code() ==>
        r == MultipleActions && currentActionType == old(currentActionType) && currentValue == old(currentValue)
      ensures old(currentActionType) == ActionNone.Code() ==>
        match ParseOpcodeType(build.target, token.text)
        case Some(id) => r == ParserOk && currentActionType == ActionOpcode.Code() && currentValue == id
        case None => r == InvalidInstruction && currentActionType == ActionNone.Code() && currentValue == old(currentValue)
    {
      if currentActionType != ActionNone.Code() {
        return MultipleActions;
      }
      var id := ParseOpcodeType(build.target, token.text);
      if id.Some? {
        currentValue := id.value;
        currentActionType := ActionOpcode.Code();
        return ParserOk;
      }
      r := InvalidInstruction;
    }

    /** parse_immediate: the value after '#' must need exactly the target's
        immediate width; it is then appended to the current arguments. */
    method ParseImmediate(token: Token) returns (r: ParserResult)
      requires |token.text| > 0
      modifies this
      ensures currentPosition == old(currentPosition) && currentValue == old(currentValue)
      ensures currentActionType == old(currentActionType)
      ensures r == ParserOk || r == ImmediateOutOfRange
      ensures r == ParserOk <==> ImmediateWidth(StrToUl(token.text[1..])) == build.target.immediateSize
      ensures r == ParserOk ==>
        currentArguments == old(currentArguments) + [Argument(ArgImmediate, StrToUl(token.text[1..]))]
      ensures r != ParserOk ==> currentArguments == old(currentArguments)
    {
      var value := StrToUl(token.text[1..]);
      var size := ImmediateWidth(value);
      if build.target.immediateSize != size {
        return ImmediateOutOfRange;
      }
      currentArguments := currentArguments + [Argument(ArgImmediate, value)];
      r := ParserOk;
    }
  }

  /** With one-byte immediates an immediate is accepted exactly when its value
      is at most 255: "#255" passes and "#256" does not. */
  lemma ByteImmediates(text: seq<char>)
    ensures ImmediateWidth(StrToUl(text)) == 1 <==> StrToUl(text) <= 0xFF
    ensures ImmediateWidth(StrToUl(Numeral(255, 10))) == 1
    ensures ImmediateWidth(StrToUl(Numeral(256, 10))) == 2
  {
    DecimalRoundTrip(255);
    DecimalRoundTrip(256);
  }

  /** kasm_parse: empty action and label lists, a fresh zero-filled context,
      then the validation loop over gTokenTypes as written. */
  method KasmParse(build: BuildContext) returns (r: ParserResult, context: ParserContext)
    modifies build
    ensures build.actions == [] && build.labels == []
    ensures build.tokens == old(build.tokens) && build.target == old(build.target)
    ensures build.buildState == old(build.buildState)
    ensures build.assemblerResult == old(build.assemblerResult)
    ensures build.tokenizerResult == old(build.tokenizerResult)
    ensures fresh(context) && context.build == build
    ensures context.currentPosition == 0 && context.currentValue == 0
    ensures context.currentActionType == ActionNone.Code() && context.currentArguments == []
    ensures r == ParserOk || r == SequenceError
    ensures r == ParserOk <==> ValidSequence(TokenTypeDefAsWritten, Kinds(build.tokens))
  {
    build.actions := [];
    build.labels := [];
    context := new ParserContext(build);
    r := ValidateTokens(TokenTypeDefAsWritten, build.tokens);
  }
}
