/**
 * Token classification (src/libkasm.c): the shape recognisers, the ordered
 * table of token kinds with their adjacency masks, the first-match scan over
 * that table, and the exact-name lookups in the directive table and in a
 * target's opcode table.
 *
 * A recogniser receives the pending-token buffer and its length. The buffer is
 * 64 bytes and zero beyond the token, so reading past the token's end yields
 * '\0' (`At`). Each Dafny `char` stands for one byte of the source file.
 */
module Classifier {
  import opened KasmTypes

  // ---------------------------------------------------------------------------
  // Bytes

  /** Byte `i` of the zero-padded token buffer holding `t`. */
  function At(t: seq<char>, i: nat): char
  {
    if i < |t| then t[i] else '\0'
  }

  /** The byte value of `c | 0x20`, the case fold the recognisers use. */
  function Fold(c: char): int
  {
    var x := c as int;
    if (x / 32) % 2 == 1 then x else x + 32
  }

  predicate IsAsciiLetter(c: char)
  {
    'a' <= c <= 'z' || 'A' <= c <= 'Z'
  }

  /** Folding maps exactly the ASCII letters into 'a'..'z'. */
  lemma FoldedLetter(c: char)
    ensures 'a' as int <= Fold(c) <= 'z' as int <==> IsAsciiLetter(c)
  {
  }

  /** Folding maps into '0'..'9' the decimal digits and also the control bytes
      0x10..0x19, which therefore pass every digit test below. */
  lemma FoldedDigit(c: char)
    ensures '0' as int <= Fold(c) <= '9' as int <==> ('0' <= c <= '9' || 0x10 <= c as int <= 0x19)
  {
  }

  /** The byte test of parse_number. */
  predicate IsNumberChar(c: char, hex: bool)
  {
    var f := Fold(c);
    ('0' as int <= f <= '9' as int) || ('a' as int <= f <= 'f' as int && hex)
  }

  /** parse_number: every byte is a digit of the base (an empty string passes). */
  predicate IsNumber(s: seq<char>, hex: bool)
  {
    forall i :: 0 <= i < |s| ==> IsNumberChar(s[i], hex)
  }

  // ---------------------------------------------------------------------------
  // Shape recognisers (the parse_* handlers of the token table)

  predicate IsLabelDefShape(t: seq<char>)
    requires |t| > 0
  {
    At(t, 0) == '@' && t[|t| - 1] == ':'
  }

  predicate IsLabelRefShape(t: seq<char>)
  {
    At(t, 0) == '@'
  }

  predicate IsDirectiveShape(t: seq<char>)
  {
    At(t, 0) == '.'
  }

  predicate IsInstructionShape(t: seq<char>)
  {
    forall i :: 0 <= i < |t| ==> 'a' as int <= Fold(t[i]) <= 'z' as int
  }

  predicate IsRegisterShape(t: seq<char>)
    requires |t| > 0
  {
    if At(t, 0) == 'p' && At(t, 1) == 'c' && |t| == 2 then true
    else if At(t, 0) == 's' && At(t, 1) == 'p' && |t| == 2 then true
    else At(t, 0) == 'r' && IsNumber(t[1..], false)
  }

  predicate IsImmediateShape(t: seq<char>)
    requires |t| > 0
  {
    && At(t, 0) == '#'
    && if At(t, 1) == '0' && Fold(At(t, 2)) == 'x' as int then IsNumber(t[3..], true)
       else IsNumber(t[1..], false)
  }

  predicate IsAddressShape(t: seq<char>)
  {
    && |t| >= 4
    && t[0] == '$' && t[1] == '0' && Fold(t[2]) == 'x' as int
    && IsNumber(t[3..], true)
  }

  predicate IsCommaShape(t: seq<char>)
  {
    At(t, 0) == ',' && |t| == 1
  }

  predicate IsEolShape(t: seq<char>)
  {
    At(t, 0) == '\n' && |t| == 1
  }

  predicate IsStringShape(t: seq<char>)
    requires |t| > 0
  {
    At(t, 0) == '"' && t[|t| - 1] == '"'
  }

  /** The handler a table entry points at (NoRecogniser: the empty entry 0). */
  datatype Recogniser =
    | NoRecogniser | LabelDefShape | DirectiveShape | InstructionShape | RegisterShape
    | ImmediateShape | AddressShape | LabelRefShape | CommaShape | EolShape | StringShape

  predicate Accepts(r: Recogniser, t: seq<char>)
    requires |t| > 0
  {
    match r
    case NoRecogniser => false
    case LabelDefShape => IsLabelDefShape(t)
    case DirectiveShape => IsDirectiveShape(t)
    case InstructionShape => IsInstructionShape(t)
    case RegisterShape => IsRegisterShape(t)
    case ImmediateShape => IsImmediateShape(t)
    case AddressShape => IsAddressShape(t)
    case LabelRefShape => IsLabelRefShape(t)
    case CommaShape => IsCommaShape(t)
    case EolShape => IsEolShape(t)
    case StringShape => IsStringShape(t)
  }

  // ---------------------------------------------------------------------------
  // The token table gTokenTypes

  /** A kind's recogniser, its own category flag and the masks of categories
      allowed immediately before and after it. */
  datatype TokenTypeDef = TokenTypeDef(recogniser: Recogniser, typeFlag: bv8, precedingFlag: bv8, succeedingFlag: bv8)

  /** gTokenTypes as initialised, which get_token_type_def returns entry by
      entry; entry 0 is zero-filled. The EOL entry's preceding mask is
      0b111011, which admits COMMA and leaves out VALUE, although its comment
      reads "all but comma". */
  function TokenTypeDefAsWritten(k: TokenKind): TokenTypeDef
  {
    match k
    case Unknown => TokenTypeDef(NoRecogniser, 0, 0, 0)
    case LabelDef => TokenTypeDef(LabelDefShape, LabelCat.Flag(), EolCat.Flag(), EolCat.Flag())
    case Directive => TokenTypeDef(DirectiveShape, ActionCat.Flag(), EolCat.Flag(), ValueCat.Flag() | StringCat.Flag() | EolCat.Flag())
    case Instruction => TokenTypeDef(InstructionShape, ActionCat.Flag(), EolCat.Flag(), ValueCat.Flag() | EolCat.Flag())
    case Register => TokenTypeDef(RegisterShape, ValueCat.Flag(), ActionCat.Flag() | CommaCat.Flag(), CommaCat.Flag() | EolCat.Flag())
    case Immediate => TokenTypeDef(ImmediateShape, ValueCat.Flag(), ActionCat.Flag() | CommaCat.Flag(), CommaCat.Flag() | EolCat.Flag())
    // the address entry points at the immediate recogniser, not the address one
    case Address => TokenTypeDef(ImmediateShape, ValueCat.Flag(), ActionCat.Flag() | CommaCat.Flag(), CommaCat.Flag() | EolCat.Flag())
    case LabelRef => TokenTypeDef(LabelRefShape, ValueCat.Flag(), ActionCat.Flag() | CommaCat.Flag(), CommaCat.Flag() | EolCat.Flag())
    case Comma => TokenTypeDef(CommaShape, CommaCat.Flag(), ValueCat.Flag(), ValueCat.Flag())
    case Str => TokenTypeDef(StringShape, StringCat.Flag(), ActionCat.Flag(), EolCat.Flag())
    case Eol => TokenTypeDef(EolShape, EolCat.Flag(), 0x3B, LabelCat.Flag() | ActionCat.Flag() | EolCat.Flag())
  }

  /** The preceding mask the EOL entry's comment describes: every category
      but COMMA, 0b110111. */
  const EOL_PRECEDING: bv8 := 0x37

  /** The token table as its EOL comment intends: the EOL entry's preceding
      mask admits every category but COMMA. Every other entry, and every
      recogniser, is as written. */
  function TokenTypeDefCorrected(k: TokenKind): TokenTypeDef
  {
    if k == Eol then TokenTypeDefAsWritten(k).(precedingFlag := EOL_PRECEDING)
    else TokenTypeDefAsWritten(k)
  }

  predicate AcceptsKind(k: TokenKind, t: seq<char>)
    requires |t| > 0
  {
    Accepts(TokenTypeDefAsWritten(k).recogniser, t)
  }

  /** The loop of parse_token_type from index `i` on: the first kind whose
      recogniser accepts `t`. */
  function ScanKinds(t: seq<char>, i: nat): (r: Option<TokenKind>)
    requires |t| > 0 && 1 <= i <= TOKEN_MAX
    decreases TOKEN_MAX - i
    ensures r.Some? ==> i <= r.value.Code() && AcceptsKind(r.value, t)
    ensures r.Some? ==> forall j :: i <= j < r.value.Code() ==> !AcceptsKind(KindOf(j), t)
    ensures r.None? ==> forall j :: i <= j < TOKEN_MAX ==> !AcceptsKind(KindOf(j), t)
  {
    if i == TOKEN_MAX then None
    else if AcceptsKind(KindOf(i), t) then Some(KindOf(i))
    else ScanKinds(t, i + 1)
  }

  /** parse_token_type: kinds 1..TOKEN_MAX-1 are tried in order and the first
      accepting one is the token's kind; None is the error return 1. Kind 0
      (UNKNOWN) is never tried. */
  function ParseTokenType(t: seq<char>): (r: Option<TokenKind>)
    requires |t| > 0
    ensures r.Some? ==> r.value != Unknown && AcceptsKind(r.value, t)
    ensures r.Some? ==> forall j :: 1 <= j < r.value.Code() ==> !AcceptsKind(KindOf(j), t)
    ensures r.None? <==> forall j :: 1 <= j < TOKEN_MAX ==> !AcceptsKind(KindOf(j), t)
  {
    ScanKinds(t, 1)
  }

  /** A kind that accepts `t` while no kind before it does is the result. */
  lemma FirstAcceptingWins(t: seq<char>, k: TokenKind)
    requires |t| > 0 && k != Unknown && AcceptsKind(k, t)
    requires forall j :: 1 <= j < k.Code() ==> !AcceptsKind(KindOf(j), t)
    ensures ParseTokenType(t) == Some(k)
  {
    KindCodeRoundTrip(k);
    var r := ParseTokenType(t);
    if r.Some? {
      KindCodeRoundTrip(r.value);
    }
  }

  /** A token whose first byte is not a letter is not an instruction. */
  lemma NotAnInstruction(t: seq<char>)
    requires |t| > 0 && !IsAsciiLetter(t[0])
    ensures !AcceptsKind(KindOf(3), t)
  {
    FoldedLetter(t[0]);
  }

  // ---------------------------------------------------------------------------
  // What the ordering of the table makes of each shape

  /** A token is an instruction exactly when it is made of ASCII letters. */
  lemma InstructionIffLetters(t: seq<char>)
    requires |t| > 0
    ensures ParseTokenType(t) == Some(Instruction) <==> forall i :: 0 <= i < |t| ==> IsAsciiLetter(t[i])
  {
    forall i | 0 <= i < |t| { FoldedLetter(t[i]); }
    if forall i :: 0 <= i < |t| ==> IsAsciiLetter(t[i]) {
      assert IsAsciiLetter(t[0]);
      FirstAcceptingWins(t, Instruction);
    }
  }

  /** 'pc' and 'sp' are classified as instructions, since the instruction
      entry precedes the register entry. */
  lemma PcAndSpAreInstructions()
    ensures ParseTokenType("pc") == Some(Instruction)
    ensures ParseTokenType("sp") == Some(Instruction)
    ensures ParseTokenType("r") == Some(Instruction)
  {
    InstructionIffLetters("pc");
    InstructionIffLetters("sp");
    InstructionIffLetters("r");
  }

  /** A register is exactly 'r' followed by at least one digit byte. */
  lemma RegisterIffRDigits(t: seq<char>)
    requires |t| > 0
    ensures ParseTokenType(t) == Some(Register) <==> |t| >= 2 && t[0] == 'r' && IsNumber(t[1..], false)
  {
    if |t| >= 2 && t[0] == 'r' && IsNumber(t[1..], false) {
      assert IsNumberChar(t[1..][0], false);
      FoldedLetter(t[1]);
      assert !IsInstructionShape(t);
      FirstAcceptingWins(t, Register);
    }
    if ParseTokenType(t) == Some(Register) {
      assert !AcceptsKind(KindOf(3), t);
      assert !(t == "pc" || t == "sp" || t == "r");
    }
  }

  /** No token is ever classified as an address: the address entry uses the
      immediate recogniser, and the immediate entry comes first. */
  lemma NeverAddress(t: seq<char>)
    requires |t| > 0
    ensures ParseTokenType(t) != Some(Address)
  {
    assert KindOf(5) == Immediate;
  }

  /** Address-shaped text ('$0x' and hex digits) matches no entry at all. */
  lemma DollarTokensAreUnknown(t: seq<char>)
    requires |t| > 0 && t[0] == '$'
    ensures ParseTokenType(t) == None
  {
    NotAnInstruction(t);
  }

  lemma AddressTextIsUnknown()
    ensures IsAddressShape("$0x10") && ParseTokenType("$0x10") == None
  {
    DollarTokensAreUnknown("$0x10");
    assert IsNumber("$0x10"[3..], true) by { assert "$0x10"[3..] == "10"; }
  }

  /** '@name:' is a label definition; every other '@' token is a reference. */
  lemma LabelDefOrRef(t: seq<char>)
    requires |t| > 0 && t[0] == '@'
    ensures ParseTokenType(t) == Some(LabelDef) <==> t[|t| - 1] == ':'
    ensures ParseTokenType(t) == Some(LabelRef) <==> t[|t| - 1] != ':'
  {
    if t[|t| - 1] == ':' {
      FirstAcceptingWins(t, LabelDef);
    } else {
      NotAnInstruction(t);
      FirstAcceptingWins(t, LabelRef);
    }
  }

  /** A token is a directive exactly when it starts with '.'. */
  lemma DirectiveIffDot(t: seq<char>)
    requires |t| > 0
    ensures ParseTokenType(t) == Some(Directive) <==> t[0] == '.'
  {
    if t[0] == '.' {
      FirstAcceptingWins(t, Directive);
    }
  }

  /** A token is an immediate exactly when it has the immediate shape:
      '#' then hex digits after '#0x', otherwise decimal digits, possibly none. */
  lemma ImmediateIffShape(t: seq<char>)
    requires |t| > 0
    ensures ParseTokenType(t) == Some(Immediate) <==> IsImmediateShape(t)
  {
    if IsImmediateShape(t) {
      NotAnInstruction(t);
      FirstAcceptingWins(t, Immediate);
    }
  }

  /** '#' alone is an immediate: the digit string may be empty. */
  lemma BareHashIsImmediate()
    ensures ParseTokenType("#") == Some(Immediate)
  {
    ImmediateIffShape("#");
  }

  /** '#0x' without hex digits is an immediate too. */
  lemma BarePrefixIsImmediate()
    ensures ParseTokenType("#0x") == Some(Immediate)
  {
    ImmediateIffShape("#0x");
  }

  lemma HexImmediate()
    ensures ParseTokenType("#0xFF") == Some(Immediate)
  {
    assert IsNumber("#0xFF"[3..], true) by { assert "#0xFF"[3..] == "FF"; }
    ImmediateIffShape("#0xFF");
  }

  /** Hex letters after '#' without the '0x' prefix make the token unknown. */
  lemma HexLettersNeedPrefix()
    ensures ParseTokenType("#1F") == None
  {
    assert !IsNumberChar("#1F"[1..][1], false);
    NotAnInstruction("#1F");
  }

  /** The tokens the tokenizer builds itself classify back to their own kind. */
  lemma CreatedTokensReclassify(line: nat, position: nat)
    ensures var e := EolToken(line, position);
      && e.kind == Eol && |e.text| == 1 && e.text[0] == '\n' && e.line == line && e.position == position
      && ParseTokenType(e.text) == Some(Eol)
    ensures var c := CommaToken(line, position);
      && c.kind == Comma && |c.text| == 1 && c.text[0] == ',' && c.line == line && c.position == position
      && ParseTokenType(c.text) == Some(Comma)
  {
    NotAnInstruction(['\n']);
    FirstAcceptingWins(['\n'], Eol);
    NotAnInstruction([',']);
    FirstAcceptingWins([','], Comma);
  }

  // ---------------------------------------------------------------------------
  // Adjacency categories of each kind

  const AllCategories: set<Category> := {LabelCat, ActionCat, ValueCat, CommaCat, StringCat, EolCat}

  /** The categories a mask admits. */
  function Admitted(mask: bv8): set<Category>
  {
    set c | c in AllCategories && mask & c.Flag() != 0
  }

  /** The category whose flag is the kind's type flag (UNKNOWN has none). */
  function CategoryOf(k: TokenKind): (c: Option<Category>)
    ensures c.Some? <==> k != Unknown
    ensures c.Some? ==> TokenTypeDefAsWritten(k).typeFlag == c.value.Flag()
    ensures c.None? ==> TokenTypeDefAsWritten(k).typeFlag == 0
  {
    match k
    case Unknown => None
    case LabelDef => Some(LabelCat)
    case Directive | Instruction => Some(ActionCat)
    case Register | Immediate | Address | LabelRef => Some(ValueCat)
    case Comma => Some(CommaCat)
    case Str => Some(StringCat)
    case Eol => Some(EolCat)
  }

  /** Facts of the adjacency table: a label definition stands alone on its
      line, a comma sits between two values, and an instruction is followed
      by a value or the end of the line. */
  lemma AdjacencyTable()
    ensures Admitted(TokenTypeDefAsWritten(LabelDef).precedingFlag) == {EolCat}
    ensures Admitted(TokenTypeDefAsWritten(LabelDef).succeedingFlag) == {EolCat}
    ensures Admitted(TokenTypeDefAsWritten(Comma).precedingFlag) == {ValueCat}
    ensures Admitted(TokenTypeDefAsWritten(Comma).succeedingFlag) == {ValueCat}
    ensures Admitted(TokenTypeDefAsWritten(Instruction).succeedingFlag) == {ValueCat, EolCat}
  {
    assert Admitted(0x20) == {EolCat};
    assert Admitted(0x04) == {ValueCat};
    assert Admitted(0x24) == {ValueCat, EolCat};
  }

  /** The EOL preceding mask as written, 0b111011, admits every category but
      VALUE: a comma may end a line and an operand may not. */
  lemma EolMaskAsWritten()
    ensures Admitted(TokenTypeDefAsWritten(Eol).precedingFlag) == AllCategories - {ValueCat}
    ensures TokenTypeDefAsWritten(Eol).precedingFlag == MaskOf([LabelCat, ActionCat, CommaCat, StringCat, EolCat])
  {
    assert Admitted(0x3B) == AllCategories - {ValueCat};
  }

  /** The corrected EOL preceding mask, 0b110111, admits every category but
      COMMA, and differs from the table as written in that entry only. */
  lemma EolMaskCorrected()
    ensures Admitted(TokenTypeDefCorrected(Eol).precedingFlag) == AllCategories - {CommaCat}
    ensures TokenTypeDefCorrected(Eol).precedingFlag == MaskOf([LabelCat, ActionCat, ValueCat, StringCat, EolCat])
    ensures forall k :: k != Eol ==> TokenTypeDefCorrected(k) == TokenTypeDefAsWritten(k)
  {
    assert Admitted(0x37) == AllCategories - {CommaCat};
  }

  // ---------------------------------------------------------------------------
  // Name lookups

  /** The C string a byte sequence holds: the bytes before its first NUL. */
  function CString(s: seq<char>): (r: seq<char>)
    ensures r <= s && '\0' !in r
    ensures |r| < |s| ==> s[|r|] == '\0'
  {
    if s == [] || s[0] == '\0' then [] else [s[0]] + CString(s[1..])
  }

  /** strcmp(a, b) == 0 */
  predicate StrEqual(a: seq<char>, b: seq<char>)
  {
    CString(a) == CString(b)
  }

  /** Without NUL bytes, strcmp equality is plain equality (case-sensitive). */
  lemma StrEqualPlain(a: seq<char>, b: seq<char>)
    requires '\0' !in a && '\0' !in b
    ensures StrEqual(a, b) <==> a == b
  {
    assert CString(a) == a;
    assert CString(b) == b;
  }

  predicate NameMatches(name: Option<string>, value: seq<char>)
  {
    name.Some? && StrEqual(value, name.value)
  }

  /** The lookup loop shared by parse_directive_type and parse_opcode_type:
      the lowest index from `from` on whose name equals `value`; NULL names are
      skipped. */
  function FirstMatch(names: seq<Option<string>>, value: seq<char>, from: nat): (r: Option<nat>)
    requires from <= |names|
    decreases |names| - from
    ensures r.Some? ==> from <= r.value < |names| && NameMatches(names[r.value], value)
    ensures forall j :: from <= j < |names| && (r.None? || j < r.value) ==> !NameMatches(names[j], value)
  {
    if from == |names| then None
    else if NameMatches(names[from], value) then Some(from)
    else FirstMatch(names, value, from + 1)
  }

  datatype DirectiveTypeDef = DirectiveTypeDef(name: string, serializeArguments: bool)

  /** gDirectiveTypes, indexed by DirectiveType (ORG, BANK, DB). */
  const DirectiveTypes: seq<DirectiveTypeDef> := [
    DirectiveTypeDef("org", false),
    DirectiveTypeDef("bank", false),
    DirectiveTypeDef("db", true)
  ]

  function DirectiveNames(): seq<Option<string>>
  {
    seq(|DirectiveTypes|, i requires 0 <= i < |DirectiveTypes| => Some(DirectiveTypes[i].name))
  }

  /** parse_directive_type: the DirectiveType whose name equals `value`. */
  function ParseDirectiveType(value: seq<char>): (r: Option<nat>)
    ensures r.Some? ==> r.value < |DirectiveTypes| && StrEqual(value, DirectiveTypes[r.value].name)
    ensures r.Some? ==> forall j :: 0 <= j < r.value ==> !StrEqual(value, DirectiveTypes[j].name)
    ensures r.None? ==> forall j :: 0 <= j < |DirectiveTypes| ==> !StrEqual(value, DirectiveTypes[j].name)
  {
    var r := FirstMatch(DirectiveNames(), value, 0);
    assert forall j :: 0 <= j < |DirectiveTypes| ==> DirectiveNames()[j] == Some(DirectiveTypes[j].name);
    r
  }

  /** The mnemonics get_opcode yields for indices below opcodeCount. */
  function Mnemonics(target: BuildTarget): (names: seq<Option<string>>)
    requires target.Valid()
    ensures |names| == target.opcodeCount
    ensures forall i :: 0 <= i < |names| ==> names[i] == target.opcodes[i].mnemonic
  {
    seq(target.opcodeCount, i requires 0 <= i < target.opcodeCount => target.opcodes[i].mnemonic)
  }

  /** parse_opcode_type: the lowest opcode index below opcodeCount whose
      mnemonic is present and equals `value`. */
  function ParseOpcodeType(target: BuildTarget, value: seq<char>): (r: Option<nat>)
    requires target.Valid()
    ensures r.Some? ==> r.value < target.opcodeCount && NameMatches(target.opcodes[r.value].mnemonic, value)
    ensures forall j :: 0 <= j < target.opcodeCount && (r.None? || j < r.value) ==> !NameMatches(target.opcodes[j].mnemonic, value)
  {
    FirstMatch(Mnemonics(target), value, 0)
  }

  /** The directive names resolve to their own index, case-sensitively. */
  lemma DirectiveLookups()
    ensures ParseDirectiveType("org") == Some(0)
    ensures ParseDirectiveType("bank") == Some(1)
    ensures ParseDirectiveType("db") == Some(2)
    ensures ParseDirectiveType("ORG") == None
  {
    StrEqualPlain("org", "org");
    StrEqualPlain("bank", "org");
    StrEqualPlain("bank", "bank");
    StrEqualPlain("db", "org");
    StrEqualPlain("db", "bank");
    StrEqualPlain("db", "db");
    StrEqualPlain("ORG", "org");
    StrEqualPlain("ORG", "bank");
    StrEqualPlain("ORG", "db");
  }

  /** A directive token keeps its leading '.', so looking up the token text
      itself never finds a directive name. */
  lemma DirectiveTokenTextNeverResolves(t: seq<char>)
    requires |t| > 0 && t[0] == '.'
    ensures ParseDirectiveType(t) == None
  {
    assert CString(t)[0] == '.';
    forall j | 0 <= j < |DirectiveTypes|
      ensures !StrEqual(t, DirectiveTypes[j].name)
    {
      var n := DirectiveTypes[j].name;
      StrEqualPlain(n, n);
      assert CString(n) == n;
      assert n[0] != '.';
    }
  }
}
