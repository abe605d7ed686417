/**
 * The data model of the assembler (src/libkasm.h): buffer bounds, operand and
 * token kinds with their numeric codes, the six adjacency categories, argument
 * kinds, build stages and results, tokens and the target descriptor.
 */
module KasmTypes {

  datatype Option<+T> = None | Some(value: T)

  /** Bytes read from the input stream per chunk. */
  const FILE_BUFFER_SIZE: nat := 1024
  /** Size of the pending-token buffer; a token holds at most one byte less. */
  const TOKEN_BUFFER_SIZE: nat := 64

  // ---------------------------------------------------------------------------
  // Operand kinds of an opcode signature

  datatype OperandType = OperandNil | OperandImm | OperandReg | OperandMem
  {
    function Code(): nat
    {
      match this
      case OperandNil => 0
      case OperandImm => 1
      case OperandReg => 2
      case OperandMem => 3
    }
  }

  /** The operand kind whose enumerator value is `code`, if any. */
  function OperandTypeOf(code: nat): (r: Option<OperandType>)
    ensures r.Some? <==> code < 4
    ensures r.Some? ==> r.value.Code() == code
  {
    if code == 0 then Some(OperandNil)
    else if code == 1 then Some(OperandImm)
    else if code == 2 then Some(OperandReg)
    else if code == 3 then Some(OperandMem)
    else None
  }

  /** One opcode of a target: its mnemonic (NULL for an unused slot), the
      declared operand count and the operand signature (NULL when absent). */
  datatype OpcodeDef = OpcodeDef(mnemonic: Option<string>, operandCount: nat, operands: Option<seq<OperandType>>)

  // ---------------------------------------------------------------------------
  // Token kinds

  datatype TokenKind =
    | Unknown | LabelDef | Directive | Instruction | Register | Immediate
    | Address | LabelRef | Comma | Str | Eol
  {
    /** The enumerator value of the kind in KasmTokenType. */
    function Code(): (n: nat)
      ensures n < TOKEN_MAX
    {
      match this
      case Unknown => 0
      case LabelDef => 1
      case Directive => 2
      case Instruction => 3
      case Register => 4
      case Immediate => 5
      case Address => 6
      case LabelRef => 7
      case Comma => 8
      case Str => 9
      case Eol => 10
    }
  }

  /** The count sentinel TOKEN_MAX: one past the last kind. */
  const TOKEN_MAX: nat := 11

  /** The kind with enumerator value `n`. */
  function KindOf(n: nat): (k: TokenKind)
    requires n < TOKEN_MAX
    ensures k.Code() == n
  {
    match n
    case 0 => Unknown
    case 1 => LabelDef
    case 2 => Directive
    case 3 => Instruction
    case 4 => Register
    case 5 => Immediate
    case 6 => Address
    case 7 => LabelRef
    case 8 => Comma
    case 9 => Str
    case _ => Eol
  }

  /** Kinds and codes are in one-to-one correspondence: 0 (UNKNOWN) to 10 (EOL). */
  lemma KindCodeRoundTrip(k: TokenKind)
    ensures KindOf(k.Code()) == k
    ensures k == Unknown <==> k.Code() == 0
    ensures k == Eol <==> k.Code() == TOKEN_MAX - 1
  {
  }

  // ---------------------------------------------------------------------------
  // Adjacency categories (TokenTypeFlag)

  datatype Category = LabelCat | ActionCat | ValueCat | CommaCat | StringCat | EolCat
  {
    function Flag(): bv8
    {
      match this
      case LabelCat => 0x01
      case ActionCat => 0x02
      case ValueCat => 0x04
      case CommaCat => 0x08
      case StringCat => 0x10
      case EolCat => 0x20
    }
  }

  /** The bit mask that sets the flags of every category listed. */
  function MaskOf(cs: seq<Category>): bv8
  {
    if cs == [] then 0 else cs[0].Flag() | MaskOf(cs[1..])
  }

  /** Each flag is one bit and no two categories share it. */
  lemma FlagsAreDistinctBits(c: Category, d: Category)
    ensures c.Flag() != 0 && c.Flag() & (c.Flag() - 1) == 0
    ensures c != d ==> c.Flag() & d.Flag() == 0
    ensures c == d ==> c.Flag() & d.Flag() == c.Flag()
  {
  }

  /** Because the flags are distinct bits, a mask is a set: `&` with a flag
      tests whether that category is among the ones the mask was built from. */
  lemma {:induction false} MaskMembership(cs: seq<Category>, c: Category)
    ensures (MaskOf(cs) & c.Flag() != 0) <==> c in cs
  {
    if cs != [] {
      MaskMembership(cs[1..], c);
      FlagsAreDistinctBits(cs[0], c);
      assert MaskOf(cs) & c.Flag() == (cs[0].Flag() & c.Flag()) | (MaskOf(cs[1..]) & c.Flag());
      assert c in cs <==> c == cs[0] || c in cs[1..];
    }
  }

  // ---------------------------------------------------------------------------
  // Arguments

  /** ArgumentType: the low four bits of each code are the operand kind the
      argument assembles as. */
  datatype ArgumentKind = ArgNone | ArgImmediate | ArgRegister | ArgAddress | ArgLabel
  {
    function Code(): nat
    {
      match this
      case ArgNone => 0x00
      case ArgImmediate => 0x11
      case ArgRegister => 0x22
      case ArgAddress => 0x33
      case ArgLabel => 0x43
    }

    /** The operand kind read from the low nibble of the code. */
    function AssemblesAs(): Option<OperandType>
    {
      OperandTypeOf(Code() % 16)
    }
  }

  lemma ArgumentLowNibble()
    ensures ArgImmediate.AssemblesAs() == Some(OperandImm)
    ensures ArgRegister.AssemblesAs() == Some(OperandReg)
    ensures ArgAddress.AssemblesAs() == Some(OperandMem)
    ensures ArgLabel.AssemblesAs() == Some(OperandMem)
    ensures ArgNone.AssemblesAs() == Some(OperandNil)
  {
  }

  datatype Argument = Argument(kind: ArgumentKind, value: nat)

  datatype ActionType = ActionNone | ActionDirective | ActionOpcode | ActionLabelDef
  {
    function Code(): nat
    {
      match this
      case ActionNone => 0
      case ActionDirective => 1
      case ActionOpcode => 2
      case ActionLabelDef => 3
    }
  }

  /** One assembled action: its type byte, its value and its arguments. */
  datatype Action = Action(kind: nat, value: nat, arguments: seq<Argument>)

  datatype Label = Label(name: seq<char>, position: nat)

  // ---------------------------------------------------------------------------
  // Tokens

  /** A classified token: its kind, its text (the length is |text|), the line
      and the column recorded by the tokenizer. */
  datatype Token = Token(kind: TokenKind, text: seq<char>, line: nat, position: nat)

  /** create_eol_token */
  function EolToken(line: nat, position: nat): Token
  {
    Token(Eol, ['\n'], line, position)
  }

  /** create_comma_token */
  function CommaToken(line: nat, position: nat): Token
  {
    Token(Comma, [','], line, position)
  }

  // ---------------------------------------------------------------------------
  // Build stages and results

  datatype BuildState = LoadFile | AllocTokens | Tokenize | ParseTokens | Finalize
  {
    function Code(): nat
    {
      match this
      case LoadFile => 0
      case AllocTokens => 1
      case Tokenize => 2
      case ParseTokens => 3
      case Finalize => 4
    }
  }

  /** The stages form a strict linear order LOAD_FILE < ... < FINALIZE. */
  lemma BuildStagesOrdered()
    ensures LoadFile.Code() < AllocTokens.Code() < Tokenize.Code() < ParseTokens.Code() < Finalize.Code()
    ensures forall s: BuildState, t: BuildState :: s.Code() == t.Code() ==> s == t
  {
  }

  datatype BuildResult = Success | FileError | SyntaxError | BuildAllocFailed | BufferOverflow | UnknownError

  datatype LexerResult = LexOk | TokenOverflow | TokenUnknown | LexAllocFailed | StreamError
  {
    function Code(): nat
    {
      match this
      case LexOk => 0
      case TokenOverflow => 1
      case TokenUnknown => 2
      case LexAllocFailed => 3
      case StreamError => 4
    }
  }

  datatype ParserResult =
    | ParserOk | SequenceError | ParserAllocFailed | MultipleActions
    | InvalidDirective | InvalidInstruction | ImmediateOutOfRange

  // ---------------------------------------------------------------------------
  // Targets

  /** The immutable descriptor a backend registers. `opcodes` is the table
      behind get_opcode; the assemble entry point is not modelled. */
  datatype BuildTarget = BuildTarget(
    name: string,
    version: string,
    opcodeCount: nat,
    immediateSize: nat,
    addressSize: nat,
    registerCount: nat,
    opcodes: seq<OpcodeDef>)
  {
    /** get_opcode is defined for every index below opcodeCount. */
    predicate Valid()
    {
      opcodeCount <= |opcodes|
    }
  }
}
