/**
 * The km8 target (targets/km8/km8.c): its static opcode table, the operand
 * sizes and the descriptor it registers. The lookups of the classifier are
 * parameterised by a target; this one gives them a concrete table.
 */
module Km8 {
  import opened KasmTypes
  import opened Classifier

  const OPCODE_COUNT: nat := 256

  const OpRegMem: seq<OperandType> := [OperandReg, OperandMem]
  const OpRegImm: seq<OperandType> := [OperandReg, OperandImm]
  const OpRegReg: seq<OperandType> := [OperandReg, OperandReg]
  const OpReg: seq<OperandType> := [OperandReg]
  const OpMem: seq<OperandType> := [OperandMem]

  function Op(mnemonic: string, operandCount: nat, operands: seq<OperandType>): OpcodeDef
  {
    OpcodeDef(Some(mnemonic), operandCount, Some(operands))
  }

  /** An opcode declared with no operands and a NULL signature. */
  function Bare(mnemonic: string): OpcodeDef
  {
    OpcodeDef(Some(mnemonic), 0, None)
  }

  /** A slot the table leaves zero-filled: NULL mnemonic, no operands. */
  const Unused: OpcodeDef := OpcodeDef(None, 0, None)

  /** get_opcode: entry `index` of gOpcodes. */
  function GetOpcode(index: nat): OpcodeDef
    requires index < OPCODE_COUNT
  {
    match index
    // data
    case 0x00 => Bare("nop")
    case 0x01 => Op("ldr", 2, OpRegMem)
    case 0x02 => Op("ldr", 2, OpRegImm)
    case 0x03 => Op("str", 2, OpRegMem)
    case 0x04 => Op("mov", 2, OpRegReg)
    case 0x05 => Op("swp", 2, OpRegReg)
    case 0x06 => Op("push", 2, OpReg)
    case 0x07 => Op("pop", 2, OpReg)
    case 0x08 => Op("clr", 2, OpReg)
    // arithmetic
    case 0x10 => Op("add", 2, OpRegReg)
    case 0x11 => Op("add", 2, OpRegImm)
    case 0x12 => Op("adc", 2, OpRegReg)
    case 0x13 => Op("adc", 2, OpRegImm)
    case 0x14 => Op("inc", 1, OpReg)
    case 0x15 => Op("sub", 2, OpRegReg)
    case 0x16 => Op("sub", 2, OpRegImm)
    case 0x17 => Op("sbc", 2, OpRegReg)
    case 0x18 => Op("sbc", 2, OpRegImm)
    case 0x19 => Op("dec", 1, OpReg)
    case 0x1A => Op("cmp", 2, OpRegReg)
    case 0x1B => Op("cmp", 2, OpRegImm)
    // bitwise
    case 0x20 => Op("add", 2, OpRegReg)
    case 0x21 => Op("add", 2, OpRegReg)
    case 0x22 => Op("or", 2, OpRegReg)
    case 0x23 => Op("or", 2, OpRegReg)
    case 0x24 => Op("xor", 2, OpRegReg)
    case 0x25 => Op("xor", 2, OpRegReg)
    case 0x26 => Op("not", 2, OpRegReg)
    case 0x27 => Op("shl", 2, OpRegReg)
    case 0x28 => Op("shr", 2, OpRegReg)
    case 0x29 => Op("rol", 2, OpRegReg)
    case 0x2A => Op("ror", 2, OpRegReg)
    case 0x2B => Op("tst", 2, OpRegReg)
    case 0x2C => Op("tst", 2, OpRegReg)
    // conditionals
    case 0x30 => Op("jmp", 1, OpMem)
    case 0x31 => Op("jmp", 1, OpReg)
    case 0x32 => Op("jz", 1, OpMem)
    case 0x33 => Op("jz", 1, OpReg)
    case 0x34 => Op("jnz", 1, OpMem)
    case 0x35 => Op("jnz", 1, OpReg)
    case 0x36 => Op("jc", 1, OpMem)
    case 0x37 => Op("jc", 1, OpReg)
    case 0x38 => Op("jnc", 1, OpMem)
    case 0x39 => Op("jnc", 1, OpReg)
    case 0x3A => Op("jn", 1, OpMem)
    case 0x3B => Op("jn", 1, OpReg)
    case 0x3C => Op("jnn", 1, OpMem)
    case 0x3D => Op("jnn", 1, OpReg)
    case 0x3E => Op("jv", 1, OpMem)
    case 0x3F => Op("jv", 1, OpReg)
    case 0x40 => Op("jnv", 1, OpMem)
    case 0x41 => Op("jnv", 1, OpReg)
    case 0x42 => Op("call", 1, OpMem)
    case 0x43 => Op("call", 1, OpReg)
    case 0x44 => Bare("ret")
    case 0x45 => Bare("hlt")
    case _ => Unused
  }

  /** get_operand_size */
  function GetOperandSize(operand: OperandType): nat
  {
    match operand
    case OperandImm => 1
    case OperandReg => 1
    case OperandMem => 2
    case OperandNil => 0
  }

  /** The descriptor kasm_target_register returns. */
  function Km8Target(): (t: BuildTarget)
    ensures t.Valid() && |t.opcodes| == OPCODE_COUNT
    ensures forall i :: 0 <= i < OPCODE_COUNT ==> t.opcodes[i] == GetOpcode(i)
  {
    BuildTarget("km8", "v0.1.0", OPCODE_COUNT, 1, 2, 14,
      seq(OPCODE_COUNT, i requires 0 <= i < OPCODE_COUNT => GetOpcode(i)))
  }

  // ---------------------------------------------------------------------------
  // Facts about the table

  /** The descriptor's declared counts and widths, and operand sizes that agree
      with the declared immediate and address widths. */
  lemma Km8Descriptor()
    ensures Km8Target().opcodeCount == 256 && Km8Target().registerCount == 14
    ensures Km8Target().immediateSize == 1 && Km8Target().addressSize == 2
    ensures GetOperandSize(OperandImm) == Km8Target().immediateSize
    ensures GetOperandSize(OperandMem) == Km8Target().addressSize
    ensures GetOperandSize(OperandReg) == 1 && GetOperandSize(OperandNil) == 0
  {
  }

  /** nop, ret and hlt take no operands and have no signature. */
  lemma NoOperandOpcodes()
    ensures GetOpcode(0x00) == OpcodeDef(Some("nop"), 0, None)
    ensures GetOpcode(0x44) == OpcodeDef(Some("ret"), 0, None)
    ensures GetOpcode(0x45) == OpcodeDef(Some("hlt"), 0, None)
  {
  }

  predicate IsLowerWord(m: string)
  {
    |m| > 0 && forall k :: 0 <= k < |m| ==> 'a' <= m[k] <= 'z'
  }

  /** The distinct mnemonics of the table. */
  const MnemonicSet: set<string> := {
    "nop", "ldr", "str", "mov", "swp", "push", "pop", "clr",
    "add", "adc", "inc", "sub", "sbc", "dec", "cmp",
    "or", "xor", "not", "shl", "shr", "rol", "ror", "tst",
    "jmp", "jz", "jnz", "jc", "jnc", "jn", "jnn", "jv", "jnv", "call", "ret", "hlt"
  }

  lemma MnemonicIsListed(i: nat)
    requires i < OPCODE_COUNT && GetOpcode(i).mnemonic.Some?
    ensures GetOpcode(i).mnemonic.value in MnemonicSet
  {
  }

  lemma ListedAreLowerWords(m: string)
    requires m in MnemonicSet
    ensures IsLowerWord(m)
  {
    if m in {"nop", "ldr", "str", "mov", "swp", "push", "pop", "clr", "add", "adc", "inc", "sub", "sbc", "dec", "cmp"} {
    } else if m in {"or", "xor", "not", "shl", "shr", "rol", "ror", "tst"} {
    } else {
    }
  }

  /** Every mnemonic in the table is a non-empty word of lowercase letters. */
  lemma MnemonicIsLowerWord(i: nat)
    requires i < OPCODE_COUNT && GetOpcode(i).mnemonic.Some?
    ensures IsLowerWord(GetOpcode(i).mnemonic.value)
  {
    MnemonicIsListed(i);
    ListedAreLowerWords(GetOpcode(i).mnemonic.value);
  }

  /** So every mnemonic of the table is classified as an instruction. */
  lemma MnemonicsAreInstructions(i: nat)
    requires i < OPCODE_COUNT && GetOpcode(i).mnemonic.Some?
    ensures |GetOpcode(i).mnemonic.value| > 0
    ensures ParseTokenType(GetOpcode(i).mnemonic.value) == Some(Instruction)
  {
    MnemonicIsLowerWord(i);
    InstructionIffLetters(GetOpcode(i).mnemonic.value);
  }

  /** The declared operand count is the signature's length for every defined
      opcode except push, pop and clr, which declare two operands but point at
      the one-element register signature. */
  lemma OperandCountsMatchSignatures(i: nat)
    requires i < OPCODE_COUNT && GetOpcode(i).mnemonic.Some?
    ensures var op := GetOpcode(i);
      if 0x06 <= i <= 0x08 then op.operandCount == 2 && op.operands == Some(OpReg)
      else op.operandCount == (if op.operands.Some? then |op.operands.value| else 0)
  {
  }

  /** A mnemonic with no NUL byte is matched by plain equality. */
  lemma MatchesMnemonic(i: nat, value: string)
    requires i < OPCODE_COUNT && '\0' !in value
    ensures NameMatches(Km8Target().opcodes[i].mnemonic, value) <==> GetOpcode(i).mnemonic == Some(value)
  {
    if GetOpcode(i).mnemonic.Some? {
      MnemonicIsLowerWord(i);
      StrEqualPlain(value, GetOpcode(i).mnemonic.value);
    }
  }

  /** The first match wins: 'ldr' resolves to 0x01 (register, memory) and
      never to 0x02 (register, immediate). */
  lemma LdrResolvesToFirstEntry()
    ensures ParseOpcodeType(Km8Target(), "ldr") == Some(0x01)
  {
    MatchesMnemonic(0x00, "ldr");
    MatchesMnemonic(0x01, "ldr");
  }

  lemma NoAddBelow0x10(j: nat)
    requires j < 0x10
    ensures GetOpcode(j).mnemonic != Some("add")
  {
  }

  /** 'add' resolves to 0x10 of its four entries 0x10, 0x11, 0x20, 0x21. */
  lemma AddResolvesToFirstEntry()
    ensures ParseOpcodeType(Km8Target(), "add") == Some(0x10)
  {
    forall j | 0 <= j < 0x10
      ensures !NameMatches(Km8Target().opcodes[j].mnemonic, "add")
    {
      MatchesMnemonic(j, "add");
      NoAddBelow0x10(j);
    }
    MatchesMnemonic(0x10, "add");
  }
}
