/** The LHVM bytecode instruction record (components/ScriptLibrary/include/LHVM/VMInstruction.h):
    three closed enumerations with their underlying integer values, and an immutable
    five-field instruction. A Dafny datatype value cannot be mutated, which is the
    model of "private fields, getters only, no default constructor". */
module LHVM {
  import opened Common

  datatype Opcode =
    | END | WAIT | PUSH | POP | ADD | CALL | MINUS | UMINUS | TIMES | DIVIDE | MODULUS
    | NOT | AND | OR | EQ | NEQ | GEQ | LEQ | GT | LT | JUMP | SLEEP | EXCEPT | INTCAST
    | RUN | ENDEXCEPT | RETEXCEPT | FAILEXCEPT | BRKEXCEPT | SWAP | LINE

  datatype Access = STACK | VARIABLE

  /** UNK, UNK2 and UNK4 are reserved tags of the file format, kept as ordinary members. */
  datatype DataType = NONE | INT | FLOAT | VECTOR | UNK | UNK2 | BOOLEAN | UNK4

  /** The data types in declaration order; the underlying value of a data type is its position. */
  const DataTypes: seq<DataType> := [NONE, INT, FLOAT, VECTOR, UNK, UNK2, BOOLEAN, UNK4]

  /** The underlying value of an opcode: its position in the declaration, from END = 0. */
  function OpcodeValue(op: Opcode): (v: nat)
    ensures v <= 30
  {
    match op
    case END => 0 case WAIT => 1 case PUSH => 2 case POP => 3 case ADD => 4 case CALL => 5 case MINUS => 6
    case UMINUS => 7 case TIMES => 8 case DIVIDE => 9 case MODULUS => 10 case NOT => 11 case AND => 12
    case OR => 13 case EQ => 14 case NEQ => 15 case GEQ => 16 case LEQ => 17 case GT => 18 case LT => 19
    case JUMP => 20 case SLEEP => 21 case EXCEPT => 22 case INTCAST => 23 case RUN => 24 case ENDEXCEPT => 25
    case RETEXCEPT => 26 case FAILEXCEPT => 27 case BRKEXCEPT => 28 case SWAP => 29 case LINE => 30
  }

  /** Decoding of a raw opcode value: defined exactly on 0..30, and the inverse of
      OpcodeValue there. */
  function OpcodeOf(v: int): (r: Option<Opcode>)
    ensures r.Some? <==> 0 <= v <= 30
  {
    match v
    case 0 => Some(END) case 1 => Some(WAIT) case 2 => Some(PUSH) case 3 => Some(POP) case 4 => Some(ADD)
    case 5 => Some(CALL) case 6 => Some(MINUS) case 7 => Some(UMINUS) case 8 => Some(TIMES)
    case 9 => Some(DIVIDE) case 10 => Some(MODULUS) case 11 => Some(NOT) case 12 => Some(AND)
    case 13 => Some(OR) case 14 => Some(EQ) case 15 => Some(NEQ) case 16 => Some(GEQ) case 17 => Some(LEQ)
    case 18 => Some(GT) case 19 => Some(LT) case 20 => Some(JUMP) case 21 => Some(SLEEP)
    case 22 => Some(EXCEPT) case 23 => Some(INTCAST) case 24 => Some(RUN) case 25 => Some(ENDEXCEPT)
    case 26 => Some(RETEXCEPT) case 27 => Some(FAILEXCEPT) case 28 => Some(BRKEXCEPT) case 29 => Some(SWAP)
    case 30 => Some(LINE)
    case _ => None
  }

  lemma OpcodeOfInverse(v: int)
    requires 0 <= v <= 30
    ensures OpcodeValue(OpcodeOf(v).value) == v
  {
    if v < 16 {
      assert OpcodeValue(OpcodeOf(v).value) == v;
    }
  }

  lemma OpcodeRoundTrip(op: Opcode)
    ensures OpcodeOf(OpcodeValue(op)) == Some(op)
  {}

  /** The 31 opcode values are consecutive from END = 0 to LINE = 30, and no two
      opcodes share a value. */
  lemma OpcodeValuesConsecutive()
    ensures OpcodeValue(END) == 0 && OpcodeValue(LINE) == 30
    ensures forall a: Opcode, b: Opcode :: OpcodeValue(a) == OpcodeValue(b) ==> a == b
    ensures forall v :: 0 <= v <= 30 ==> OpcodeOf(v).Some?
  {
    forall a: Opcode, b: Opcode | OpcodeValue(a) == OpcodeValue(b)
      ensures a == b
    {
      OpcodeRoundTrip(a);
      OpcodeRoundTrip(b);
    }
  }

  function AccessValue(a: Access): (v: nat)
    ensures v <= 1
  {
    match a
    case STACK => 0
    case VARIABLE => 1
  }

  function AccessOf(v: int): (r: Option<Access>)
    ensures r.Some? <==> 0 <= v <= 1
    ensures r.Some? ==> AccessValue(r.value) == v
  {
    if v == 0 then Some(STACK) else if v == 1 then Some(VARIABLE) else None
  }

  lemma AccessRoundTrip(a: Access)
    ensures AccessOf(AccessValue(a)) == Some(a)
  {}

  function DataTypeValue(t: DataType): (v: nat)
    ensures v < |DataTypes| && DataTypes[v] == t
  {
    match t
    case NONE => 0 case INT => 1 case FLOAT => 2 case VECTOR => 3
    case UNK => 4 case UNK2 => 5 case BOOLEAN => 6 case UNK4 => 7
  }

  function DataTypeOf(v: int): (r: Option<DataType>)
    ensures r.Some? <==> 0 <= v <= 7
    ensures r.Some? ==> DataTypeValue(r.value) == v
  {
    if 0 <= v < |DataTypes| then Some(DataTypes[v]) else None
  }

  /** Every tag, the reserved ones included, survives encoding and decoding unchanged. */
  lemma DataTypeRoundTrip(t: DataType)
    ensures DataTypeOf(DataTypeValue(t)) == Some(t)
    ensures t in {UNK, UNK2, UNK4} ==> DataTypeValue(t) in {4, 5, 7}
  {}

  /** One bytecode instruction. The only way to build one is the five-argument constructor. */
  datatype Instruction = Instruction(code: Opcode, access: Access, dataType: DataType, data: u32, line: u32)
  {
    function GetOpcode(): Opcode { code }
    function GetAccess(): Access { access }
    function GetDataType(): DataType { dataType }
    function GetData(): u32 { data }
    function GetLineNumber(): u32 { line }
  }

  /** Each getter returns exactly what the constructor was given, and two instructions
      with the same getter results are the same instruction (nothing else is stored). */
  lemma GettersReturnConstructorArguments(code: Opcode, access: Access, dataType: DataType, data: u32, line: u32)
    ensures var i := Instruction(code, access, dataType, data, line);
      i.GetOpcode() == code && i.GetAccess() == access && i.GetDataType() == dataType
      && i.GetData() == data && i.GetLineNumber() == line
    ensures forall j: Instruction ::
      (j.GetOpcode() == code && j.GetAccess() == access && j.GetDataType() == dataType
       && j.GetData() == data && j.GetLineNumber() == line) ==> j == Instruction(code, access, dataType, data, line)
  {}
}
