/**
 * The instruction set, as an abstract datatype, with one value map per opcode
 * table: the VM's table (vm/Ops.h, which is also the numbering the opcode DSL
 * generates for the compiler) and the older hand-written table of
 * glacier/bytecode.py.  The two tables agree up to FUNCTION_JMP and disagree
 * from HEADER_END on.
 */
module Opcodes {
  import opened Wrappers

  datatype Op =
    | STRUCT_DEF | FUNCTION_DEF | SET_VAR | GET_VAR | CALL_FUNC | RETURN | RETURN_VAL
    | ADD | INT | STRING | SUBTRACT | MULTIPLY | DIVIDE | FUNCTION_JMP | HEADER_END
    | PRINT | EQ | JUMP_IF_TRUE | JUMP_IF_FALSE | JUMP | STRUCT | GET_STRUCT_MEMBER
    | SET_STRUCT_MEMBER | LT | VEC | VEC_ACCESS | MAP | MAP_ACCESS | VEC_PUSH | VEC_LEN
    | VEC_POP | MAP_INSERT

  /** The VM's opcode values (GLC_BYTECODE_* in vm/Ops.h). */
  function VmCode(op: Op): Byte
  {
    match op
    case STRUCT_DEF => 0x00
    case FUNCTION_DEF => 0x01
    case SET_VAR => 0x02
    case GET_VAR => 0x03
    case CALL_FUNC => 0x04
    case RETURN => 0x05
    case RETURN_VAL => 0x06
    case ADD => 0x07
    case INT => 0x08
    case STRING => 0x09
    case SUBTRACT => 0x0a
    case MULTIPLY => 0x0b
    case DIVIDE => 0x0c
    case FUNCTION_JMP => 0x0d
    case HEADER_END => 0x0e
    case PRINT => 0x0f
    case EQ => 0x10
    case JUMP_IF_TRUE => 0x11
    case JUMP_IF_FALSE => 0x12
    case JUMP => 0x13
    case STRUCT => 0x14
    case GET_STRUCT_MEMBER => 0x15
    case SET_STRUCT_MEMBER => 0x16
    case LT => 0x17
    case VEC => 0x18
    case VEC_ACCESS => 0x19
    case MAP => 0x1a
    case MAP_ACCESS => 0x1b
    case VEC_PUSH => 0x1c
    case VEC_LEN => 0x1d
    case VEC_POP => 0x1e
    case MAP_INSERT => 0x1f
  }

  /**
   * The VM's opcode table read backwards: which opcode a byte denotes.
   * The table is searched a quarter at a time.
   */
  function VmDecode(b: Byte): (r: Option<Op>)
    ensures r.Some? <==> b < 0x20
    ensures r.Some? ==> VmCode(r.value) == b
  {
    if b < 0x08 then VmDecode0(b)
    else if b < 0x10 then VmDecode1(b)
    else if b < 0x18 then VmDecode2(b)
    else if b < 0x20 then VmDecode3(b)
    else None
  }

  function VmDecode0(b: Byte): (r: Option<Op>)
    requires 0x00 <= b < 0x08
    ensures r.Some? && VmCode(r.value) == b
  {
    if b == 0x00 then Some(STRUCT_DEF)
    else if b == 0x01 then Some(FUNCTION_DEF)
    else if b == 0x02 then Some(SET_VAR)
    else if b == 0x03 then Some(GET_VAR)
    else if b == 0x04 then Some(CALL_FUNC)
    else if b == 0x05 then Some(RETURN)
    else if b == 0x06 then Some(RETURN_VAL)
    else Some(ADD)
  }

  function VmDecode1(b: Byte): (r: Option<Op>)
    requires 0x08 <= b < 0x10
    ensures r.Some? && VmCode(r.value) == b
  {
    if b == 0x08 then Some(INT)
    else if b == 0x09 then Some(STRING)
    else if b == 0x0a then Some(SUBTRACT)
    else if b == 0x0b then Some(MULTIPLY)
    else if b == 0x0c then Some(DIVIDE)
    else if b == 0x0d then Some(FUNCTION_JMP)
    else if b == 0x0e then Some(HEADER_END)
    else Some(PRINT)
  }

  function VmDecode2(b: Byte): (r: Option<Op>)
    requires 0x10 <= b < 0x18
    ensures r.Some? && VmCode(r.value) == b
  {
    if b == 0x10 then Some(EQ)
    else if b == 0x11 then Some(JUMP_IF_TRUE)
    else if b == 0x12 then Some(JUMP_IF_FALSE)
    else if b == 0x13 then Some(JUMP)
    else if b == 0x14 then Some(STRUCT)
    else if b == 0x15 then Some(GET_STRUCT_MEMBER)
    else if b == 0x16 then Some(SET_STRUCT_MEMBER)
    else Some(LT)
  }

  function VmDecode3(b: Byte): (r: Option<Op>)
    requires 0x18 <= b < 0x20
    ensures r.Some? && VmCode(r.value) == b
  {
    if b == 0x18 then Some(VEC)
    else if b == 0x19 then Some(VEC_ACCESS)
    else if b == 0x1a then Some(MAP)
    else if b == 0x1b then Some(MAP_ACCESS)
    else if b == 0x1c then Some(VEC_PUSH)
    else if b == 0x1d then Some(VEC_LEN)
    else if b == 0x1e then Some(VEC_POP)
    else Some(MAP_INSERT)
  }

  /** Distinct opcodes have distinct VM values, so decoding undoes encoding. */
  lemma VmCodeDecodes(op: Op)
    ensures VmDecode(VmCode(op)) == Some(op)
  {
  }

  /** The opcode values of the enum in glacier/bytecode.py; it has no entry for LT and later ops. */
  function LegacyCode(op: Op): Option<Byte>
  {
    match op
    case STRUCT_DEF => Some(0x00)
    case FUNCTION_DEF => Some(0x01)
    case SET_VAR => Some(0x02)
    case GET_VAR => Some(0x03)
    case CALL_FUNC => Some(0x04)
    case RETURN => Some(0x05)
    case RETURN_VAL => Some(0x06)
    case ADD => Some(0x07)
    case INT => Some(0x08)
    case STRING => Some(0x09)
    case SUBTRACT => Some(0x0A)
    case MULTIPLY => Some(0x0B)
    case DIVIDE => Some(0x0C)
    case FUNCTION_JMP => Some(0x0D)
    case HEADER_END => Some(0x0F)
    case PRINT => Some(0x10)
    case EQ => Some(0x11)
    case JUMP_IF_TRUE => Some(0x12)
    case JUMP_IF_FALSE => Some(0x13)
    case JUMP => Some(0x14)
    case STRUCT => Some(0x15)
    case GET_STRUCT_MEMBER => Some(0x16)
    case SET_STRUCT_MEMBER => Some(0x17)
    case _ => None
  }

  /** Ops listed before HEADER_END in vm/Ops.h. */
  predicate BeforeHeaderEnd(op: Op) { VmCode(op) < VmCode(HEADER_END) }

  /**
   * The two tables agree exactly on the ops before HEADER_END; every later op
   * the legacy table knows is numbered one higher there than in the VM.
   */
  lemma TablesDisagreeFromHeaderEnd(op: Op)
    ensures BeforeHeaderEnd(op) ==> LegacyCode(op) == Some(VmCode(op))
    ensures !BeforeHeaderEnd(op) && LegacyCode(op).Some? ==> LegacyCode(op).value == VmCode(op) + 1
    ensures LegacyCode(op).None? <==> VmCode(op) >= VmCode(LT)
  {
  }

  /**
   * A body byte stream written with the legacy table and read by the VM:
   * the legacy HEADER_END byte 0x0F is the VM's PRINT, so the VM's header
   * loop does not stop at it.
   */
  lemma LegacyHeaderEndIsVmPrint()
    ensures LegacyCode(HEADER_END) == Some(0x0F)
    ensures VmDecode(0x0F) == Some(PRINT)
  {
  }

  /**
   * Instruction lengths in bytes as the glacier/bytecode.py docstrings give
   * them; `count` is the member count of STRUCT_DEF and the string length of
   * STRING.  None for ops that table does not document.
   */
  function DocumentedLength(op: Op, count: nat): Option<nat>
  {
    match op
    case STRUCT_DEF => Some(3 + count)
    case FUNCTION_DEF => Some(3)
    case FUNCTION_JMP => Some(3)
    case STRING => Some(2 + count)
    case INT => Some(1 + 8)
    case SET_VAR => Some(2)
    case GET_VAR => Some(2)
    case CALL_FUNC => Some(2)
    case JUMP_IF_TRUE => Some(2)
    case JUMP_IF_FALSE => Some(2)
    case JUMP => Some(2)
    case STRUCT => Some(2)
    case GET_STRUCT_MEMBER => Some(2)
    case SET_STRUCT_MEMBER => Some(2)
    case RETURN => Some(1)
    case RETURN_VAL => Some(1)
    case ADD => Some(1)
    case SUBTRACT => Some(1)
    case MULTIPLY => Some(1)
    case DIVIDE => Some(1)
    case HEADER_END => Some(1)
    case PRINT => Some(1)
    case EQ => Some(1)
    case _ => None
  }

  /**
   * Bytes the VM consumes for one instruction (vm/VM.c): every operand is a
   * single byte, STRING is followed by `count` bytes and STRUCT_DEF by
   * `count` member type ids.  None for opcodes the VM rejects.
   */
  function VmLength(op: Op, count: nat): Option<nat>
  {
    match op
    case STRUCT_DEF => Some(3 + count)
    case FUNCTION_DEF => Some(3)
    case FUNCTION_JMP => Some(3)
    case STRING => Some(2 + count)
    case INT => Some(2)
    case SET_VAR => Some(2)
    case GET_VAR => Some(2)
    case CALL_FUNC => Some(2)
    case JUMP_IF_FALSE => Some(2)
    case JUMP => Some(2)
    case STRUCT => Some(2)
    case GET_STRUCT_MEMBER => Some(2)
    case SET_STRUCT_MEMBER => Some(2)
    case VEC => Some(2)
    case MAP => Some(2)
    case RETURN => Some(1)
    case RETURN_VAL => Some(1)
    case ADD => Some(1)
    case SUBTRACT => Some(1)
    case MULTIPLY => Some(1)
    case DIVIDE => Some(1)
    case HEADER_END => Some(1)
    case PRINT => Some(1)
    case EQ => Some(1)
    case LT => Some(1)
    case VEC_ACCESS => Some(1)
    case MAP_ACCESS => Some(1)
    case _ => None
  }

  /**
   * Where both describe an instruction, the documented length is the length
   * the VM reads, except for INT: documented with an 8-byte operand, read
   * by the VM as one byte.
   */
  lemma DocumentedLengthMatchesVm(op: Op, count: nat)
    requires DocumentedLength(op, count).Some? && VmLength(op, count).Some?
    ensures op != INT ==> DocumentedLength(op, count) == VmLength(op, count)
    ensures op == INT ==> DocumentedLength(op, count).value == VmLength(op, count).value + 7
  {
  }
}
