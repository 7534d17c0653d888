/**
 * What the interpreter (vm/VM.c) does, as functions on the whole machine
 * state: one function per handler, then the dispatch loop, the function
 * prologue and `glacierVMRun`. Every function returns the status the C
 * code returns and the state it leaves behind, including the partial
 * changes made before an early return.
 */
module VmSpec {
  import opened Wrappers
  import opened VmStatus
  import opened VmValue
  import opened VmByteCode
  import opened VmStack
  import opened VmTable
  import opened VmMap
  import Opcodes

  /** A variable slot of a call frame: unset, or the value stored in it. */
  type Binding = Option<Value>

  /** What a slot holds before it is set (-1 in the C code). */
  const UNBOUND: Binding := None

  /** 2^64: uint64_t arithmetic wraps modulo this. */
  const WORD: int := 0x1_0000_0000_0000_0000

  /**
   * The machine: the bytecode cursor, the operand stack, the call frames,
   * the function table (id to body offset), the symbol table (struct id to
   * member count), the struct heap (a struct value refers to one entry, so
   * every copy sees a member written through any other) and the values
   * printed so far.
   */
  datatype State = State(
    cur: Cursor,
    stack: seq<Value>,
    frames: seq<Frame<Binding>>,
    functions: seq<int>,
    structs: seq<int>,
    heap: seq<seq<Value>>,
    out: seq<Value>)

  /** The facts every state of a run keeps. */
  predicate Good(s: State)
  {
    Sound(s.cur) && |s.stack| <= MAX_STACK_SIZE && |s.frames| <= MAX_STACK_SIZE &&
    FramesSound(s.frames) && WellFormed(s.functions) && WellFormed(s.structs)
  }

  /** The cursor reads the same bytes and has not moved back. */
  predicate Forward(s: State, t: State)
  {
    t.cur.buf == s.cur.buf && t.cur.len == s.cur.len && t.cur.offset >= s.cur.offset
  }

  // ---- Primitive steps -------------------------------------------------

  /** `glacierByteCodeRead8` on the machine's cursor. */
  function ReadB(s: State): (r: (Status, Byte, State))
    requires Good(s)
    ensures Good(r.2) && Forward(s, r.2)
    ensures r.0 == OK <==> s.cur.offset < s.cur.len
    ensures r.0 == OK ==> r.1 == s.cur.buf[s.cur.offset] && r.2 == s.(cur := s.cur.(offset := s.cur.offset + 1))
    ensures r.0 != OK ==> r.0 == OUT_OF_BUFFER && r.2 == s
  {
    var (st, b, c) := ReadByte(s.cur);
    (st, b, s.(cur := c))
  }

  /** `glacierStackPush` on the operand stack. */
  function Push(s: State, v: Value): (r: (Status, State))
    requires Good(s)
    ensures Good(r.1)
  {
    var (st, t) := Pushed(s.stack, v);
    (st, s.(stack := t))
  }

  /** `glacierStackPop` on the operand stack; the value is meaningless when the pop fails. */
  function Pop(s: State): (r: (Status, Value, State))
    requires Good(s)
    ensures Good(r.2)
  {
    var (st, v, t) := Popped(s.stack);
    (st, if v.Some? then v.value else IntVal(0), s.(stack := t))
  }

  /** `glacierByteCodeJump` on the machine's cursor. */
  function JumpTo(s: State, target: int): (r: (Status, State))
    requires Good(s)
    ensures Good(r.1)
  {
    var (st, c) := Jumped(s.cur, target);
    (st, s.(cur := c))
  }

  /**
   * Reading a value as uint64_t after `assert(typeId == GLC_TYPEID_INT)`:
   * the assert fails for any other type id, and a struct whose id happens
   * to be 0 passes it without holding an int.
   */
  function AsInt(v: Value): (r: (Status, Word))
    ensures r.0 == OK <==> v.IntVal?
    ensures r.0 == OK ==> r.1 == v.intValue
  {
    if TypeId(v) != TYPEID_INT then (ASSERT_FAILED, 0)
    else if !v.IntVal? then (UNDEFINED, 0)
    else (OK, v.intValue)
  }

  // ---- Literals and arithmetic -----------------------------------------

  /** `glacierVMInt`: a one-byte operand pushed as an int. */
  function IntOp(s: State): (r: (Status, State))
    requires Good(s)
    ensures Good(r.1)
  {
    var (st, b, s1) := ReadB(s);
    if st != OK then (st, s1) else Push(s1, IntVal(b))
  }

  /**
   * The `n` bytes `glacierVMString` reads one at a time: all of them when
   * they are there; otherwise the reads stop at the end of the buffer with
   * OUT_OF_BUFFER.
   */
  function StrBytes(s: State, n: nat): (r: (Status, seq<Byte>, State))
    requires Good(s)
    ensures Good(r.2)
  {
    if s.cur.offset + n <= s.cur.len then
      (OK, s.cur.buf[s.cur.offset..s.cur.offset + n], s.(cur := s.cur.(offset := s.cur.offset + n)))
    else (OUT_OF_BUFFER, [], s.(cur := s.cur.(offset := s.cur.len)))
  }

  /** `glacierVMString`: a length byte, that many bytes, pushed as a string. */
  function StringOp(s: State): (r: (Status, State))
    requires Good(s)
    ensures Good(r.1)
  {
    var (st, n, s1) := ReadB(s);
    if st != OK then (st, s1)
    else
      var (st2, bs, s2) := StrBytes(s1, n);
      if st2 != OK then (st2, s2) else Push(s2, StrVal(bs))
  }

  /** The six binary operators. */
  datatype Arith = AddOp | SubOp | MulOp | DivOp | EqOp | LtOp

  /** What each operator computes on uint64_t; division by zero is undefined. */
  function Apply(op: Arith, a: Word, b: Word): Option<Word>
  {
    match op
    case AddOp => Some((a + b) % WORD)
    case SubOp => Some((a - b) % WORD)
    case MulOp => Some((a * b) % WORD)
    case DivOp => if b == 0 then None else Some(a / b)
    case EqOp => Some(if a == b then 1 else 0)
    case LtOp => Some(if a < b then 1 else 0)
  }

  /**
   * `glacierVMAdd`, `Subtract`, `Multiply`, `Divide`, `Eq` and `Lt`: pop
   * the right operand, then the left, assert both are ints, push the result.
   */
  function Binary(s: State, op: Arith): (r: (Status, State))
    requires Good(s)
    ensures Good(r.1)
  {
    var (st, rhs, s1) := Pop(s);
    if st != OK then (st, s1)
    else
      var (st2, lhs, s2) := Pop(s1);
      if st2 != OK then (st2, s2)
      else
        var (a1, l) := AsInt(lhs);
        var (a2, rr) := AsInt(rhs);
        if a1 == ASSERT_FAILED || a2 == ASSERT_FAILED then (ASSERT_FAILED, s2)
        else if a1 != OK || a2 != OK then (UNDEFINED, s2)
        else match Apply(op, l, rr)
          case None => (UNDEFINED, s2)
          case Some(x) => Push(s2, IntVal(x))
  }

  /** `glacierVMPrint`: pop, then print an int or a string (up to its NUL); any other type is INVALID_OP. */
  function Print(s: State): (r: (Status, State))
    requires Good(s)
    ensures Good(r.1)
  {
    var (st, v, s1) := Pop(s);
    if st != OK then (st, s1)
    else if TypeId(v) == TYPEID_INT then
      if v.IntVal? then (OK, s1.(out := s1.out + [v])) else (UNDEFINED, s1)
    else if TypeId(v) == TYPEID_STRING then
      if v.StrVal? then (OK, s1.(out := s1.out + [StrVal(CString(v.chars))])) else (UNDEFINED, s1)
    else (INVALID_OP, s1)
  }

  // ---- Header ------------------------------------------------------------

  /** `glacierVMFunctionJmp`: a function id and its body offset, into the function table. */
  function FunctionJmp(s: State): (r: (Status, State))
    requires Good(s)
    ensures Good(r.1) && Forward(s, r.1)
  {
    var (st, id, s1) := ReadB(s);
    if st != OK then (st, s1)
    else
      var (st2, off, s2) := ReadB(s1);
      if st2 != OK then (st2, s2)
      else
        var (st3, t) := TableSet(s2.functions, id, off);
        SetKeepsWellFormed(s2.functions, id, off);
        (st3, s2.(functions := t))
  }

  /** The member type bytes of a struct definition: each must be INT or STRING. */
  function MemberTypes(s: State, n: nat): (r: (Status, State))
    requires Good(s)
    ensures Good(r.1) && Forward(s, r.1)
    decreases n
  {
    if n == 0 then (OK, s)
    else
      var (st, t, s1) := ReadB(s);
      if st != OK then (st, s1)
      else if t != TYPEID_INT && t != TYPEID_STRING then (INVALID_OP, s1)
      else MemberTypes(s1, n - 1)
  }

  /** `glacierVMStructDef`: a struct id and member count, into the symbol table, then the member types. */
  function StructDef(s: State): (r: (Status, State))
    requires Good(s)
    ensures Good(r.1) && Forward(s, r.1)
  {
    var (st, id, s1) := ReadB(s);
    if st != OK then (st, s1)
    else
      var (st2, n, s2) := ReadB(s1);
      if st2 != OK then (st2, s2)
      else
        var (st3, t) := TableSet(s2.structs, id, n);
        SetKeepsWellFormed(s2.structs, id, n);
        if st3 != OK then (st3, s2.(structs := t)) else MemberTypes(s2.(structs := t), n)
  }

  /** `glacierVMHeader`: records up to HEADER_END; any other record type is INVALID_OP. */
  function Header(s: State): (r: (Status, State))
    requires Good(s)
    ensures Good(r.1) && Forward(s, r.1)
    decreases s.cur.len - s.cur.offset
  {
    var (st, b, s1) := ReadB(s);
    if st != OK then (st, s1)
    else if b == Opcodes.VmCode(Opcodes.HEADER_END) then (OK, s1)
    else if b == Opcodes.VmCode(Opcodes.FUNCTION_JMP) then
      var (st2, s2) := FunctionJmp(s1);
      if st2 != OK then (st2, s2) else Header(s2)
    else if b == Opcodes.VmCode(Opcodes.STRUCT_DEF) then
      var (st2, s2) := StructDef(s1);
      if st2 != OK then (st2, s2) else Header(s2)
    else (INVALID_OP, s1)
  }

  // ---- Variables and jumps -----------------------------------------------

  /** `glacierVMSetVar`: pop into a slot of the current frame. */
  function SetVar(s: State): (r: (Status, State))
    requires Good(s)
    ensures Good(r.1)
  {
    var (st, id, s1) := ReadB(s);
    if st != OK then (st, s1)
    else
      var (st2, v, s2) := Pop(s1);
      if st2 != OK then (st2, s2)
      else
        var (st3, fs) := CsSet(s2.frames, id, Some(v));
        (st3, s2.(frames := fs))
  }

  /** `glacierVMGetVar`: push a slot of the current frame; an unset slot is ERROR. */
  function GetVar(s: State): (r: (Status, State))
    requires Good(s)
    ensures Good(r.1)
  {
    var (st, id, s1) := ReadB(s);
    if st != OK then (st, s1)
    else
      var (st2, b) := CsGot(s1.frames, id, UNBOUND);
      if b.Some? && b.value.Some? then Push(s1, b.value.value) else (st2, s1)
  }

  /**
   * `glacierVMJumpIfFalse`: an offset operand, then the condition popped;
   * it must be the int 0 or 1, and 0 jumps.
   */
  function JumpIfFalse(s: State): (r: (Status, State))
    requires Good(s)
    ensures Good(r.1)
  {
    var (st, off, s1) := ReadB(s);
    if st != OK then (st, s1)
    else
      var (st2, v, s2) := Pop(s1);
      if st2 != OK then (st2, s2)
      else
        var (st3, c) := AsInt(v);
        if st3 != OK then (st3, s2)
        else if c != 0 && c != 1 then (ASSERT_FAILED, s2)
        else if c == 0 then JumpTo(s2, off)
        else (OK, s2)
  }

  /** `glacierVMJump`. */
  function JumpOp(s: State): (r: (Status, State))
    requires Good(s)
    ensures Good(r.1)
  {
    var (st, off, s1) := ReadB(s);
    if st != OK then (st, s1) else JumpTo(s1, off)
  }

  /** One turn of the `glacierVMSetArgs` loop: pop, then store into slot `k` of the current frame. */
  function SetArg(s: State, k: int): (r: (Status, State))
    requires Good(s)
    ensures Good(r.1)
  {
    var (st, v, s1) := Pop(s);
    if st != OK then (st, s1)
    else
      var (st2, fs) := CsSet(s1.frames, k, Some(v));
      (st2, s1.(frames := fs))
  }

  /**
   * The `glacierVMSetArgs` loop from its `i`-th turn on: turn `i` stores
   * into slot n - i - 1.
   */
  function SetArgs(s: State, n: nat, i: nat): (r: (Status, State))
    requires Good(s) && i <= n
    ensures Good(r.1)
    decreases n - i
  {
    if i == n then (OK, s)
    else
      var (st, s1) := SetArg(s, n - i - 1);
      if st != OK then (st, s1) else SetArgs(s1, n, i + 1)
  }

  // ---- Structs -------------------------------------------------------------

  /**
   * `glacierVMStructAlloc`: a struct id, its member count from the symbol
   * table, that many values popped with the i-th popped stored at index
   * numMembers - i - 1, and the new struct pushed.
   */
  function StructAlloc(s: State): (r: (Status, State))
    requires Good(s)
    ensures Good(r.1)
  {
    var (st, id, s1) := ReadB(s);
    if st != OK then (st, s1)
    else
      var (st2, n) := TableGet(s1.structs, id);
      if st2 != OK then (st2, s1)
      else
        GetSpec(s1.structs, id);
        var (st3, vs, rest) := PopN(s1.stack, n.value);
        if st3 != OK then (st3, s1.(stack := rest))
        else
          var (st4, stk) := Pushed(rest, StructVal(id, |s1.heap|));
          if st4 != OK then (st4, s1.(stack := rest))
          else (OK, s1.(stack := stk, heap := s1.heap + [Reverse(vs)]))
  }

  /**
   * `glacierVMStructGetMember`: a member index, the struct popped, the
   * member pushed. The assert only rules out int and string type ids; a
   * vector or map read as a struct, or an index past the members, is
   * undefined.
   */
  function GetMember(s: State): (r: (Status, State))
    requires Good(s)
    ensures Good(r.1)
  {
    var (st, idx, s1) := ReadB(s);
    if st != OK then (st, s1)
    else
      var (st2, sv, s2) := Pop(s1);
      if st2 != OK then (st2, s2)
      else if TypeId(sv) == TYPEID_INT || TypeId(sv) == TYPEID_STRING then (ASSERT_FAILED, s2)
      else if !sv.StructVal? || sv.ref >= |s2.heap| || idx >= |s2.heap[sv.ref]| then (UNDEFINED, s2)
      else Push(s2, s2.heap[sv.ref][idx])
  }

  /**
   * `glacierVMStructSetMember`: a member index, the struct popped, then the
   * value popped and written into the struct. Nothing checks the type, so
   * anything but a struct, or an index past the members, is undefined.
   */
  function SetMember(s: State): (r: (Status, State))
    requires Good(s)
    ensures Good(r.1)
  {
    var (st, idx, s1) := ReadB(s);
    if st != OK then (st, s1)
    else
      var (st2, sv, s2) := Pop(s1);
      if st2 != OK then (st2, s2)
      else
        var (st3, v, s3) := Pop(s2);
        if st3 != OK then (st3, s3)
        else if !sv.StructVal? || sv.ref >= |s3.heap| || idx >= |s3.heap[sv.ref]| then (UNDEFINED, s3)
        else (OK, s3.(heap := s3.heap[sv.ref := s3.heap[sv.ref][idx := v]]))
  }

  // ---- Vectors and maps ------------------------------------------------------

  /**
   * `glacierVMVector`: a count, that many values popped and pushed onto a
   * new vector in pop order, and the vector pushed.
   */
  function VectorOp(s: State): (r: (Status, State))
    requires Good(s)
    ensures Good(r.1)
  {
    var (st, n, s1) := ReadB(s);
    if st != OK then (st, s1)
    else
      var (st2, vs, rest) := PopN(s1.stack, n);
      if st2 != OK then (st2, s1.(stack := rest))
      else Push(s1.(stack := rest), VecVal(vs))
  }

  /**
   * `glacierVMVectorAccess`: pop the index, then the vector; assert their
   * types; push the element, or OUT_OF_BUFFER past the end.
   */
  function VectorAccess(s: State): (r: (Status, State))
    requires Good(s)
    ensures Good(r.1)
  {
    var (st, index, s1) := Pop(s);
    if st != OK then (st, s1)
    else
      var (st2, vec, s2) := Pop(s1);
      if st2 != OK then (st2, s2)
      else if TypeId(index) != TYPEID_INT || TypeId(vec) != TYPEID_VECTOR then (ASSERT_FAILED, s2)
      else if !index.IntVal? || !vec.VecVal? then (UNDEFINED, s2)
      else if index.intValue >= |vec.elems| then (OUT_OF_BUFFER, s2)
      else Push(s2, vec.elems[index.intValue])
  }

  /**
   * The `glacierVMMap` loop for its last `n` turns: pop the value, then the
   * key, and set the pair in the map.
   */
  function MapPairs(stack: seq<Value>, m: MapState, n: nat): (r: (Status, MapState, seq<Value>))
    ensures |r.2| <= |stack|
  {
    if n == 0 then (OK, m, stack)
    else
      var (st, v, s1) := Popped(stack);
      if st != OK then (st, m, s1)
      else
        var (st2, k, s2) := Popped(s1);
        if st2 != OK then (st2, m, s2)
        else
          var (st3, m3) := MapSet(m, k.value, v.value);
          if st3 != OK then (st3, m3, s2) else MapPairs(s2, m3, n - 1)
  }

  /** The empty map `glacierMapInit` makes. */
  const EMPTY_MAP: MapState := MapState(MAP_INIT_BUCKET_LEN, [])

  /** `glacierVMMap`: a pair count, the pairs popped into a new map, and the map pushed. */
  function MapOp(s: State): (r: (Status, State))
    requires Good(s)
    ensures Good(r.1)
  {
    var (st, n, s1) := ReadB(s);
    if st != OK then (st, s1)
    else
      var (st2, m, rest) := MapPairs(s1.stack, EMPTY_MAP, n);
      if st2 != OK then (st2, s1.(stack := rest))
      else Push(s1.(stack := rest), MapVal(m))
  }

  /**
   * `glacierVMMapAccess`: pop the key and assert it is an int or string,
   * pop the map and assert it is one, then push the value found, or fail
   * with the lookup's status.
   */
  function MapAccess(s: State): (r: (Status, State))
    requires Good(s)
    ensures Good(r.1)
  {
    var (st, key, s1) := Pop(s);
    if st != OK then (st, s1)
    else if TypeId(key) != TYPEID_INT && TypeId(key) != TYPEID_STRING then (ASSERT_FAILED, s1)
    else
      var (st2, m, s2) := Pop(s1);
      if st2 != OK then (st2, s2)
      else if TypeId(m) != TYPEID_MAP then (ASSERT_FAILED, s2)
      else if !m.MapVal? then (UNDEFINED, s2)
      else
        var (st3, v) := MapGot(m.mapValue.chain, key);
        if st3 != OK then (st3, s2) else Push(s2, v.value)
  }

  // ---- Calls and returns -----------------------------------------------------

  /** `glacierVMReturnVal`: the top value must be an int or a string; nothing changes. */
  function ReturnVal(s: State): Status
    requires Good(s)
  {
    var (st, v) := Topped(s.stack);
    if st != OK then st
    else if TypeId(v.value) != TYPEID_INT && TypeId(v.value) != TYPEID_STRING then ASSERT_FAILED
    else OK
  }

  /**
   * The RETURN and RETURN_VAL case: take the frame's return offset and pop
   * the frame; jump back unless it was the last frame, whose offset must be
   * the -1 that `glacierVMRun` pushed.
   */
  function ReturnOp(s: State, withValue: bool): (r: (Status, State))
    requires Good(s)
    ensures Good(r.1)
  {
    var st := if withValue then ReturnVal(s) else OK;
    if st != OK then (st, s)
    else
      var (st2, off) := CsOffset(s.frames);
      if st2 != OK then (st2, s)
      else
        var (st3, fs) := CsPopped(s.frames);
        var s3 := s.(frames := fs);
        if st3 != OK then (st3, s3)
        else if |fs| != 0 then JumpTo(s3, off)
        else if off != -1 then (ASSERT_FAILED, s3)
        else (OK, s3)
  }

  /**
   * `glacierVMCallFunc` up to the call: a function id, its offset from the
   * function table, a frame that returns to the current offset, the jump.
   */
  function CallSetup(s: State): (r: (Status, State))
    requires Good(s)
    ensures Good(r.1)
  {
    var (st, id, s1) := ReadB(s);
    if st != OK then (st, s1)
    else
      var (st2, off) := TableGet(s1.functions, id);
      if st2 != OK then (st2, s1)
      else
        var (st3, fs) := CsPushed(s1.frames, s1.cur.offset, UNBOUND);
        if st3 != OK then (st3, s1)
        else JumpTo(s1.(frames := fs), off.value)
  }

  // ---- Dispatch ----------------------------------------------------------------

  /** The opcodes with a handler that neither calls nor returns. */
  predicate Simple(op: Opcodes.Op)
  {
    op in {Opcodes.INT, Opcodes.STRING, Opcodes.ADD, Opcodes.SUBTRACT, Opcodes.MULTIPLY,
           Opcodes.DIVIDE, Opcodes.EQ, Opcodes.LT, Opcodes.SET_VAR, Opcodes.GET_VAR,
           Opcodes.PRINT, Opcodes.JUMP_IF_FALSE, Opcodes.JUMP, Opcodes.STRUCT,
           Opcodes.GET_STRUCT_MEMBER, Opcodes.SET_STRUCT_MEMBER, Opcodes.VEC,
           Opcodes.VEC_ACCESS, Opcodes.MAP, Opcodes.MAP_ACCESS}
  }

  /** The operator of ADD, SUBTRACT, MULTIPLY, DIVIDE, EQ and LT. */
  function ArithOf(op: Opcodes.Op): Arith
  {
    if op == Opcodes.ADD then AddOp
    else if op == Opcodes.SUBTRACT then SubOp
    else if op == Opcodes.MULTIPLY then MulOp
    else if op == Opcodes.DIVIDE then DivOp
    else if op == Opcodes.EQ then EqOp
    else LtOp
  }

  /** The opcodes of the literal, arithmetic and print cases. */
  predicate ValueOp(op: Opcodes.Op)
  {
    op in {Opcodes.INT, Opcodes.STRING, Opcodes.ADD, Opcodes.SUBTRACT, Opcodes.MULTIPLY,
           Opcodes.DIVIDE, Opcodes.EQ, Opcodes.LT, Opcodes.PRINT}
  }

  /** The opcodes of the variable and jump cases. */
  predicate VarOp(op: Opcodes.Op)
  {
    op in {Opcodes.SET_VAR, Opcodes.GET_VAR, Opcodes.JUMP_IF_FALSE, Opcodes.JUMP}
  }

  /** The opcodes of the struct cases. */
  predicate StructOp(op: Opcodes.Op)
  {
    op in {Opcodes.STRUCT, Opcodes.GET_STRUCT_MEMBER, Opcodes.SET_STRUCT_MEMBER}
  }

  /** The literal, arithmetic and print cases of the dispatch `switch`. */
  function ExecValue(s: State, op: Opcodes.Op): (r: (Status, State))
    requires Good(s)
    ensures Good(r.1)
  {
    if op == Opcodes.INT then IntOp(s)
    else if op == Opcodes.STRING then StringOp(s)
    else if op == Opcodes.PRINT then Print(s)
    else Binary(s, ArithOf(op))
  }

  /** The variable and jump cases. */
  function ExecVar(s: State, op: Opcodes.Op): (r: (Status, State))
    requires Good(s)
    ensures Good(r.1)
  {
    if op == Opcodes.SET_VAR then SetVar(s)
    else if op == Opcodes.GET_VAR then GetVar(s)
    else if op == Opcodes.JUMP_IF_FALSE then JumpIfFalse(s)
    else JumpOp(s)
  }

  /** The struct cases. */
  function ExecStruct(s: State, op: Opcodes.Op): (r: (Status, State))
    requires Good(s)
    ensures Good(r.1)
  {
    if op == Opcodes.STRUCT then StructAlloc(s)
    else if op == Opcodes.GET_STRUCT_MEMBER then GetMember(s)
    else SetMember(s)
  }

  /** The vector and map cases. */
  function ExecCollection(s: State, op: Opcodes.Op): (r: (Status, State))
    requires Good(s)
    ensures Good(r.1)
  {
    if op == Opcodes.VEC then VectorOp(s)
    else if op == Opcodes.VEC_ACCESS then VectorAccess(s)
    else if op == Opcodes.MAP then MapOp(s)
    else MapAccess(s)
  }

  /** A handler that neither calls nor returns. */
  function Exec(s: State, op: Opcodes.Op): (r: (Status, State))
    requires Good(s) && Simple(op)
    ensures Good(r.1)
  {
    if ValueOp(op) then ExecValue(s, op)
    else if VarOp(op) then ExecVar(s, op)
    else if StructOp(op) then ExecStruct(s, op)
    else ExecCollection(s, op)
  }

  /**
   * One turn of the dispatch `switch` on an opcode byte already read: the
   * status, whether the function returned, and the state. A call runs the
   * callee's whole body before the turn ends; a byte with no case is
   * INVALID_OP.
   */
  function Dispatch(s: State, b: Byte, fuel: nat): (r: (Status, bool, State))
    requires Good(s)
    ensures Good(r.2)
    decreases fuel, 2
  {
    match Opcodes.VmDecode(b)
    case None => (INVALID_OP, false, s)
    case Some(op) =>
      if op == Opcodes.RETURN || op == Opcodes.RETURN_VAL then
        var (st, s1) := ReturnOp(s, op == Opcodes.RETURN_VAL);
        (st, true, s1)
      else if op == Opcodes.CALL_FUNC then
        var (st, s1) := CallSetup(s);
        if st != OK then (st, false, s1)
        else
          var (st2, s2) := FunctionDef(s1, fuel);
          (st2, false, s2)
      else if Simple(op) then
        var (st, s1) := Exec(s, op);
        (st, false, s1)
      else (INVALID_OP, false, s)
  }

  /**
   * `glacierVMFunctionDef`: the FUNCTION_DEF opcode (anything else is
   * ERROR), the function id and argument count, the arguments, then the
   * body.
   */
  function FunctionDef(s: State, fuel: nat): (r: (Status, State))
    requires Good(s)
    ensures Good(r.1)
    decreases fuel, 1
  {
    var (st, op, s1) := ReadB(s);
    if st != OK then (st, s1)
    else if op != Opcodes.VmCode(Opcodes.FUNCTION_DEF) then (ERROR, s1)
    else
      var (st2, id, s2) := ReadB(s1);
      if st2 != OK then (st2, s2)
      else
        var (st3, n, s3) := ReadB(s2);
        if st3 != OK then (st3, s3)
        else
          var (st4, s4) := SetArgs(s3, n, 0);
          if st4 != OK then (st4, s4) else Body(s4, fuel)
  }

  /** One turn of the dispatch loop: read an opcode byte and dispatch on it. */
  function Step(s: State, fuel: nat): (r: (Status, bool, State))
    requires Good(s)
    ensures Good(r.2)
    decreases fuel, 3
  {
    var (st, b, s1) := ReadB(s);
    Dispatch(s1, b, fuel)
  }

  /**
   * The dispatch loop of `glacierVMFunctionDef`: running off the end of
   * the bytecode is OUT_OF_BUFFER. Every turn takes one unit of `fuel`,
   * and a run that uses it all up ends with OUT_OF_FUEL.
   */
  function Body(s: State, fuel: nat): (r: (Status, State))
    requires Good(s)
    ensures Good(r.1)
    decreases fuel, 0
  {
    if fuel == 0 then (OUT_OF_FUEL, s)
    else if s.cur.offset >= s.cur.len then (OUT_OF_BUFFER, s)
    else
      var (st, done, s1) := Step(s, fuel - 1);
      if st != OK || done then (st, s1) else Body(s1, fuel - 1)
  }

  /** The dispatch loop stops at once without fuel or past the last byte. */
  lemma BodyStops(s: State, fuel: nat)
    requires Good(s) && (fuel == 0 || s.cur.offset >= s.cur.len)
    ensures Body(s, fuel) == (if fuel == 0 then OUT_OF_FUEL else OUT_OF_BUFFER, s)
  {
  }

  /** A turn of the dispatch loop with fuel and bytes left: Body after the Step it takes. */
  lemma BodyTurn(s: State, fuel: nat)
    requires Good(s) && fuel > 0 && s.cur.offset < s.cur.len
    ensures var r := Step(s, fuel - 1);
      Body(s, fuel) == if r.0 != OK || r.1 then (r.0, r.2) else Body(r.2, fuel - 1)
  {
  }

  /**
   * `glacierVMRun` once the header is read: the trim that makes offsets
   * count from the first body byte, the jump to function 0, its frame with
   * return offset -1, and its execution.
   */
  function Launch(s: State, fuel: nat): (r: (Status, State))
    requires Good(s)
    ensures Good(r.1)
  {
    var (st2, c) := Trimmed(s.cur);
    var s2 := s.(cur := c);
    if st2 != OK then (st2, s2)
    else
      var (st3, off) := TableGet(s2.functions, 0);
      if st3 != OK then (st3, s2)
      else
        var (st4, s4) := JumpTo(s2, off.value);
        if st4 != OK then (st4, s4)
        else
          var (st5, fs) := CsPushed(s4.frames, -1, UNBOUND);
          if st5 != OK then (st5, s4) else FunctionDef(s4.(frames := fs), fuel)
  }

  /** `glacierVMRun`: the header, then the launch of function 0. */
  function Run(s: State, fuel: nat): (r: (Status, State))
    requires Good(s)
    ensures Good(r.1)
  {
    var (st, s1) := Header(s);
    if st != OK then (st, s1) else Launch(s1, fuel)
  }

  /** The machine `vm/main.c` sets up: the program's bytes, empty stacks, fresh tables, no structs. */
  function Initial(buf: seq<Byte>): (r: State)
    ensures Good(r)
  {
    State(Cursor(buf, |buf|, 0), [], [], Repeat(UNSET, TABLE_INIT_LEN), Repeat(UNSET, TABLE_INIT_LEN), [], [])
  }
}
