/**
 * The interpreter of vm/VM.c as it runs: a machine over the bytecode
 * reader, the operand stack, the call stack and the two tables, with one
 * method per handler. Every method is proved to return the status and
 * leave the state that the matching function of VmSpec describes.
 */
module Vm {
  import opened Wrappers
  import opened VmStatus
  import opened VmValue
  import opened VmByteCode
  import opened VmStack
  import opened VmTable
  import opened VmVector
  import opened VmMap
  import opened VmSpec
  import Opcodes

  /**
   * `GlacierVM`: the components `glacierVMInit` is handed, plus the struct
   * memory the handlers allocate (`heap`) and what `printf` has written
   * (`out`).
   */
  class Machine {
    const bc: ByteCode
    const stack: OperandStack
    const cs: CallStack<Binding>
    const functionTable: Table
    const symbolTable: Table
    var heap: seq<seq<Value>>
    var out: seq<Value>

    /** The objects the machine's methods may change. */
    ghost function Repr(): set<object>
    {
      {this, bc, stack, stack.data, cs, cs.frames, functionTable, symbolTable}
    }

    /** The whole machine as a value. */
    function St(): State
      reads this, bc, stack, stack.data, cs, cs.frames, functionTable, symbolTable
      requires stack.Valid() && cs.Valid()
    {
      State(bc.St(), stack.Contents(), cs.Frames(), functionTable.data, symbolTable.data, heap, out)
    }

    ghost predicate Valid()
      reads this, bc, stack, stack.data, cs, cs.frames, functionTable, symbolTable
    {
      functionTable != symbolTable && bc.Valid() && stack.Valid() && cs.Valid() &&
      cs.unset == UNBOUND && Good(St())
    }

    /** `glacierVMInit` over freshly set-up components holding the program `buf`. */
    constructor (buf: seq<Byte>)
      ensures Valid() && St() == Initial(buf)
    {
      bc := new ByteCode(buf, |buf|);
      stack := new OperandStack();
      cs := new CallStack(UNBOUND);
      functionTable := new Table();
      symbolTable := new Table();
      heap := [];
      out := [];
    }

    // ---- Primitive steps ---------------------------------------------------

    method ReadB() returns (status: Status, b: Byte)
      requires Valid()
      modifies bc
      ensures Valid() && (status, b, St()) == VmSpec.ReadB(old(St()))
    {
      status, b := bc.Read8();
    }

    method Push(v: Value) returns (status: Status)
      requires Valid()
      modifies stack, stack.data
      ensures Valid() && (status, St()) == VmSpec.Push(old(St()), v)
    {
      status := stack.Push(v);
    }

    method Pop() returns (status: Status, v: Value)
      requires Valid()
      modifies stack
      ensures Valid() && (status, v, St()) == VmSpec.Pop(old(St()))
    {
      var o;
      status, o := stack.Pop();
      v := if o.Some? then o.value else IntVal(0);
    }

    method JumpTo(target: int) returns (status: Status)
      requires Valid()
      modifies bc
      ensures Valid() && (status, St()) == VmSpec.JumpTo(old(St()), target)
    {
      status := bc.Jump(target);
    }

    // ---- Literals and arithmetic -------------------------------------------

    /** `glacierVMInt`. */
    method IntOp() returns (status: Status)
      requires Valid()
      modifies Repr()
      ensures Valid() && (status, St()) == VmSpec.IntOp(old(St()))
    {
      var b;
      status, b := ReadB();
      if status != OK {
        return;
      }
      status := Push(IntVal(b));
    }

    /** `glacierVMString`: the bytes are read one at a time. */
    method StringOp() returns (status: Status)
      requires Valid()
      modifies Repr()
      ensures Valid() && (status, St()) == VmSpec.StringOp(old(St()))
    {
      var n;
      status, n := ReadB();
      if status != OK {
        return;
      }
      ghost var s1 := St();
      var chars: seq<Byte> := [];
      var i := 0;
      while i < n
        invariant Valid() && i <= n
        invariant s1.cur.offset + i <= s1.cur.len
        invariant St() == s1.(cur := s1.cur.(offset := s1.cur.offset + i))
        invariant chars == s1.cur.buf[s1.cur.offset..s1.cur.offset + i]
      {
        var b;
        status, b := ReadB();
        if status != OK {
          return;
        }
        chars := chars + [b];
        i := i + 1;
      }
      status := Push(StrVal(chars));
    }

    /** The six arithmetic and comparison handlers. */
    method Binary(op: Arith) returns (status: Status)
      requires Valid()
      modifies Repr()
      ensures Valid() && (status, St()) == VmSpec.Binary(old(St()), op)
    {
      var rhs, lhs;
      status, rhs := Pop();
      if status != OK {
        return;
      }
      status, lhs := Pop();
      if status != OK {
        return;
      }
      var (a1, l) := AsInt(lhs);
      var (a2, r) := AsInt(rhs);
      if a1 == ASSERT_FAILED || a2 == ASSERT_FAILED {
        return ASSERT_FAILED;
      }
      if a1 != OK || a2 != OK {
        return UNDEFINED;
      }
      var x := Apply(op, l, r);
      if x.None? {
        return UNDEFINED;
      }
      status := Push(IntVal(x.value));
    }

    /** `glacierVMPrint`. */
    method Print() returns (status: Status)
      requires Valid()
      modifies Repr()
      ensures Valid() && (status, St()) == VmSpec.Print(old(St()))
    {
      var v;
      status, v := Pop();
      if status != OK {
        return;
      }
      if TypeId(v) == TYPEID_INT {
        if !v.IntVal? {
          return UNDEFINED;
        }
        out := out + [v];
      } else if TypeId(v) == TYPEID_STRING {
        if !v.StrVal? {
          return UNDEFINED;
        }
        out := out + [StrVal(CString(v.chars))];
      } else {
        return INVALID_OP;
      }
    }

    // ---- Header ----------------------------------------------------------------

    /** `glacierVMFunctionJmp`. */
    method FunctionJmp() returns (status: Status)
      requires Valid()
      modifies Repr()
      ensures Valid() && (status, St()) == VmSpec.FunctionJmp(old(St()))
    {
      var id, off;
      status, id := ReadB();
      if status != OK {
        return;
      }
      status, off := ReadB();
      if status != OK {
        return;
      }
      status := functionTable.Set(id, off);
    }

    /** The member-type loop of `glacierVMStructDef`. */
    method MemberTypes(n: nat) returns (status: Status)
      requires Valid()
      modifies Repr()
      ensures Valid() && (status, St()) == VmSpec.MemberTypes(old(St()), n)
    {
      var i := 0;
      while i < n
        invariant Valid() && i <= n
        invariant VmSpec.MemberTypes(old(St()), n) == VmSpec.MemberTypes(St(), n - i)
      {
        var t;
        status, t := ReadB();
        if status != OK {
          return;
        }
        if t != TYPEID_INT && t != TYPEID_STRING {
          return INVALID_OP;
        }
        i := i + 1;
      }
      status := OK;
    }

    /** `glacierVMStructDef`. */
    method StructDef() returns (status: Status)
      requires Valid()
      modifies Repr()
      ensures Valid() && (status, St()) == VmSpec.StructDef(old(St()))
    {
      var id, n;
      status, id := ReadB();
      if status != OK {
        return;
      }
      status, n := ReadB();
      if status != OK {
        return;
      }
      status := symbolTable.Set(id, n);
      if status != OK {
        return;
      }
      status := MemberTypes(n);
    }

    /** `glacierVMHeader`. */
    method Header() returns (status: Status)
      requires Valid()
      modifies Repr()
      ensures Valid() && (status, St()) == VmSpec.Header(old(St()))
    {
      while true
        invariant Valid()
        invariant VmSpec.Header(old(St())) == VmSpec.Header(St())
        decreases bc.len - bc.offset
      {
        var b;
        status, b := ReadB();
        if status != OK {
          return;
        }
        if b == Opcodes.VmCode(Opcodes.HEADER_END) {
          return OK;
        }
        if b == Opcodes.VmCode(Opcodes.FUNCTION_JMP) {
          status := FunctionJmp();
        } else if b == Opcodes.VmCode(Opcodes.STRUCT_DEF) {
          status := StructDef();
        } else {
          return INVALID_OP;
        }
        if status != OK {
          return;
        }
      }
    }

    // ---- Variables and jumps -----------------------------------------------------

    /** `glacierVMSetVar`. */
    method SetVar() returns (status: Status)
      requires Valid()
      modifies Repr()
      ensures Valid() && (status, St()) == VmSpec.SetVar(old(St()))
    {
      var id, v;
      status, id := ReadB();
      if status != OK {
        return;
      }
      status, v := Pop();
      if status != OK {
        return;
      }
      status := cs.Set(id, Some(v));
    }

    /** `glacierVMGetVar`. */
    method GetVar() returns (status: Status)
      requires Valid()
      modifies Repr()
      ensures Valid() && (status, St()) == VmSpec.GetVar(old(St()))
    {
      var id, b;
      status, id := ReadB();
      if status != OK {
        return;
      }
      status, b := cs.Get(id);
      if !(b.Some? && b.value.Some?) {
        return;
      }
      status := Push(b.value.value);
    }

    /** `glacierVMJumpIfFalse`. */
    method JumpIfFalse() returns (status: Status)
      requires Valid()
      modifies Repr()
      ensures Valid() && (status, St()) == VmSpec.JumpIfFalse(old(St()))
    {
      var off, v;
      status, off := ReadB();
      if status != OK {
        return;
      }
      status, v := Pop();
      if status != OK {
        return;
      }
      var (st, c) := AsInt(v);
      if st != OK {
        return st;
      }
      if c != 0 && c != 1 {
        return ASSERT_FAILED;
      }
      if c == 0 {
        status := JumpTo(off);
      }
    }

    /** `glacierVMJump`. */
    method JumpOp() returns (status: Status)
      requires Valid()
      modifies Repr()
      ensures Valid() && (status, St()) == VmSpec.JumpOp(old(St()))
    {
      var off;
      status, off := ReadB();
      if status != OK {
        return;
      }
      status := JumpTo(off);
    }

    /** One turn of the `glacierVMSetArgs` loop. */
    method SetArg(k: int) returns (status: Status)
      requires Valid()
      modifies Repr()
      ensures Valid() && (status, St()) == VmSpec.SetArg(old(St()), k)
    {
      var v;
      status, v := Pop();
      if status != OK {
        return;
      }
      status := cs.Set(k, Some(v));
    }

    /** `glacierVMSetArgs`. */
    method SetArgs(n: nat) returns (status: Status)
      requires Valid()
      modifies Repr()
      ensures Valid() && (status, St()) == VmSpec.SetArgs(old(St()), n, 0)
    {
      var i := 0;
      while i < n
        invariant Valid() && i <= n
        invariant VmSpec.SetArgs(old(St()), n, 0) == VmSpec.SetArgs(St(), n, i)
      {
        status := SetArg(n - i - 1);
        if status != OK {
          return;
        }
        i := i + 1;
      }
      status := OK;
    }

    // ---- Structs -------------------------------------------------------------------

    /**
     * The pop loop of `glacierVMStructAlloc`: the i-th value popped goes to
     * index n - i - 1, so the members come out in push order.
     */
    method PopMembers(n: nat) returns (status: Status, members: seq<Value>)
      requires Valid()
      modifies stack
      ensures Valid()
      ensures var p := PopN(old(St()).stack, n);
        status == p.0 && St() == old(St()).(stack := p.2) && (status == OK ==> members == Reverse(p.1))
    {
      ghost var s1 := St();
      assert [] + PopN(s1.stack, n).1 == PopN(s1.stack, n).1;
      members := Repeat(ZERO, n);
      ghost var popped: seq<Value> := [];
      var i := 0;
      while i < n
        invariant Valid() && i <= n && |members| == n && |popped| == i
        invariant St() == s1.(stack := stack.Contents())
        invariant forall j :: 0 <= j < i ==> members[n - 1 - j] == popped[j]
        invariant var p := PopN(stack.Contents(), n - i);
          PopN(s1.stack, n) == (p.0, popped + p.1, p.2)
      {
        ghost var before := stack.Contents();
        var v;
        status, v := Pop();
        PopNOneMore(PopN(s1.stack, n), popped, before, n - i);
        if status != OK {
          return;
        }
        members := members[n - i - 1 := v];
        popped := popped + [v];
        i := i + 1;
      }
      PopNNoMore(PopN(s1.stack, n), popped, stack.Contents());
      assert members == Reverse(popped);
      status := OK;
    }

    /** `glacierVMStructAlloc`. */
    method StructAlloc() returns (status: Status)
      requires Valid()
      modifies Repr()
      ensures Valid() && (status, St()) == VmSpec.StructAlloc(old(St()))
    {
      var id, n;
      status, id := ReadB();
      if status != OK {
        return;
      }
      status, n := symbolTable.Get(id);
      if status != OK {
        return;
      }
      GetSpec(symbolTable.data, id);
      var members;
      status, members := PopMembers(n.value);
      if status != OK {
        return;
      }
      status := Push(StructVal(id, |heap|));
      if status != OK {
        return;
      }
      heap := heap + [members];
    }

    /** `glacierVMStructGetMember`. */
    method GetMember() returns (status: Status)
      requires Valid()
      modifies Repr()
      ensures Valid() && (status, St()) == VmSpec.GetMember(old(St()))
    {
      var idx, sv;
      status, idx := ReadB();
      if status != OK {
        return;
      }
      status, sv := Pop();
      if status != OK {
        return;
      }
      if TypeId(sv) == TYPEID_INT || TypeId(sv) == TYPEID_STRING {
        return ASSERT_FAILED;
      }
      if !sv.StructVal? || sv.ref >= |heap| || idx >= |heap[sv.ref]| {
        return UNDEFINED;
      }
      status := Push(heap[sv.ref][idx]);
    }

    /** `glacierVMStructSetMember`. */
    method SetMember() returns (status: Status)
      requires Valid()
      modifies Repr()
      ensures Valid() && (status, St()) == VmSpec.SetMember(old(St()))
    {
      var idx, sv, v;
      status, idx := ReadB();
      if status != OK {
        return;
      }
      status, sv := Pop();
      if status != OK {
        return;
      }
      status, v := Pop();
      if status != OK {
        return;
      }
      if !sv.StructVal? || sv.ref >= |heap| || idx >= |heap[sv.ref]| {
        return UNDEFINED;
      }
      heap := heap[sv.ref := heap[sv.ref][idx := v]];
    }

    // ---- Vectors and maps -------------------------------------------------------------

    /** The pop loop of `glacierVMVector`: each value popped is pushed onto the empty `vec`. */
    method FillVector(vec: Vector, n: nat) returns (status: Status)
      requires Valid() && vec.Valid() && vec.capacity > 0 && vec.Elements() == []
      modifies stack, vec
      ensures Valid() && vec.Valid()
      ensures var p := PopN(old(St()).stack, n);
        status == p.0 && St() == old(St()).(stack := p.2) && vec.Elements() == p.1
    {
      ghost var s1 := St();
      assert [] + PopN(s1.stack, n).1 == PopN(s1.stack, n).1;
      var i := 0;
      while i < n
        invariant Valid() && i <= n && vec.Valid() && vec.capacity > 0
        invariant St() == s1.(stack := stack.Contents())
        invariant var p := PopN(stack.Contents(), n - i);
          PopN(s1.stack, n) == (p.0, vec.Elements() + p.1, p.2)
      {
        ghost var before := stack.Contents();
        var v;
        status, v := Pop();
        PopNOneMore(PopN(s1.stack, n), vec.Elements(), before, n - i);
        if status != OK {
          return;
        }
        status := vec.Push(v);
        i := i + 1;
      }
      PopNNoMore(PopN(s1.stack, n), vec.Elements(), stack.Contents());
      status := OK;
    }

    /** `glacierVMVector`: the values are pushed onto a fresh vector in the order they are popped. */
    method VectorOp() returns (status: Status)
      requires Valid()
      modifies Repr()
      ensures Valid() && (status, St()) == VmSpec.VectorOp(old(St()))
    {
      var n;
      status, n := ReadB();
      if status != OK {
        return;
      }
      var vec := new Vector();
      status := FillVector(vec, n);
      if status != OK {
        vec.Destroy();
        return;
      }
      status := Push(VecVal(vec.Elements()));
      if status != OK {
        vec.Destroy();
      }
    }

    /** `glacierVMVectorAccess`. */
    method VectorAccess() returns (status: Status)
      requires Valid()
      modifies Repr()
      ensures Valid() && (status, St()) == VmSpec.VectorAccess(old(St()))
    {
      var index, vec;
      status, index := Pop();
      if status != OK {
        return;
      }
      status, vec := Pop();
      if status != OK {
        return;
      }
      if TypeId(index) != TYPEID_INT || TypeId(vec) != TYPEID_VECTOR {
        return ASSERT_FAILED;
      }
      if !index.IntVal? || !vec.VecVal? {
        return UNDEFINED;
      }
      var (st, e) := VecGot(vec.elems, index.intValue);
      if st != OK {
        return st;
      }
      status := Push(e.value);
    }

    /** The loop of `glacierVMMap`: pop a value, then its key, and set the pair in `m`. */
    method FillMap(m: Map, n: nat) returns (status: Status)
      requires Valid() && m.Valid()
      modifies stack, m
      ensures Valid() && m.Valid()
      ensures var r := MapPairs(old(St()).stack, old(m.St()), n);
        status == r.0 && m.St() == r.1 && St() == old(St()).(stack := r.2)
    {
      ghost var s1 := St();
      var i := 0;
      while i < n
        invariant Valid() && i <= n && m.Valid()
        invariant St() == s1.(stack := stack.Contents())
        invariant MapPairs(s1.stack, old(m.St()), n) == MapPairs(stack.Contents(), m.St(), n - i)
      {
        var key, value;
        status, value := Pop();
        if status != OK {
          return;
        }
        status, key := Pop();
        if status != OK {
          return;
        }
        status := m.Set(key, value);
        if status != OK {
          return;
        }
        i := i + 1;
      }
      status := OK;
    }

    /** `glacierVMMap`. */
    method MapOp() returns (status: Status)
      requires Valid()
      modifies Repr()
      ensures Valid() && (status, St()) == VmSpec.MapOp(old(St()))
    {
      var n;
      status, n := ReadB();
      if status != OK {
        return;
      }
      var m := new Map();
      status := FillMap(m, n);
      if status != OK {
        m.Destroy();
        return;
      }
      status := Push(MapVal(m.St()));
      if status != OK {
        m.Destroy();
      }
    }

    /** `glacierVMMapAccess`. */
    method MapAccess() returns (status: Status)
      requires Valid()
      modifies Repr()
      ensures Valid() && (status, St()) == VmSpec.MapAccess(old(St()))
    {
      var key, m;
      status, key := Pop();
      if status != OK {
        return;
      }
      if TypeId(key) != TYPEID_INT && TypeId(key) != TYPEID_STRING {
        return ASSERT_FAILED;
      }
      status, m := Pop();
      if status != OK {
        return;
      }
      if TypeId(m) != TYPEID_MAP {
        return ASSERT_FAILED;
      }
      if !m.MapVal? {
        return UNDEFINED;
      }
      var (st, v) := MapGot(m.mapValue.chain, key);
      if st != OK {
        return st;
      }
      status := Push(v.value);
    }

    // ---- Calls and returns ----------------------------------------------------------------

    /** `glacierVMReturnVal`. */
    method ReturnVal() returns (status: Status)
      requires Valid()
      ensures status == VmSpec.ReturnVal(St())
    {
      var v;
      status, v := stack.Top();
      if status != OK {
        return;
      }
      if TypeId(v.value) != TYPEID_INT && TypeId(v.value) != TYPEID_STRING {
        return ASSERT_FAILED;
      }
    }

    /** The RETURN and RETURN_VAL case of the dispatch `switch`. */
    method ReturnOp(withValue: bool) returns (status: Status)
      requires Valid()
      modifies Repr()
      ensures Valid() && (status, St()) == VmSpec.ReturnOp(old(St()), withValue)
    {
      if withValue {
        status := ReturnVal();
        if status != OK {
          return;
        }
      }
      var off;
      status, off := cs.GetByteCodeOffset();
      if status != OK {
        return;
      }
      status := cs.Pop();
      if status != OK {
        return;
      }
      if cs.stackPointer != 0 {
        status := JumpTo(off);
      } else if off != -1 {
        status := ASSERT_FAILED;
      }
    }

    /** `glacierVMCallFunc` up to the call of `glacierVMFunctionDef`. */
    method CallSetup() returns (status: Status)
      requires Valid()
      modifies Repr()
      ensures Valid() && (status, St()) == VmSpec.CallSetup(old(St()))
    {
      var id, off;
      status, id := ReadB();
      if status != OK {
        return;
      }
      status, off := functionTable.Get(id);
      if status != OK {
        return;
      }
      status := cs.Push(bc.offset);
      if status != OK {
        return;
      }
      status := JumpTo(off.value);
    }

    // ---- Dispatch ---------------------------------------------------------------------------

    method ExecValue(op: Opcodes.Op) returns (status: Status)
      requires Valid()
      modifies Repr()
      ensures Valid() && (status, St()) == VmSpec.ExecValue(old(St()), op)
    {
      if op == Opcodes.INT {
        status := IntOp();
      } else if op == Opcodes.STRING {
        status := StringOp();
      } else if op == Opcodes.PRINT {
        status := Print();
      } else {
        status := Binary(ArithOf(op));
      }
    }

    method ExecVar(op: Opcodes.Op) returns (status: Status)
      requires Valid()
      modifies Repr()
      ensures Valid() && (status, St()) == VmSpec.ExecVar(old(St()), op)
    {
      if op == Opcodes.SET_VAR {
        status := SetVar();
      } else if op == Opcodes.GET_VAR {
        status := GetVar();
      } else if op == Opcodes.JUMP_IF_FALSE {
        status := JumpIfFalse();
      } else {
        status := JumpOp();
      }
    }

    method ExecStruct(op: Opcodes.Op) returns (status: Status)
      requires Valid()
      modifies Repr()
      ensures Valid() && (status, St()) == VmSpec.ExecStruct(old(St()), op)
    {
      if op == Opcodes.STRUCT {
        status := StructAlloc();
      } else if op == Opcodes.GET_STRUCT_MEMBER {
        status := GetMember();
      } else {
        status := SetMember();
      }
    }

    method ExecCollection(op: Opcodes.Op) returns (status: Status)
      requires Valid()
      modifies Repr()
      ensures Valid() && (status, St()) == VmSpec.ExecCollection(old(St()), op)
    {
      if op == Opcodes.VEC {
        status := VectorOp();
      } else if op == Opcodes.VEC_ACCESS {
        status := VectorAccess();
      } else if op == Opcodes.MAP {
        status := MapOp();
      } else {
        status := MapAccess();
      }
    }

    /** The cases of the dispatch `switch` that neither call nor return. */
    method Exec(op: Opcodes.Op) returns (status: Status)
      requires Valid() && Simple(op)
      modifies Repr()
      ensures Valid() && (status, St()) == VmSpec.Exec(old(St()), op)
    {
      if ValueOp(op) {
        status := ExecValue(op);
      } else if VarOp(op) {
        status := ExecVar(op);
      } else if StructOp(op) {
        status := ExecStruct(op);
      } else {
        status := ExecCollection(op);
      }
    }

    /**
     * One turn of the dispatch `switch` on an opcode byte already read: the
     * status and whether the function returned.
     */
    method Dispatch(b: Byte, fuel: nat) returns (status: Status, done: bool)
      requires Valid()
      modifies Repr()
      ensures Valid() && (status, done, St()) == VmSpec.Dispatch(old(St()), b, fuel)
      decreases fuel, 2
    {
      var d := Opcodes.VmDecode(b);
      if d.None? {
        return INVALID_OP, false;
      }
      var op := d.value;
      done := false;
      if op == Opcodes.RETURN || op == Opcodes.RETURN_VAL {
        status := ReturnOp(op == Opcodes.RETURN_VAL);
        done := true;
      } else if op == Opcodes.CALL_FUNC {
        status := CallSetup();
        if status != OK {
          return;
        }
        status := FunctionDef(fuel);
      } else if Simple(op) {
        status := Exec(op);
      } else {
        status := INVALID_OP;
      }
    }

    /** `glacierVMFunctionDef` up to its dispatch loop. */
    method FunctionDef(fuel: nat) returns (status: Status)
      requires Valid()
      modifies Repr()
      ensures Valid() && (status, St()) == VmSpec.FunctionDef(old(St()), fuel)
      decreases fuel, 1
    {
      var op, id, n;
      status, op := ReadB();
      if status != OK {
        return;
      }
      if op != Opcodes.VmCode(Opcodes.FUNCTION_DEF) {
        return ERROR;
      }
      status, id := ReadB();
      if status != OK {
        return;
      }
      status, n := ReadB();
      if status != OK {
        return;
      }
      status := SetArgs(n);
      if status != OK {
        return;
      }
      status := Body(fuel);
    }

    /**
     * One turn of the dispatch loop of `glacierVMFunctionDef`: the loop
     * from the old state is the loop from the new one, or the call ends here.
     */
    method Step(fuel: nat) returns (status: Status, done: bool)
      requires Valid()
      modifies Repr()
      ensures Valid()
      ensures old(St()).cur.offset < old(St()).cur.len ==>
        VmSpec.Body(old(St()), fuel + 1) == if status != OK || done then (status, St()) else VmSpec.Body(St(), fuel)
      decreases fuel, 3
    {
      ghost var s0 := St();
      var b;
      status, b := ReadB();
      status, done := Dispatch(b, fuel);
      if s0.cur.offset < s0.cur.len {
        BodyTurn(s0, fuel + 1);
      }
    }

    /**
     * The dispatch loop of `glacierVMFunctionDef`. Each turn takes one unit
     * of `fuel`; running out ends the call with OUT_OF_FUEL.
     */
    method Body(fuel: nat) returns (status: Status)
      requires Valid()
      modifies Repr()
      ensures Valid() && (status, St()) == VmSpec.Body(old(St()), fuel)
      decreases fuel, 0
    {
      var f: nat := fuel;
      while bc.offset < bc.len
        invariant Valid() && f <= fuel
        invariant VmSpec.Body(old(St()), fuel) == VmSpec.Body(St(), f)
        decreases f
      {
        if f == 0 {
          BodyStops(St(), f);
          return OUT_OF_FUEL;
        }
        var done;
        status, done := Step(f - 1);
        if status != OK || done {
          return;
        }
        f := f - 1;
      }
      BodyStops(St(), f);
      if f == 0 {
        return OUT_OF_FUEL;
      }
      status := OUT_OF_BUFFER;
    }

    /** `glacierVMRun`: the header, then function 0. */
    method Run(fuel: nat) returns (status: Status)
      requires Valid()
      modifies Repr()
      ensures Valid() && (status, St()) == VmSpec.Run(old(St()), fuel)
    {
      status := Header();
      if status != OK {
        return;
      }
      status := Launch(fuel);
    }

    /** `glacierVMRun` after the header: the trim, the jump to function 0, its frame and its execution. */
    method Launch(fuel: nat) returns (status: Status)
      requires Valid()
      modifies Repr()
      ensures Valid() && (status, St()) == VmSpec.Launch(old(St()), fuel)
    {
      status := bc.Trim();
      if status != OK {
        return;
      }
      var off;
      status, off := functionTable.Get(0);
      if status != OK {
        return;
      }
      status := JumpTo(off.value);
      if status != OK {
        return;
      }
      status := cs.Push(-1);
      if status != OK {
        return;
      }
      status := FunctionDef(fuel);
    }
  }
}
