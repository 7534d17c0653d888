/**
 * Where the compiler's output meets the VM. The compiler records function
 * offsets and patches jump operands relative to the start of the body
 * region; the VM trims the header off before it runs, so its offsets count
 * from the same place. The compiler pushes values in an order the VM's pops
 * undo: vector elements last first, call arguments and struct members in
 * declaration order. And the struct ids the compiler hands out pass the
 * VM's type-id check on member access. They part at the intrinsics
 * `push`, `len`, `pop` and `insert`, whose opcodes the VM has no case for.
 */
module Agreement {
  import opened Wrappers
  import opened Opcodes
  import opened VmStatus
  import opened VmValue
  import opened VmByteCode
  import opened VmStack
  import opened VmSpec
  import opened VmProps
  import Ast
  import CodeGen
  import StructDefs
  import Intrinsics

  /** The bytes `construct` produces: the header, HEADER_END, then the body. */
  function Program(header: seq<Byte>, body: seq<Byte>): (r: seq<Byte>)
    ensures |r| == |header| + 1 + |body|
  {
    header + [VmCode(HEADER_END)] + body
  }

  /**
   * Once the VM has read the header up to and including HEADER_END, the
   * trim leaves exactly the body, read from 0: body offset k is VM offset k.
   */
  lemma TrimLeavesBody(header: seq<Byte>, body: seq<Byte>)
    requires body != []
    ensures var p := Program(header, body);
      Trimmed(Cursor(p, |p|, |header| + 1)) == (OK, Cursor(body, |body|, 0))
  {
    var p := Program(header, body);
    assert p[|header| + 1..] == body;
  }

  /**
   * The offset the code generator records for a function, which the
   * function table writes into its FUNCTION_JMP record, is where the VM,
   * jumping there in the trimmed body, finds that function's FUNCTION_DEF
   * with its id and parameter count.
   */
  lemma FunctionOffsetFindsItsDef(structs: seq<(string, StructDefs.StructEntry)>, st: CodeGen.CgState, n: Ast.Node,
                                  depth: nat, body: seq<Byte>)
    requires n.Function? && CodeGen.Gen(structs, st, n, depth).Ok?
    requires var out := CodeGen.Gen(structs, st, n, depth).value.buf; |out| <= |body| && body[..|out|] == out
    ensures n.name in CodeGen.Gen(structs, st, n, depth).value.functions
    ensures var r := CodeGen.Gen(structs, st, n, depth).value;
      var off := r.functions[n.name].offset;
      var id := if n.name == "main" then 0 else st.nextId;
      0 <= off && off + 3 <= |body| &&
      Jumped(Cursor(body, |body|, 0), off) == (OK, Cursor(body, |body|, off)) &&
      body[off] == VmCode(FUNCTION_DEF) && body[off + 1] == id && body[off + 2] == |n.args| &&
      r.functions[n.name].functionId == id
  {
    CodeGen.FunctionEntry(structs, st, n, depth);
    var out := CodeGen.Gen(structs, st, n, depth).value.buf;
    var off := |st.buf|;
    assert body[off] == out[off] && body[off + 1] == out[off + 1] && body[off + 2] == out[off + 2] by {
      assert body[..|out|][off] == body[off];
    }
  }

  /**
   * An `if` in the VM: with the condition false, JUMP_IF_FALSE lands just
   * after the skip-else JUMP, whose operand is the end of the whole
   * statement; with it true, execution goes on into the then-branch.
   * `s` is the machine just after reading the JUMP_IF_FALSE opcode, over a
   * body that starts with the statement's code.
   */
  lemma IfBranchesLand(structs: seq<(string, StructDefs.StructEntry)>, st: CodeGen.CgState, n: Ast.Node, depth: nat,
                       s: State, c: Word)
    requires n.IfStatement? && CodeGen.Gen(structs, st, n, depth).Ok?
    requires CodeGen.Gen(structs, st, n.cond, depth).Ok?
    requires var cond := CodeGen.Gen(structs, st, n.cond, depth).value.buf;
      var out := CodeGen.Gen(structs, st, n, depth).value.buf;
      Good(s) && |out| < s.cur.len && s.cur.buf[..|out|] == out && s.cur.offset == |cond| + 1
    requires |s.stack| > 0 && s.stack[|s.stack| - 1] == IntVal(c) && c <= 1
    ensures var cond := CodeGen.Gen(structs, st, n.cond, depth).value.buf;
      var out := CodeGen.Gen(structs, st, n, depth).value.buf;
      var (r, t) := JumpIfFalse(s);
      r == OK && t.stack == s.stack[..|s.stack| - 1] &&
      (c == 1 ==> t.cur.offset == |cond| + 2) &&
      (c == 0 ==> 2 <= t.cur.offset <= |out|) &&
      (c == 0 ==> t.cur.buf[t.cur.offset - 2] == VmCode(JUMP) && t.cur.buf[t.cur.offset - 1] == |out|)
  {
    CodeGen.IfJumpsLand(structs, st, n, depth);
    var cond := CodeGen.Gen(structs, st, n.cond, depth).value.buf;
    var out := CodeGen.Gen(structs, st, n, depth).value.buf;
    var target := out[|cond| + 1];
    assert s.cur.buf[|cond| + 1] == target && s.cur.buf[target - 2] == out[target - 2] && s.cur.buf[target - 1] == out[target - 1] by {
      assert forall k :: 0 <= k < |out| ==> s.cur.buf[k] == s.cur.buf[..|out|][k];
    }
    JumpIfFalseSpec(s);
  }

  /**
   * A `while` in the VM: the back-edge JUMP goes to where the condition's
   * code starts, and a false condition leaves the loop just after that
   * back-edge. `s` reads the back-edge's operand, `s'` the JUMP_IF_FALSE's.
   */
  lemma WhileEdgesLand(structs: seq<(string, StructDefs.StructEntry)>, st: CodeGen.CgState, n: Ast.Node, depth: nat,
                       s: State, s': State)
    requires n.WhileLoop? && CodeGen.Gen(structs, st, n, depth).Ok?
    requires CodeGen.Gen(structs, st, n.cond, depth).Ok?
    requires var cond := CodeGen.Gen(structs, st, n.cond, depth).value.buf;
      var out := CodeGen.Gen(structs, st, n, depth).value.buf;
      Good(s) && |out| < s.cur.len && s.cur.buf[..|out|] == out && s.cur.offset == |out| - 1 &&
      Good(s') && |out| < s'.cur.len && s'.cur.buf[..|out|] == out && s'.cur.offset == |cond| + 1
    requires |s'.stack| > 0 && s'.stack[|s'.stack| - 1] == IntVal(0)
    ensures var cond := CodeGen.Gen(structs, st, n.cond, depth).value.buf;
      var out := CodeGen.Gen(structs, st, n, depth).value.buf;
      JumpOp(s) == (OK, s.(cur := s.cur.(offset := |st.buf|))) &&
      |st.buf| <= |cond| && cond[..|st.buf|] == st.buf &&
      JumpIfFalse(s') == (OK, s'.(cur := s'.cur.(offset := |out|), stack := s'.stack[..|s'.stack| - 1]))
  {
    CodeGen.WhileJumpsLand(structs, st, n, depth);
    var cond := CodeGen.Gen(structs, st, n.cond, depth).value.buf;
    var out := CodeGen.Gen(structs, st, n, depth).value.buf;
    assert s.cur.buf[|out| - 1] == |st.buf| by {
      assert s.cur.buf[..|out|][|out| - 1] == s.cur.buf[|out| - 1];
    }
    assert s'.cur.buf[|cond| + 1] == |out| by {
      assert s'.cur.buf[..|out|][|cond| + 1] == s'.cur.buf[|cond| + 1];
    }
    JumpIfFalseSpec(s');
  }

  /**
   * A vector literal: the compiler walks the elements last first and then
   * emits VEC(n); if that walk leaves the element values on the stack in
   * that order, the VM's VEC builds the vector with the elements in source
   * order.
   */
  lemma VectorLiteralInOrder(structs: seq<(string, StructDefs.StructEntry)>, st: CodeGen.CgState, n: Ast.Node, depth: nat,
                             s: State, base: seq<Value>, vs: seq<Value>)
    requires n.Vector? && |vs| == |n.elements|
    requires Good(s) && s.cur.offset < s.cur.len && At(s, 0) as int == |vs|
    requires s.stack == base + Reverse(vs) && |base| < MAX_STACK_SIZE
    ensures var w := CodeGen.GenList(structs, st, Reverse(n.elements), depth);
      CodeGen.Gen(structs, st, n, depth) == if w.Ok? then CodeGen.Emit(w.value, VEC, [|n.elements|]) else w
    ensures VectorOp(s) == (OK, Skip(s, 1).(stack := base + [VecVal(vs)]))
  {
    CodeGen.VectorEmitsReversed(structs, st, n, depth);
    VecReversesPops(s, base, Reverse(vs));
    ReverseReverse(vs);
  }

  /**
   * A call: parameter i of the callee gets variable slot i in the compiler,
   * and the VM's FUNCTION_DEF moves the i-th pushed argument into slot i,
   * so each parameter reads its own argument.
   */
  lemma ArgumentsMeetParameters(args: seq<(string, Ast.Type)>, s: State, base: seq<Value>, vs: seq<Value>)
    requires forall i, j :: 0 <= i < j < |args| ==> args[i].0 != args[j].0
    requires |vs| == |args| <= MAX_FRAME_BINDINGS
    requires Good(s) && |s.frames| > 0 && s.stack == base + vs
    ensures CodeGen.RegisterAll(CodeGen.NoVars, args).Ok?
    ensures var slots := CodeGen.RegisterAll(CodeGen.NoVars, args).value.bindings;
      var t := WithArgs(s, |vs|);
      t.stack == base &&
      forall i :: 0 <= i < |args| ==>
        args[i].0 in slots && slots[args[i].0] == i && t.frames[|t.frames| - 1].bindings[i] == Some(vs[i])
  {
    CodeGen.ParamsTakeFirstSlots(args);
    assert s.stack[|s.stack| - |vs|..] == vs;
    assert s.stack[..|s.stack| - |vs|] == base;
  }

  /**
   * When struct `i` is the first registered struct with a member `name`,
   * the index the compiler looks up across all structs is that member's
   * index in struct `i`.
   */
  lemma {:induction false} FirstStructWithMember(structs: seq<(string, StructDefs.StructEntry)>, i: nat, name: string)
    requires i < |structs| && CodeGen.MemberIndex(structs[i].1.members, name).Some?
    requires forall k :: 0 <= k < i ==> CodeGen.MemberIndex(structs[k].1.members, name).None?
    ensures CodeGen.StructMemberIndex(structs, name) == CodeGen.MemberIndex(structs[i].1.members, name)
  {
    if i > 0 {
      assert forall k :: 0 <= k < i - 1 ==> structs[1..][k] == structs[k + 1];
      FirstStructWithMember(structs[1..], i - 1, name);
    }
  }

  /**
   * Member access on a compiled struct: the compiler's ids start at 2, so
   * a struct value carrying one passes GET_STRUCT_MEMBER's check that the
   * value is neither an int nor a string. When no struct registered before
   * it has a member of that name, the index the compiler emits reads the
   * named member's value.
   */
  lemma CompiledStructMemberRead(ds: StructDefs.DefsState, i: nat, name: string, s: State, base: seq<Value>, ref: nat)
    requires StructDefs.IdsInRange(ds) && i < |ds.structs| && ds.structs[i].1.typeId < 256
    requires CodeGen.MemberIndex(ds.structs[i].1.members, name).Some?
    requires forall k :: 0 <= k < i ==> CodeGen.MemberIndex(ds.structs[k].1.members, name).None?
    requires CodeGen.StructMemberIndex(ds.structs, name).Some?
    requires Good(s) && s.cur.offset < s.cur.len && At(s, 0) as int == CodeGen.StructMemberIndex(ds.structs, name).value
    requires s.stack == base + [StructVal(ds.structs[i].1.typeId, ref)]
    requires ref < |s.heap| && |s.heap[ref]| == |ds.structs[i].1.members|
    ensures var k := CodeGen.StructMemberIndex(ds.structs, name).value;
      k < |ds.structs[i].1.members| && ds.structs[i].1.members[k].name == name &&
      GetMember(s) == Push(Skip(s, 1).(stack := base), s.heap[ref][k])
  {
    FirstStructWithMember(ds.structs, i, name);
    assert s.stack[..|s.stack| - 1] == base;
  }

  /**
   * Where they disagree: a call to `push`, `len`, `pop` or `insert`
   * compiles to its arguments followed by VEC_PUSH, VEC_LEN, VEC_POP or
   * MAP_INSERT, and the VM's dispatch has no case for any of the four, so
   * the last byte the compiler emits stops the machine with INVALID_OP.
   * Only `print` reaches a handler.
   */
  lemma IntrinsicOpcodesRejected(structs: seq<(string, StructDefs.StructEntry)>, st: CodeGen.CgState, n: Ast.Node, depth: nat,
                                 s: State, fuel: nat)
    requires n.FunctionCall? && Intrinsics.Lookup(n.callee).Some? && CodeGen.Gen(structs, st, n, depth).Ok?
    requires Good(s)
    ensures var buf, i := CodeGen.Gen(structs, st, n, depth).value.buf, Intrinsics.Lookup(n.callee).value;
      |buf| > 0 && VmDecode(buf[|buf| - 1]) == Some(Intrinsics.IntrinsicOp(i)) &&
      (Unhandled(Intrinsics.IntrinsicOp(i)) <==> i != Intrinsics.Print) &&
      (i != Intrinsics.Print ==> Dispatch(s, buf[|buf| - 1], fuel) == (INVALID_OP, false, s))
  {
    var buf, i := CodeGen.Gen(structs, st, n, depth).value.buf, Intrinsics.Lookup(n.callee).value;
    CodeGen.IntrinsicEmits(structs, st, n, depth);
    VmCodeDecodes(Intrinsics.IntrinsicOp(i));
    UnhandledIsInvalid(s, buf[|buf| - 1], fuel);
  }
}
