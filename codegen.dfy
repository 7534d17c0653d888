/**
 * The code generator (compiler/passes/codegen.py) and the code generation
 * rules of the intrinsics (compiler/passes/intrinsics.py). It appends each
 * node's instructions to the body region of the byte buffer, gives every
 * variable of a function a slot and every function an id, and lowers `if`
 * and `while` by reserving jumps and patching their targets once known.
 */
module CodeGen {
  import opened Wrappers
  import opened Opcodes
  import opened Ast
  import Dicts
  import Emitter
  import StructDefs
  import Intrinsics
  import Lexing
  import CompilerTokens

  /** `VariableStore`: the slot of each variable and the next slot to hand out. */
  datatype Vars = Vars(bindings: map<string, nat>, currentId: nat)

  /** The store after `__init__` or `clear`. */
  const NoVars: Vars := Vars(map[], 0)

  /** `register_variable`: a new name takes the next slot; a name seen before raises RuntimeError. */
  function Register(v: Vars, name: string): Result<(nat, Vars), PyError>
  {
    if name in v.bindings then Err(RuntimeError)
    else Ok((v.currentId, Vars(v.bindings[name := v.currentId], v.currentId + 1)))
  }

  /** `get_variable`: the slot of a registered name; an unknown name raises RuntimeError. */
  function Slot(v: Vars, name: string): Result<nat, PyError>
  {
    if name in v.bindings then Ok(v.bindings[name]) else Err(RuntimeError)
  }

  /** The parameters of a function registered in order. */
  function RegisterAll(v: Vars, args: seq<(string, Type)>): Result<Vars, PyError>
    decreases |args|
  {
    if args == [] then Ok(v)
    else
      var (_, v1) :- Register(v, args[0].0);
      RegisterAll(v1, args[1..])
  }

  /**
   * The generator's state: the body region of the byte buffer, the variable
   * store, the `function_id` and `offset` given to each function so far (by
   * name), and the next function id.
   */
  datatype CgState = CgState(buf: seq<Byte>, vars: Vars, functions: map<string, FunctionAttrs>, nextId: nat)

  /** `write_op` on the body: ValueError when an argument is not a byte. */
  function Emit(st: CgState, op: Op, args: seq<int>): Result<CgState, PyError>
  {
    var b :- Emitter.Appended(st.buf, VmCode(op), args);
    Ok(st.(buf := b))
  }

  /** `edit_op` on the body. */
  function Patch(st: CgState, offset: int, op: Op, args: seq<int>): Result<CgState, PyError>
  {
    var (b, e) := Emitter.EditBytes(st.buf, offset, VmCode(op), args);
    if e.Some? then Err(e.value) else Ok(st.(buf := b))
  }

  /** The UTF-8 encoding of one character (section 3 of RFC 3629). */
  function Utf8Char(c: char): (r: seq<Byte>)
    ensures 1 <= |r| <= 4
    ensures |r| == 1 <==> (c as int) < 0x80
  {
    var x := c as int;
    if x < 0x80 then [x]
    else if x < 0x800 then [0xC0 + x / 64, 0x80 + x % 64]
    else if x < 0x10000 then [0xE0 + x / 4096, 0x80 + (x / 64) % 64, 0x80 + x % 64]
    else [0xF0 + x / 262144, 0x80 + (x / 4096) % 64, 0x80 + (x / 64) % 64, 0x80 + x % 64]
  }

  /** `bytes(s, "utf-8")`. */
  function Utf8(s: string): seq<Byte>
  {
    if s == [] then [] else Utf8Char(s[0]) + Utf8(s[1..])
  }

  /** The index of the first member of that name. */
  function MemberIndex(ms: seq<Member>, name: string): (r: Option<nat>)
    ensures r.Some? ==> r.value < |ms| && ms[r.value].name == name
    ensures r.Some? ==> forall j :: 0 <= j < r.value ==> ms[j].name != name
    ensures r.None? ==> forall j :: 0 <= j < |ms| ==> ms[j].name != name
  {
    if ms == [] then None
    else if ms[0].name == name then Some(0)
    else match MemberIndex(ms[1..], name)
      case None => None
      case Some(i) => Some(i + 1)
  }

  /**
   * The member index `_walk_assignment` and `_walk_member_access` emit: the
   * position of the member in the first registered struct that has a member
   * of that name, whatever struct the target is.
   */
  function StructMemberIndex(structs: seq<(string, StructDefs.StructEntry)>, name: string): Option<nat>
  {
    if structs == [] then None
    else match MemberIndex(structs[0].1.members, name)
      case Some(i) => Some(i)
      case None => StructMemberIndex(structs[1..], name)
  }

  /**
   * `_walk`: the handler of the node's class. `depth` bounds how deeply
   * default values of struct members may be walked: a default is a node of
   * the struct definition rather than a part of `n`, and one that constructs
   * its own struct recurses until Python's recursion limit.
   */
  function Gen(structs: seq<(string, StructDefs.StructEntry)>, st: CgState, n: Node, depth: nat): Result<CgState, PyError>
    decreases depth, n, 3
  {
    match n
    case Structure(_, _, fs) => GenList(structs, st, fs, depth)
    case LetStatement(x, rhs) =>
      var s1 :- Gen(structs, st, rhs, depth);
      var (id, v) :- Register(s1.vars, x);
      Emit(s1.(vars := v), SET_VAR, [id])
    case IfStatement(_, _, _) => GenIf(structs, st, n, depth)
    case WhileLoop(_, _) => GenWhile(structs, st, n, depth)
    case ExprStatement(e) => Gen(structs, st, e, depth)
    case BinaryOp(_, _, _) => GenBinary(structs, st, n, depth)
    case Function(_, _, _, _) => GenFunction(structs, st, n, depth)
    case ReturnStatement(v) =>
      if v.None? then Emit(st, RETURN, [])
      else
        var s1 :- Gen(structs, st, v.value, depth);
        Emit(s1, RETURN_VAL, [])
    case Number(x) => Emit(st, Op.INT, [x])
    case String(text) => Emit(st, Op.STRING, [|text|] + Utf8(text))
    case Vector(es, _) =>
      var s1 :- GenBackward(structs, st, n, |es|, depth);
      Emit(s1, VEC, [|es|])
    case Map(entries, _) =>
      var s1 :- GenEntries(structs, st, n, 0, depth);
      Emit(s1, Op.MAP, [|entries|])
    case Index(_, _, _) => GenIndex(structs, st, n, depth)
    case VariableRef(x) =>
      var id :- Slot(st.vars, x);
      Emit(st, GET_VAR, [id])
    case Constructor(_, _) => GenConstructor(structs, st, n, depth)
    case FunctionCall(_, _) => GenCall(structs, st, n, depth)
    case MemberAccess(_, _) => GenMemberAccess(structs, st, n, depth)
    case Other => Err(RuntimeError)
  }

  /** A list of statements or arguments walked in order. */
  function GenList(structs: seq<(string, StructDefs.StructEntry)>, st: CgState, ns: seq<Node>, depth: nat): Result<CgState, PyError>
    decreases depth, ns, 1
  {
    if ns == [] then Ok(st)
    else
      var s1 :- Gen(structs, st, ns[0], depth);
      GenList(structs, s1, ns[1..], depth)
  }

  /** `for e in reversed(expr.elements)`, over the first i elements of the vector n. */
  function GenBackward(structs: seq<(string, StructDefs.StructEntry)>, st: CgState, n: Node, i: nat, depth: nat): Result<CgState, PyError>
    requires n.Vector? && i <= |n.elements|
    decreases depth, n, 1, i
  {
    if i == 0 then Ok(st)
    else
      var s1 :- Gen(structs, st, n.elements[i - 1], depth);
      GenBackward(structs, s1, n, i - 1, depth)
  }

  /** The pairs of the map n from pair i on: key, then value. */
  function GenEntries(structs: seq<(string, StructDefs.StructEntry)>, st: CgState, n: Node, i: nat, depth: nat): Result<CgState, PyError>
    requires n.Map?
    decreases depth, n, 1, |n.entries| - i
  {
    if i >= |n.entries| then Ok(st)
    else
      var s1 :- Gen(structs, st, n.entries[i].0, depth);
      var s2 :- Gen(structs, s1, n.entries[i].1, depth);
      GenEntries(structs, s2, n, i + 1, depth)
  }

  /** `_walk_if_statement`: JUMP_IF_FALSE and JUMP are reserved with 0xFF and patched. */
  function GenIf(structs: seq<(string, StructDefs.StructEntry)>, st: CgState, n: Node, depth: nat): Result<CgState, PyError>
    requires n.IfStatement?
    decreases depth, n, 2
  {
    var s1 :- Gen(structs, st, n.cond, depth);
    var skipThen := |s1.buf|;
    var s2 :- Emit(s1, JUMP_IF_FALSE, [0xFF]);
    var s3 :- GenList(structs, s2, n.thenStatements, depth);
    var skipElse := |s3.buf|;
    var s4 :- Emit(s3, JUMP, [0xFF]);
    var s5 :- Patch(s4, skipThen, JUMP_IF_FALSE, [|s4.buf|]);
    var s6 :- GenList(structs, s5, n.elseStatements, depth);
    Patch(s6, skipElse, JUMP, [|s6.buf|])
  }

  /** `_walk_while_loop`: the back-edge targets the condition; the exit jump is patched. */
  function GenWhile(structs: seq<(string, StructDefs.StructEntry)>, st: CgState, n: Node, depth: nat): Result<CgState, PyError>
    requires n.WhileLoop?
    decreases depth, n, 2
  {
    var beforeLoop := |st.buf|;
    var s1 :- Gen(structs, st, n.cond, depth);
    var skipLoopBody := |s1.buf|;
    var s2 :- Emit(s1, JUMP_IF_FALSE, [0xFF]);
    var s3 :- GenList(structs, s2, n.loopBody, depth);
    var s4 :- Emit(s3, JUMP, [beforeLoop]);
    Patch(s4, skipLoopBody, JUMP_IF_FALSE, [|s4.buf|])
  }

  /** `_walk_binary_op`: the lhs of an assignment is not evaluated. */
  function GenBinary(structs: seq<(string, StructDefs.StructEntry)>, st: CgState, n: Node, depth: nat): Result<CgState, PyError>
    requires n.BinaryOp?
    decreases depth, n, 2
  {
    var s1 :- if n.operator.kind != CompilerTokens.ASSIGN then Gen(structs, st, n.lhs, depth) else Ok(st);
    var s2 :- Gen(structs, s1, n.rhs, depth);
    GenOperator(structs, s2, n, depth)
  }

  /** The operator's instruction, emitted after the operands. */
  function GenOperator(structs: seq<(string, StructDefs.StructEntry)>, st: CgState, n: Node, depth: nat): Result<CgState, PyError>
    requires n.BinaryOp?
    decreases depth, n, 1
  {
    var s2 := st;
    match n.operator.kind
    case ADD => Emit(s2, ADD, [])
    case SUBTRACT => Emit(s2, SUBTRACT, [])
    case MULTIPLY => Emit(s2, MULTIPLY, [])
    case DIVIDE => Emit(s2, DIVIDE, [])
    case EQUALS => Emit(s2, EQ, [])
    case LESS_THAN => Emit(s2, LT, [])
    case ASSIGN => GenAssignment(structs, s2, n, depth)
    case _ => Err(RuntimeError)
  }

  /** `_walk_assignment`: SET_VAR for a variable, SET_STRUCT_MEMBER after the struct for a member. */
  function GenAssignment(structs: seq<(string, StructDefs.StructEntry)>, st: CgState, n: Node, depth: nat): Result<CgState, PyError>
    requires n.BinaryOp?
    decreases depth, n, 0
  {
    match n.lhs
    case VariableRef(x) =>
      var id :- Slot(st.vars, x);
      Emit(st, SET_VAR, [id])
    case MemberAccess(target, m) =>
      var s1 :- Gen(structs, st, target, depth);
      (match StructMemberIndex(structs, m)
       case None => Err(RuntimeError)
       case Some(i) => Emit(s1, SET_STRUCT_MEMBER, [i]))
    case _ => Err(RuntimeError)
  }

  /** `_walk_function`: id, offset, parameter slots, FUNCTION_DEF, the body, then RETURN. */
  function GenFunction(structs: seq<(string, StructDefs.StructEntry)>, st: CgState, n: Node, depth: nat): Result<CgState, PyError>
    requires n.Function?
    decreases depth, n, 2
  {
    if n.name in st.functions then Err(RuntimeError)
    else
      var id := if n.name == "main" then 0 else st.nextId;
      var next := if n.name == "main" then st.nextId else st.nextId + 1;
      var fs := st.functions[n.name := FunctionAttrs(id, |st.buf|)];
      var v :- RegisterAll(st.vars, n.args);
      var s1 :- Emit(CgState(st.buf, v, fs, next), FUNCTION_DEF, [id, |n.args|]);
      var s2 :- GenList(structs, s1, n.statements, depth);
      if n.returnType.None? then Err(AssertionError)
      else Emit(s2.(vars := NoVars), RETURN, [])
  }

  /** `_walk_index`: VEC_ACCESS on a vector base, MAP_ACCESS on a map base, as the base's type says. */
  function GenIndex(structs: seq<(string, StructDefs.StructEntry)>, st: CgState, n: Node, depth: nat): Result<CgState, PyError>
    requires n.Index?
    decreases depth, n, 2
  {
    var s1 :- Gen(structs, st, n.base, depth);
    var s2 :- Gen(structs, s1, n.index, depth);
    if !n.baseType.Typed? then Err(AttributeError)
    else if n.baseType.t.kind == TypeKind.VECTOR then Emit(s2, VEC_ACCESS, [])
    else if n.baseType.t.kind == TypeKind.MAP then Emit(s2, MAP_ACCESS, [])
    else Err(AssertionError)
  }

  /** `_walk_constructor`: one value per declared member, then STRUCT with the type id. */
  function GenConstructor(structs: seq<(string, StructDefs.StructEntry)>, st: CgState, n: Node, depth: nat): Result<CgState, PyError>
    requires n.Constructor?
    decreases depth, n, 2
  {
    match Dicts.Get(structs, n.structName)
    case None => Err(RuntimeError)
    case Some(e) =>
      var s1 :- GenMembers(structs, st, n, e.members, 0, depth);
      Emit(s1, STRUCT, [e.typeId])
  }

  /** Member i on: argument i when there is one, otherwise the member's default value. */
  function GenMembers(structs: seq<(string, StructDefs.StructEntry)>, st: CgState, n: Node, ms: seq<Member>, i: nat, depth: nat): Result<CgState, PyError>
    requires n.Constructor?
    decreases depth, n, 1, |ms| - i
  {
    if i >= |ms| then Ok(st)
    else
      var s1 :- if i < |n.params| then Gen(structs, st, n.params[i], depth)
        else if ms[i].default.None? then Err(AssertionError)
        else if depth == 0 then Err(RecursionError)
        else Gen(structs, st, ms[i].default.value, depth - 1);
      GenMembers(structs, s1, n, ms, i + 1, depth)
  }

  /** `_walk_function_call`: intrinsics go to their rule; other calls push the arguments and CALL_FUNC. */
  function GenCall(structs: seq<(string, StructDefs.StructEntry)>, st: CgState, n: Node, depth: nat): Result<CgState, PyError>
    requires n.FunctionCall?
    decreases depth, n, 2
  {
    match Intrinsics.Lookup(n.callee)
    case Some(i) => GenIntrinsic(structs, st, n, i, depth)
    case None =>
      if n.callee !in st.functions then Err(RuntimeError)
      else
        var s1 :- GenList(structs, st, n.callArgs, depth);
        // The dictionary lookup after the arguments; never a KeyError here,
        // since walking the arguments only adds functions (CallUsesKnownId).
        if n.callee !in s1.functions then Err(KeyError)
        else Emit(s1, CALL_FUNC, [s1.functions[n.callee].functionId])
  }

  /** The code generation rule of an intrinsic: its arguments in order, then its one opcode. */
  function GenIntrinsic(structs: seq<(string, StructDefs.StructEntry)>, st: CgState, n: Node, i: Intrinsics.Intrinsic, depth: nat): Result<CgState, PyError>
    requires n.FunctionCall?
    decreases depth, n, 1
  {
    if |n.callArgs| != Intrinsics.Arity(i) then Err(AssertionError)
    else
      var s1 :- GenList(structs, st, n.callArgs, depth);
      Emit(s1, Intrinsics.IntrinsicOp(i), [])
  }

  /** `_walk_member_access`: the struct, then GET_STRUCT_MEMBER; the target must be a variable. */
  function GenMemberAccess(structs: seq<(string, StructDefs.StructEntry)>, st: CgState, n: Node, depth: nat): Result<CgState, PyError>
    requires n.MemberAccess?
    decreases depth, n, 2
  {
    var s1 :- Gen(structs, st, n.target, depth);
    if !n.target.VariableRef? then Err(AssertionError)
    else match StructMemberIndex(structs, n.memberName)
      case None => Err(RuntimeError)
      case Some(i) => Emit(s1, GET_STRUCT_MEMBER, [i])
  }

  /** `walk_ast`. */
  function GenProgram(structs: seq<(string, StructDefs.StructEntry)>, st: CgState, ns: seq<Node>, depth: nat): Result<CgState, PyError>
  {
    GenList(structs, st, ns, depth)
  }

  /**
   * What a successful walk keeps of the state before it: bytes already
   * written stay as they are (patches land only on bytes the walk itself
   * wrote), every function keeps its id and offset, and ids are not reused.
   */
  predicate Extends(s: CgState, s': CgState)
  {
    |s.buf| <= |s'.buf| && s'.buf[..|s.buf|] == s.buf &&
    (forall f :: f in s.functions ==> f in s'.functions && s'.functions[f] == s.functions[f]) &&
    s.nextId <= s'.nextId
  }

  lemma ExtendsTrans(a: CgState, b: CgState, c: CgState)
    requires Extends(a, b) && Extends(b, c)
    ensures Extends(a, c)
  {
    assert c.buf[..|a.buf|] == c.buf[..|b.buf|][..|a.buf|];
  }

  /** `write_op` appends the opcode and its arguments and nothing else. */
  lemma EmitAppends(st: CgState, op: Op, args: seq<int>)
    requires Emit(st, op, args).Ok?
    ensures AllBytes(args)
    ensures Emit(st, op, args).value == st.(buf := st.buf + [VmCode(op)] + args)
    ensures Extends(st, Emit(st, op, args).value)
  {
    var b := st.buf + [VmCode(op)] + args;
    assert b[..|st.buf|] == st.buf;
  }

  /** A one-argument `edit_op` that succeeds stores the opcode and its argument and nothing else. */
  lemma PatchOne(st: CgState, offset: nat, op: Op, x: int)
    requires Patch(st, offset, op, [x]).Ok?
    ensures offset + 1 < |st.buf| && IsByte(x)
    ensures Patch(st, offset, op, [x]).value == st.(buf := st.buf[offset := VmCode(op)][offset + 1 := x])
  {
    var b := st.buf[offset := VmCode(op)];
    assert Emitter.SetByte(st.buf, offset, VmCode(op)) == Ok(b);
    assert Emitter.EditBytes(st.buf, offset, VmCode(op), [x]) == Emitter.EditArgs(b, offset, [x], 0);
    assert Emitter.SetByte(b, offset + 1, x) == Ok(b[offset + 1 := x]);
    assert Emitter.EditArgs(b, offset, [x], 0) == Emitter.EditArgs(b[offset + 1 := x], offset, [x], 1);
  }

  /** A patch at or after the end of the earlier state keeps what that state had written. */
  lemma PatchExtends(s0: CgState, st: CgState, offset: nat, op: Op, x: int)
    requires Extends(s0, st) && |s0.buf| <= offset
    requires Patch(st, offset, op, [x]).Ok?
    ensures Extends(s0, Patch(st, offset, op, [x]).value)
  {
    PatchOne(st, offset, op, x);
    var b := Patch(st, offset, op, [x]).value.buf;
    assert b[..|s0.buf|] == st.buf[..|s0.buf|];
  }

  lemma {:induction false} GenExtends(structs: seq<(string, StructDefs.StructEntry)>, st: CgState, n: Node, depth: nat)
    requires Gen(structs, st, n, depth).Ok?
    ensures Extends(st, Gen(structs, st, n, depth).value)
    decreases depth, n, 3
  {
    match n
    case Structure(_, _, fs) => GenListExtends(structs, st, fs, depth);
    case LetStatement(x, rhs) =>
      GenExtends(structs, st, rhs, depth);
      var s1 := Gen(structs, st, rhs, depth).value;
      var (id, v) := Register(s1.vars, x).value;
      EmitAppends(s1.(vars := v), SET_VAR, [id]);
      ExtendsTrans(st, s1.(vars := v), Gen(structs, st, n, depth).value);
    case IfStatement(_, _, _) => GenIfExtends(structs, st, n, depth);
    case WhileLoop(_, _) => GenWhileExtends(structs, st, n, depth);
    case ExprStatement(e) => GenExtends(structs, st, e, depth);
    case BinaryOp(_, _, _) => GenBinaryExtends(structs, st, n, depth);
    case Function(_, _, _, _) => GenFunctionExtends(structs, st, n, depth);
    case ReturnStatement(v) =>
      if v.None? {
        EmitAppends(st, RETURN, []);
      } else {
        GenExtends(structs, st, v.value, depth);
        var s1 := Gen(structs, st, v.value, depth).value;
        EmitAppends(s1, RETURN_VAL, []);
        ExtendsTrans(st, s1, Gen(structs, st, n, depth).value);
      }
    case Number(x) => EmitAppends(st, Op.INT, [x]);
    case String(text) => EmitAppends(st, Op.STRING, [|text|] + Utf8(text));
    case Vector(es, _) =>
      GenBackwardExtends(structs, st, n, |es|, depth);
      var s1 := GenBackward(structs, st, n, |es|, depth).value;
      EmitAppends(s1, VEC, [|es|]);
      ExtendsTrans(st, s1, Gen(structs, st, n, depth).value);
    case Map(entries, _) =>
      GenEntriesExtends(structs, st, n, 0, depth);
      var s1 := GenEntries(structs, st, n, 0, depth).value;
      EmitAppends(s1, Op.MAP, [|entries|]);
      ExtendsTrans(st, s1, Gen(structs, st, n, depth).value);
    case Index(_, _, _) => GenIndexExtends(structs, st, n, depth);
    case VariableRef(x) => EmitAppends(st, GET_VAR, [Slot(st.vars, x).value]);
    case Constructor(_, _) => GenConstructorExtends(structs, st, n, depth);
    case FunctionCall(_, _) => GenCallExtends(structs, st, n, depth);
    case MemberAccess(_, _) => GenMemberAccessExtends(structs, st, n, depth);
  }

  lemma {:induction false} GenListExtends(structs: seq<(string, StructDefs.StructEntry)>, st: CgState, ns: seq<Node>, depth: nat)
    requires GenList(structs, st, ns, depth).Ok?
    ensures Extends(st, GenList(structs, st, ns, depth).value)
    decreases depth, ns, 1
  {
    if ns == [] {
      assert st.buf[..|st.buf|] == st.buf;
    } else {
      GenExtends(structs, st, ns[0], depth);
      var s1 := Gen(structs, st, ns[0], depth).value;
      GenListExtends(structs, s1, ns[1..], depth);
      ExtendsTrans(st, s1, GenList(structs, st, ns, depth).value);
    }
  }

  lemma {:induction false} GenBackwardExtends(structs: seq<(string, StructDefs.StructEntry)>, st: CgState, n: Node, i: nat, depth: nat)
    requires n.Vector? && i <= |n.elements| && GenBackward(structs, st, n, i, depth).Ok?
    ensures Extends(st, GenBackward(structs, st, n, i, depth).value)
    decreases depth, n, 1, i
  {
    if i == 0 {
      assert st.buf[..|st.buf|] == st.buf;
    } else {
      GenExtends(structs, st, n.elements[i - 1], depth);
      var s1 := Gen(structs, st, n.elements[i - 1], depth).value;
      GenBackwardExtends(structs, s1, n, i - 1, depth);
      ExtendsTrans(st, s1, GenBackward(structs, st, n, i, depth).value);
    }
  }

  lemma {:induction false} GenEntriesExtends(structs: seq<(string, StructDefs.StructEntry)>, st: CgState, n: Node, i: nat, depth: nat)
    requires n.Map? && GenEntries(structs, st, n, i, depth).Ok?
    ensures Extends(st, GenEntries(structs, st, n, i, depth).value)
    decreases depth, n, 1, |n.entries| - i
  {
    if i >= |n.entries| {
      assert st.buf[..|st.buf|] == st.buf;
    } else {
      GenExtends(structs, st, n.entries[i].0, depth);
      var s1 := Gen(structs, st, n.entries[i].0, depth).value;
      GenExtends(structs, s1, n.entries[i].1, depth);
      var s2 := Gen(structs, s1, n.entries[i].1, depth).value;
      GenEntriesExtends(structs, s2, n, i + 1, depth);
      ExtendsTrans(st, s1, s2);
      ExtendsTrans(st, s2, GenEntries(structs, st, n, i, depth).value);
    }
  }

  lemma {:induction false} GenIfExtends(structs: seq<(string, StructDefs.StructEntry)>, st: CgState, n: Node, depth: nat)
    requires n.IfStatement? && GenIf(structs, st, n, depth).Ok?
    ensures Extends(st, GenIf(structs, st, n, depth).value)
    decreases depth, n, 2
  {
    var s1 := Gen(structs, st, n.cond, depth).value;
    GenExtends(structs, st, n.cond, depth);
    var s2 := Emit(s1, JUMP_IF_FALSE, [0xFF]).value;
    EmitAppends(s1, JUMP_IF_FALSE, [0xFF]);
    ExtendsTrans(st, s1, s2);
    var s3 := GenList(structs, s2, n.thenStatements, depth).value;
    GenListExtends(structs, s2, n.thenStatements, depth);
    ExtendsTrans(st, s2, s3);
    var s4 := Emit(s3, JUMP, [0xFF]).value;
    EmitAppends(s3, JUMP, [0xFF]);
    ExtendsTrans(st, s3, s4);
    var s5 := Patch(s4, |s1.buf|, JUMP_IF_FALSE, [|s4.buf|]).value;
    PatchExtends(st, s4, |s1.buf|, JUMP_IF_FALSE, |s4.buf|);
    var s6 := GenList(structs, s5, n.elseStatements, depth).value;
    GenListExtends(structs, s5, n.elseStatements, depth);
    ExtendsTrans(st, s5, s6);
    PatchExtends(st, s6, |s3.buf|, JUMP, |s6.buf|);
  }

  lemma {:induction false} GenWhileExtends(structs: seq<(string, StructDefs.StructEntry)>, st: CgState, n: Node, depth: nat)
    requires n.WhileLoop? && GenWhile(structs, st, n, depth).Ok?
    ensures Extends(st, GenWhile(structs, st, n, depth).value)
    decreases depth, n, 2
  {
    var s1 := Gen(structs, st, n.cond, depth).value;
    GenExtends(structs, st, n.cond, depth);
    var s2 := Emit(s1, JUMP_IF_FALSE, [0xFF]).value;
    EmitAppends(s1, JUMP_IF_FALSE, [0xFF]);
    ExtendsTrans(st, s1, s2);
    var s3 := GenList(structs, s2, n.loopBody, depth).value;
    GenListExtends(structs, s2, n.loopBody, depth);
    ExtendsTrans(st, s2, s3);
    var s4 := Emit(s3, JUMP, [|st.buf|]).value;
    EmitAppends(s3, JUMP, [|st.buf|]);
    ExtendsTrans(st, s3, s4);
    PatchExtends(st, s4, |s1.buf|, JUMP_IF_FALSE, |s4.buf|);
  }

  lemma {:induction false} GenBinaryExtends(structs: seq<(string, StructDefs.StructEntry)>, st: CgState, n: Node, depth: nat)
    requires n.BinaryOp? && GenBinary(structs, st, n, depth).Ok?
    ensures Extends(st, GenBinary(structs, st, n, depth).value)
    decreases depth, n, 2
  {
    var s1 := st;
    if n.operator.kind != CompilerTokens.ASSIGN {
      GenExtends(structs, st, n.lhs, depth);
      s1 := Gen(structs, st, n.lhs, depth).value;
    } else {
      assert st.buf[..|st.buf|] == st.buf;
    }
    GenExtends(structs, s1, n.rhs, depth);
    var s2 := Gen(structs, s1, n.rhs, depth).value;
    ExtendsTrans(st, s1, s2);
    var r := GenBinary(structs, st, n, depth).value;
    assert r == GenOperator(structs, s2, n, depth).value;
    match n.operator.kind {
      case ADD => EmitAppends(s2, ADD, []);
      case SUBTRACT => EmitAppends(s2, SUBTRACT, []);
      case MULTIPLY => EmitAppends(s2, MULTIPLY, []);
      case DIVIDE => EmitAppends(s2, DIVIDE, []);
      case EQUALS => EmitAppends(s2, EQ, []);
      case LESS_THAN => EmitAppends(s2, LT, []);
      case ASSIGN => GenAssignmentExtends(structs, s2, n, depth);
    }
    ExtendsTrans(st, s2, r);
  }

  lemma {:induction false} GenAssignmentExtends(structs: seq<(string, StructDefs.StructEntry)>, st: CgState, n: Node, depth: nat)
    requires n.BinaryOp? && GenAssignment(structs, st, n, depth).Ok?
    ensures Extends(st, GenAssignment(structs, st, n, depth).value)
    decreases depth, n, 0
  {
    match n.lhs {
      case VariableRef(x) => EmitAppends(st, SET_VAR, [Slot(st.vars, x).value]);
      case MemberAccess(target, m) =>
        GenExtends(structs, st, target, depth);
        var s1 := Gen(structs, st, target, depth).value;
        EmitAppends(s1, SET_STRUCT_MEMBER, [StructMemberIndex(structs, m).value]);
        ExtendsTrans(st, s1, GenAssignment(structs, st, n, depth).value);
    }
  }

  lemma {:induction false} GenFunctionExtends(structs: seq<(string, StructDefs.StructEntry)>, st: CgState, n: Node, depth: nat)
    requires n.Function? && GenFunction(structs, st, n, depth).Ok?
    ensures Extends(st, GenFunction(structs, st, n, depth).value)
    decreases depth, n, 2
  {
    var id := if n.name == "main" then 0 else st.nextId;
    var next := if n.name == "main" then st.nextId else st.nextId + 1;
    var fs := st.functions[n.name := FunctionAttrs(id, |st.buf|)];
    var v := RegisterAll(st.vars, n.args).value;
    var s0 := CgState(st.buf, v, fs, next);
    assert Extends(st, s0) by {
      assert st.buf[..|st.buf|] == st.buf;
    }
    var s1 := Emit(s0, FUNCTION_DEF, [id, |n.args|]).value;
    EmitAppends(s0, FUNCTION_DEF, [id, |n.args|]);
    ExtendsTrans(st, s0, s1);
    GenListExtends(structs, s1, n.statements, depth);
    var s2 := GenList(structs, s1, n.statements, depth).value;
    ExtendsTrans(st, s1, s2);
    EmitAppends(s2.(vars := NoVars), RETURN, []);
    ExtendsTrans(st, s2.(vars := NoVars), GenFunction(structs, st, n, depth).value);
  }

  lemma {:induction false} GenIndexExtends(structs: seq<(string, StructDefs.StructEntry)>, st: CgState, n: Node, depth: nat)
    requires n.Index? && GenIndex(structs, st, n, depth).Ok?
    ensures Extends(st, GenIndex(structs, st, n, depth).value)
    decreases depth, n, 2
  {
    GenExtends(structs, st, n.base, depth);
    var s1 := Gen(structs, st, n.base, depth).value;
    GenExtends(structs, s1, n.index, depth);
    var s2 := Gen(structs, s1, n.index, depth).value;
    ExtendsTrans(st, s1, s2);
    if n.baseType.t.kind == TypeKind.VECTOR {
      EmitAppends(s2, VEC_ACCESS, []);
    } else {
      EmitAppends(s2, MAP_ACCESS, []);
    }
    ExtendsTrans(st, s2, GenIndex(structs, st, n, depth).value);
  }

  lemma {:induction false} GenConstructorExtends(structs: seq<(string, StructDefs.StructEntry)>, st: CgState, n: Node, depth: nat)
    requires n.Constructor? && GenConstructor(structs, st, n, depth).Ok?
    ensures Extends(st, GenConstructor(structs, st, n, depth).value)
    decreases depth, n, 2
  {
    var e := Dicts.Get(structs, n.structName).value;
    GenMembersExtends(structs, st, n, e.members, 0, depth);
    var s1 := GenMembers(structs, st, n, e.members, 0, depth).value;
    EmitAppends(s1, STRUCT, [e.typeId]);
    ExtendsTrans(st, s1, GenConstructor(structs, st, n, depth).value);
  }

  lemma {:induction false} GenMembersExtends(structs: seq<(string, StructDefs.StructEntry)>, st: CgState, n: Node, ms: seq<Member>, i: nat, depth: nat)
    requires n.Constructor? && GenMembers(structs, st, n, ms, i, depth).Ok?
    ensures Extends(st, GenMembers(structs, st, n, ms, i, depth).value)
    decreases depth, n, 1, |ms| - i
  {
    if i >= |ms| {
      assert st.buf[..|st.buf|] == st.buf;
    } else {
      var s1;
      if i < |n.params| {
        GenExtends(structs, st, n.params[i], depth);
        s1 := Gen(structs, st, n.params[i], depth).value;
      } else {
        GenExtends(structs, st, ms[i].default.value, depth - 1);
        s1 := Gen(structs, st, ms[i].default.value, depth - 1).value;
      }
      GenMembersExtends(structs, s1, n, ms, i + 1, depth);
      ExtendsTrans(st, s1, GenMembers(structs, st, n, ms, i, depth).value);
    }
  }

  lemma {:induction false} GenCallExtends(structs: seq<(string, StructDefs.StructEntry)>, st: CgState, n: Node, depth: nat)
    requires n.FunctionCall? && GenCall(structs, st, n, depth).Ok?
    ensures Extends(st, GenCall(structs, st, n, depth).value)
    decreases depth, n, 2
  {
    match Intrinsics.Lookup(n.callee) {
      case Some(i) => GenIntrinsicExtends(structs, st, n, i, depth);
      case None =>
        GenListExtends(structs, st, n.callArgs, depth);
        var s1 := GenList(structs, st, n.callArgs, depth).value;
        EmitAppends(s1, CALL_FUNC, [s1.functions[n.callee].functionId]);
        ExtendsTrans(st, s1, GenCall(structs, st, n, depth).value);
    }
  }

  /**
   * A call to a function known before its arguments are walked: the
   * arguments leave its entry as it was, so CALL_FUNC carries the id it had
   * then and the KeyError branch of GenCall is never taken.
   */
  lemma CallUsesKnownId(structs: seq<(string, StructDefs.StructEntry)>, st: CgState, n: Node, depth: nat)
    requires n.FunctionCall? && Intrinsics.Lookup(n.callee).None? && n.callee in st.functions
    requires GenList(structs, st, n.callArgs, depth).Ok?
    ensures var s1 := GenList(structs, st, n.callArgs, depth).value;
      GenCall(structs, st, n, depth) == Emit(s1, CALL_FUNC, [st.functions[n.callee].functionId])
  {
    GenListExtends(structs, st, n.callArgs, depth);
  }

  lemma {:induction false} GenIntrinsicExtends(structs: seq<(string, StructDefs.StructEntry)>, st: CgState, n: Node, i: Intrinsics.Intrinsic, depth: nat)
    requires n.FunctionCall? && GenIntrinsic(structs, st, n, i, depth).Ok?
    ensures Extends(st, GenIntrinsic(structs, st, n, i, depth).value)
    decreases depth, n, 1
  {
    GenListExtends(structs, st, n.callArgs, depth);
    var s1 := GenList(structs, st, n.callArgs, depth).value;
    EmitAppends(s1, Intrinsics.IntrinsicOp(i), []);
    ExtendsTrans(st, s1, GenIntrinsic(structs, st, n, i, depth).value);
  }

  lemma {:induction false} GenMemberAccessExtends(structs: seq<(string, StructDefs.StructEntry)>, st: CgState, n: Node, depth: nat)
    requires n.MemberAccess? && GenMemberAccess(structs, st, n, depth).Ok?
    ensures Extends(st, GenMemberAccess(structs, st, n, depth).value)
    decreases depth, n, 2
  {
    GenExtends(structs, st, n.target, depth);
    var s1 := Gen(structs, st, n.target, depth).value;
    EmitAppends(s1, GET_STRUCT_MEMBER, [StructMemberIndex(structs, n.memberName).value]);
    ExtendsTrans(st, s1, GenMemberAccess(structs, st, n, depth).value);
  }

  /**
   * `if` lowering: the condition's code is followed by JUMP_IF_FALSE, whose
   * target lies just past a JUMP, the skip-else jump, whose own target is the
   * end of the else-code.
   */
  lemma IfJumpsLand(structs: seq<(string, StructDefs.StructEntry)>, st: CgState, n: Node, depth: nat)
    requires n.IfStatement? && Gen(structs, st, n, depth).Ok?
    ensures Gen(structs, st, n.cond, depth).Ok?
    ensures var c := Gen(structs, st, n.cond, depth).value.buf;
      var out := Gen(structs, st, n, depth).value.buf;
      |c| + 4 <= |out| && out[..|c|] == c && out[|c|] == VmCode(JUMP_IF_FALSE) &&
      |c| + 4 <= out[|c| + 1] <= |out| &&
      out[out[|c| + 1] - 2] == VmCode(JUMP) && out[out[|c| + 1] - 1] == |out|
  {
    assert Gen(structs, st, n, depth) == GenIf(structs, st, n, depth);
    var s1 := Gen(structs, st, n.cond, depth).value;
    var a := |s1.buf|;
    EmitAppends(s1, JUMP_IF_FALSE, [0xFF]);
    var s2 := Emit(s1, JUMP_IF_FALSE, [0xFF]).value;
    var s3 := GenList(structs, s2, n.thenStatements, depth).value;
    GenListExtends(structs, s2, n.thenStatements, depth);
    var b := |s3.buf|;
    assert s3.buf[..a] == s1.buf by {
      assert s3.buf[..a] == s3.buf[..|s2.buf|][..a];
    }
    EmitAppends(s3, JUMP, [0xFF]);
    var s4 := Emit(s3, JUMP, [0xFF]).value;
    PatchOne(s4, a, JUMP_IF_FALSE, |s4.buf|);
    var s5 := Patch(s4, a, JUMP_IF_FALSE, [|s4.buf|]).value;
    assert s5.buf[..a] == s1.buf by {
      assert s5.buf[..a] == s4.buf[..a] == s3.buf[..a];
    }
    assert s5.buf[a] == VmCode(JUMP_IF_FALSE) && s5.buf[a + 1] == b + 2 && s5.buf[b] == VmCode(JUMP);
    var s6 := GenList(structs, s5, n.elseStatements, depth).value;
    GenListExtends(structs, s5, n.elseStatements, depth);
    assert s6.buf[..a] == s1.buf && s6.buf[a] == s5.buf[a] && s6.buf[a + 1] == s5.buf[a + 1] && s6.buf[b] == s5.buf[b] by {
      assert s6.buf[..|s5.buf|] == s5.buf;
      assert s6.buf[..a] == s6.buf[..|s5.buf|][..a];
    }
    PatchOne(s6, b, JUMP, |s6.buf|);
    var out := Gen(structs, st, n, depth).value.buf;
    assert out[..a] == s6.buf[..a];
  }

  /**
   * `while` lowering: after the condition's code come JUMP_IF_FALSE to the
   * end of the loop, the body, and the back-edge JUMP to where the condition
   * starts.
   */
  lemma WhileJumpsLand(structs: seq<(string, StructDefs.StructEntry)>, st: CgState, n: Node, depth: nat)
    requires n.WhileLoop? && Gen(structs, st, n, depth).Ok?
    ensures Gen(structs, st, n.cond, depth).Ok?
    ensures var c := Gen(structs, st, n.cond, depth).value.buf;
      var out := Gen(structs, st, n, depth).value.buf;
      |st.buf| <= |c| && c[..|st.buf|] == st.buf &&
      |c| + 4 <= |out| && out[..|c|] == c &&
      out[|c|] == VmCode(JUMP_IF_FALSE) && out[|c| + 1] == |out| &&
      out[|out| - 2] == VmCode(JUMP) && out[|out| - 1] == |st.buf|
  {
    assert Gen(structs, st, n, depth) == GenWhile(structs, st, n, depth);
    var s1 := Gen(structs, st, n.cond, depth).value;
    GenExtends(structs, st, n.cond, depth);
    var a := |s1.buf|;
    EmitAppends(s1, JUMP_IF_FALSE, [0xFF]);
    var s2 := Emit(s1, JUMP_IF_FALSE, [0xFF]).value;
    var s3 := GenList(structs, s2, n.loopBody, depth).value;
    GenListExtends(structs, s2, n.loopBody, depth);
    assert s3.buf[..a] == s1.buf && s3.buf[a] == VmCode(JUMP_IF_FALSE) by {
      assert s3.buf[..a] == s3.buf[..|s2.buf|][..a];
      assert s3.buf[a] == s3.buf[..|s2.buf|][a];
    }
    EmitAppends(s3, JUMP, [|st.buf|]);
    var s4 := Emit(s3, JUMP, [|st.buf|]).value;
    PatchOne(s4, a, JUMP_IF_FALSE, |s4.buf|);
    var out := Gen(structs, st, n, depth).value.buf;
    assert out[..a] == s4.buf[..a] == s3.buf[..a];
  }

  /** Walking a concatenation walks the first part, then the second from where it left off. */
  lemma {:induction false} GenListAppend(structs: seq<(string, StructDefs.StructEntry)>, st: CgState, a: seq<Node>, b: seq<Node>, depth: nat)
    ensures GenList(structs, st, a + b, depth) ==
      (if GenList(structs, st, a, depth).Ok? then GenList(structs, GenList(structs, st, a, depth).value, b, depth)
       else GenList(structs, st, a, depth))
    decreases a
  {
    if a == [] {
      assert a + b == b;
    } else {
      assert (a + b)[0] == a[0] && (a + b)[1..] == a[1..] + b;
      var r := Gen(structs, st, a[0], depth);
      if r.Ok? {
        GenListAppend(structs, r.value, a[1..], b, depth);
      }
    }
  }

  lemma {:induction false} BackwardIsReversed(structs: seq<(string, StructDefs.StructEntry)>, st: CgState, n: Node, i: nat, depth: nat)
    requires n.Vector? && i <= |n.elements|
    ensures GenBackward(structs, st, n, i, depth) == GenList(structs, st, Reverse(n.elements[..i]), depth)
    decreases i
  {
    if i > 0 {
      var r := Reverse(n.elements[..i]);
      assert r[0] == n.elements[i - 1];
      assert r[1..] == Reverse(n.elements[..i - 1]);
      var g := Gen(structs, st, n.elements[i - 1], depth);
      if g.Ok? {
        BackwardIsReversed(structs, g.value, n, i - 1, depth);
      }
    }
  }

  /** A vector literal walks its elements last to first, then emits VEC with the count. */
  lemma VectorEmitsReversed(structs: seq<(string, StructDefs.StructEntry)>, st: CgState, n: Node, depth: nat)
    requires n.Vector?
    ensures var w := GenList(structs, st, Reverse(n.elements), depth);
      Gen(structs, st, n, depth) == if w.Ok? then Emit(w.value, VEC, [|n.elements|]) else w
  {
    BackwardIsReversed(structs, st, n, |n.elements|, depth);
    assert n.elements[..|n.elements|] == n.elements;
  }

  /** The keys and values of map entries, in the order they are walked. */
  function KeysAndValues(es: seq<(Node, Node)>): (r: seq<Node>)
    ensures |r| == 2 * |es|
    ensures forall i :: 0 <= i < |es| ==> r[2 * i] == es[i].0 && r[2 * i + 1] == es[i].1
  {
    if es == [] then [] else [es[0].0, es[0].1] + KeysAndValues(es[1..])
  }

  lemma {:induction false} EntriesWalkPairs(structs: seq<(string, StructDefs.StructEntry)>, st: CgState, n: Node, i: nat, depth: nat)
    requires n.Map? && i <= |n.entries|
    ensures GenEntries(structs, st, n, i, depth) == GenList(structs, st, KeysAndValues(n.entries[i..]), depth)
    decreases |n.entries| - i
  {
    if i < |n.entries| {
      var kv := KeysAndValues(n.entries[i..]);
      assert n.entries[i..][1..] == n.entries[i + 1..];
      assert kv[0] == n.entries[i].0 && kv[1..][0] == n.entries[i].1;
      assert kv[1..][1..] == KeysAndValues(n.entries[i + 1..]);
      var k := Gen(structs, st, n.entries[i].0, depth);
      if k.Ok? {
        var v := Gen(structs, k.value, n.entries[i].1, depth);
        if v.Ok? {
          EntriesWalkPairs(structs, v.value, n, i + 1, depth);
        }
      }
    } else {
      assert n.entries[i..] == [];
    }
  }

  /** A map literal walks key then value for each pair in order, then emits MAP with the pair count. */
  lemma MapEmitsPairs(structs: seq<(string, StructDefs.StructEntry)>, st: CgState, n: Node, depth: nat)
    requires n.Map?
    ensures var w := GenList(structs, st, KeysAndValues(n.entries), depth);
      Gen(structs, st, n, depth) == if w.Ok? then Emit(w.value, Op.MAP, [|n.entries|]) else w
  {
    EntriesWalkPairs(structs, st, n, 0, depth);
    assert n.entries[0..] == n.entries;
  }

  /** Registering a name gives it the next slot; every other name keeps its slot or stays unknown. */
  lemma RegisterThenSlot(v: Vars, x: string, y: string)
    requires Register(v, x).Ok?
    ensures Register(v, x).value.0 == v.currentId
    ensures Slot(Register(v, x).value.1, x) == Ok(v.currentId)
    ensures y != x ==> Slot(Register(v, x).value.1, y) == Slot(v, y)
    ensures Register(Register(v, x).value.1, x) == Err(RuntimeError)
  {
  }

  /**
   * Registering a function's parameters succeeds exactly when their names
   * are distinct and new; parameter i then has slot currentId + i, and the
   * earlier bindings stay.
   */
  lemma {:induction false} RegisterAllSlots(v: Vars, args: seq<(string, Type)>)
    ensures RegisterAll(v, args).Ok? <==>
      (forall i :: 0 <= i < |args| ==> args[i].0 !in v.bindings) &&
      (forall i, j :: 0 <= i < j < |args| ==> args[i].0 != args[j].0)
    ensures RegisterAll(v, args).Ok? ==>
      var r := RegisterAll(v, args).value;
      r.currentId == v.currentId + |args| &&
      (forall i :: 0 <= i < |args| ==> args[i].0 in r.bindings && r.bindings[args[i].0] == v.currentId + i) &&
      (forall x :: x in v.bindings ==> x in r.bindings && r.bindings[x] == v.bindings[x])
    decreases |args|
  {
    if args != [] {
      var x := args[0].0;
      if x !in v.bindings {
        var v1 := Register(v, x).value.1;
        RegisterAllSlots(v1, args[1..]);
        assert forall i :: 1 <= i < |args| ==> args[i] == args[1..][i - 1];
      }
    }
  }

  /**
   * A function gets id 0 if it is `main` and the next id otherwise; its
   * recorded offset is where its FUNCTION_DEF [id, parameter count] starts;
   * its code ends with RETURN; and the variable slots are cleared.
   */
  lemma FunctionEntry(structs: seq<(string, StructDefs.StructEntry)>, st: CgState, n: Node, depth: nat)
    requires n.Function? && Gen(structs, st, n, depth).Ok?
    ensures n.name !in st.functions
    ensures var r := Gen(structs, st, n, depth).value;
      var id := if n.name == "main" then 0 else st.nextId;
      n.name in r.functions && r.functions[n.name] == FunctionAttrs(id, |st.buf|) &&
      |st.buf| + 3 <= |r.buf| && r.buf[..|st.buf|] == st.buf &&
      r.buf[|st.buf|] == VmCode(FUNCTION_DEF) && r.buf[|st.buf| + 1] == id && r.buf[|st.buf| + 2] == |n.args| &&
      r.buf[|r.buf| - 1] == VmCode(RETURN) && r.vars == NoVars &&
      (n.name == "main" ==> st.nextId <= r.nextId) && (n.name != "main" ==> st.nextId < r.nextId)
  {
    assert Gen(structs, st, n, depth) == GenFunction(structs, st, n, depth);
    var id := if n.name == "main" then 0 else st.nextId;
    var next := if n.name == "main" then st.nextId else st.nextId + 1;
    var fs := st.functions[n.name := FunctionAttrs(id, |st.buf|)];
    var v := RegisterAll(st.vars, n.args).value;
    var s0 := CgState(st.buf, v, fs, next);
    EmitAppends(s0, FUNCTION_DEF, [id, |n.args|]);
    var s1 := Emit(s0, FUNCTION_DEF, [id, |n.args|]).value;
    GenListExtends(structs, s1, n.statements, depth);
    var s2 := GenList(structs, s1, n.statements, depth).value;
    assert s2.buf[..|s1.buf|] == s1.buf;
    assert s2.buf[..|st.buf|] == s2.buf[..|s1.buf|][..|st.buf|];
    EmitAppends(s2.(vars := NoVars), RETURN, []);
  }

  /** The parameters of a function walked from an empty store take slots 0, 1, 2, ... in order. */
  lemma ParamsTakeFirstSlots(args: seq<(string, Type)>)
    requires forall i, j :: 0 <= i < j < |args| ==> args[i].0 != args[j].0
    ensures RegisterAll(NoVars, args).Ok?
    ensures forall i :: 0 <= i < |args| ==>
      args[i].0 in RegisterAll(NoVars, args).value.bindings && RegisterAll(NoVars, args).value.bindings[args[i].0] == i
  {
    RegisterAllSlots(NoVars, args);
  }

  /** An intrinsic call emits its arguments in order and then exactly its one opcode. */
  lemma IntrinsicEmits(structs: seq<(string, StructDefs.StructEntry)>, st: CgState, n: Node, depth: nat)
    requires n.FunctionCall? && Intrinsics.Lookup(n.callee).Some? && Gen(structs, st, n, depth).Ok?
    ensures |n.callArgs| == Intrinsics.Arity(Intrinsics.Lookup(n.callee).value)
    ensures GenList(structs, st, n.callArgs, depth).Ok?
    ensures Gen(structs, st, n, depth).value.buf ==
      GenList(structs, st, n.callArgs, depth).value.buf + [VmCode(Intrinsics.IntrinsicOp(Intrinsics.Lookup(n.callee).value))]
  {
    var i := Intrinsics.Lookup(n.callee).value;
    assert Gen(structs, st, n, depth) == GenIntrinsic(structs, st, n, i, depth);
    EmitAppends(GenList(structs, st, n.callArgs, depth).value, Intrinsics.IntrinsicOp(i), []);
  }

  lemma {:induction false} MembersIgnoreExtraArgs(structs: seq<(string, StructDefs.StructEntry)>, st: CgState, name: string, ps: seq<Node>, extra: seq<Node>, ms: seq<Member>, i: nat, depth: nat)
    requires |ms| <= |ps|
    ensures GenMembers(structs, st, Constructor(name, ps + extra), ms, i, depth) ==
      GenMembers(structs, st, Constructor(name, ps), ms, i, depth)
    decreases |ms| - i
  {
    if i < |ms| {
      assert (ps + extra)[i] == ps[i];
      var r := Gen(structs, st, ps[i], depth);
      if r.Ok? {
        MembersIgnoreExtraArgs(structs, r.value, name, ps, extra, ms, i + 1, depth);
      }
    }
  }

  /** Arguments beyond the struct's members are never walked. */
  lemma ConstructorIgnoresExtraArgs(structs: seq<(string, StructDefs.StructEntry)>, st: CgState, name: string, ps: seq<Node>, extra: seq<Node>, depth: nat)
    requires Dicts.Get(structs, name).Some? && |Dicts.Get(structs, name).value.members| <= |ps|
    ensures Gen(structs, st, Constructor(name, ps + extra), depth) == Gen(structs, st, Constructor(name, ps), depth)
  {
    MembersIgnoreExtraArgs(structs, st, name, ps, extra, Dicts.Get(structs, name).value.members, 0, depth);
  }

  /** A member with no argument and no default value fails the `assert`, once the values before it are walked. */
  lemma MissingDefaultFails(structs: seq<(string, StructDefs.StructEntry)>, st: CgState, n: Node, ms: seq<Member>, i: nat, depth: nat)
    requires n.Constructor? && |n.params| <= i < |ms| && ms[i].default.None?
    ensures GenMembers(structs, st, n, ms, i, depth) == Err(AssertionError)
  {
  }

  /** An argument-free constructor of a struct whose members all have defaults walks those defaults in order. */
  lemma {:induction false} DefaultsFillMembers(structs: seq<(string, StructDefs.StructEntry)>, st: CgState, n: Node, ms: seq<Member>, i: nat, depth: nat)
    requires n.Constructor? && n.params == [] && 0 < depth && i <= |ms|
    requires forall j :: 0 <= j < |ms| ==> ms[j].default.Some?
    ensures GenMembers(structs, st, n, ms, i, depth) == GenList(structs, st, Defaults(ms[i..]), depth - 1)
    decreases |ms| - i
  {
    if i < |ms| {
      assert ms[i..][0] == ms[i] && ms[i..][1..] == ms[i + 1..];
      var r := Gen(structs, st, ms[i].default.value, depth - 1);
      if r.Ok? {
        DefaultsFillMembers(structs, r.value, n, ms, i + 1, depth);
      }
    }
  }

  /** The default values of members that all have one. */
  function Defaults(ms: seq<Member>): (r: seq<Node>)
    requires forall j :: 0 <= j < |ms| ==> ms[j].default.Some?
    ensures |r| == |ms| && forall j :: 0 <= j < |ms| ==> r[j] == ms[j].default.value
  {
    if ms == [] then [] else [ms[0].default.value] + Defaults(ms[1..])
  }

  /** Assigning to a variable emits the rhs's code and SET_VAR with the variable's slot; the lhs is not walked. */
  lemma AssignmentSkipsLhs(structs: seq<(string, StructDefs.StructEntry)>, st: CgState, n: Node, depth: nat)
    requires n.BinaryOp? && n.operator.kind == CompilerTokens.ASSIGN && n.lhs.VariableRef?
    requires Gen(structs, st, n, depth).Ok?
    ensures Gen(structs, st, n.rhs, depth).Ok?
    ensures var s1 := Gen(structs, st, n.rhs, depth).value;
      n.lhs.ref in s1.vars.bindings &&
      Gen(structs, st, n, depth).value.buf == s1.buf + [VmCode(SET_VAR), s1.vars.bindings[n.lhs.ref]]
  {
    assert Gen(structs, st, n, depth) == GenBinary(structs, st, n, depth);
    var s1 := Gen(structs, st, n.rhs, depth).value;
    assert GenBinary(structs, st, n, depth) == GenOperator(structs, s1, n, depth) == GenAssignment(structs, s1, n, depth);
    EmitAppends(s1, SET_VAR, [s1.vars.bindings[n.lhs.ref]]);
  }

  /**
   * The member index is found in the first struct that has a member of
   * that name; no earlier struct has one.
   */
  lemma {:induction false} StructMemberIndexSpec(structs: seq<(string, StructDefs.StructEntry)>, m: string)
    ensures StructMemberIndex(structs, m).None? <==>
      forall j :: 0 <= j < |structs| ==> MemberIndex(structs[j].1.members, m).None?
    ensures StructMemberIndex(structs, m).Some? ==>
      exists j :: 0 <= j < |structs| && MemberIndex(structs[j].1.members, m) == StructMemberIndex(structs, m) &&
        forall k :: 0 <= k < j ==> MemberIndex(structs[k].1.members, m).None?
  {
    if structs != [] {
      StructMemberIndexSpec(structs[1..], m);
      assert forall j :: 1 <= j < |structs| ==> structs[j] == structs[1..][j - 1];
      if MemberIndex(structs[0].1.members, m).None? && StructMemberIndex(structs, m).Some? {
        var j :| 0 <= j < |structs[1..]| && MemberIndex(structs[1..][j].1.members, m) == StructMemberIndex(structs[1..], m) &&
          forall k :: 0 <= k < j ==> MemberIndex(structs[1..][k].1.members, m).None?;
        assert MemberIndex(structs[j + 1].1.members, m) == StructMemberIndex(structs, m);
      }
    }
  }

  /** UTF-8 takes at least one byte per character, and exactly one for each only when all are ASCII. */
  lemma {:induction false} Utf8Length(s: string)
    ensures |Utf8(s)| >= |s|
    ensures |Utf8(s)| == |s| <==> forall i :: 0 <= i < |s| ==> (s[i] as int) < 0x80
  {
    if s != [] {
      Utf8Length(s[1..]);
      assert forall i :: 1 <= i < |s| ==> s[i] == s[1..][i - 1];
    }
  }

  /**
   * A string literal is STRING, its character count, then its UTF-8 bytes:
   * the count matches the bytes that follow only for an all-ASCII string.
   */
  lemma StringLengthCountsCharacters(structs: seq<(string, StructDefs.StructEntry)>, st: CgState, text: string, depth: nat)
    requires Gen(structs, st, String(text), depth).Ok?
    ensures Gen(structs, st, String(text), depth).value.buf == st.buf + [VmCode(Op.STRING), |text|] + Utf8(text)
    ensures |Utf8(text)| == |text| <==> forall i :: 0 <= i < |text| ==> (text[i] as int) < 0x80
  {
    EmitAppends(st, Op.STRING, [|text|] + Utf8(text));
    Utf8Length(text);
  }

  /** A string of more than 255 characters cannot be emitted: its length is not a byte. */
  lemma LongStringFails(structs: seq<(string, StructDefs.StructEntry)>, st: CgState, text: string, depth: nat)
    requires |text| > 255
    ensures Gen(structs, st, String(text), depth) == Err(ValueError)
  {
    assert !IsByte(([|text|] + Utf8(text))[0]);
  }

  /** The outcome of a walk as the spec functions give it: the state reached, or the exception raised. */
  function Out(st: CgState, err: Option<PyError>): Result<CgState, PyError>
  {
    if err.None? then Ok(st) else Err(err.value)
  }

  /** `VariableStore`: the slots of the current function's variables. */
  class VariableStore {
    var bindings: map<string, nat>
    var currentId: nat

    function St(): Vars
      reads this
    {
      Vars(bindings, currentId)
    }

    /** `__init__` calls `clear`. */
    constructor ()
      ensures St() == NoVars
    {
      bindings := map[];
      currentId := 0;
    }

    /** `clear`: no bindings, and slots count from 0 again. */
    method Clear()
      modifies this
      ensures St() == NoVars
    {
      bindings := map[];
      currentId := 0;
    }

    /** `register_variable`: raises before changing anything when the name is taken. */
    method RegisterVariable(name: string) returns (r: Result<nat, PyError>)
      modifies this
      ensures Register(old(St()), name) == (if r.Ok? then Ok((r.value, St())) else Err(r.error))
      ensures r.Err? ==> St() == old(St())
    {
      if name in bindings {
        return Err(RuntimeError);
      }
      var newId := currentId;
      bindings := bindings[name := newId];
      currentId := currentId + 1;
      r := Ok(newId);
    }

    /** `get_variable`. */
    method GetVariable(name: string) returns (r: Result<nat, PyError>)
      ensures r == Slot(St(), name)
    {
      if name !in bindings {
        return Err(RuntimeError);
      }
      r := Ok(bindings[name]);
    }
  }

  /**
   * `CodeGenerator`: writes into a byte buffer over the compiler's opcode
   * table. `depth` is the bound on walking default values that the spec
   * functions take (see `Gen`).
   */
  class CodeGenerator {
    const bc: Emitter.ByteCode
    const structs: seq<(string, StructDefs.StructEntry)>
    const intrinsics: Intrinsics.Registry
    const variables: VariableStore
    var functions: map<string, FunctionAttrs>
    var functionId: nat

    ghost predicate Valid()
      reads this, intrinsics
    {
      bc.table == Emitter.CompilerTable && intrinsics.Valid()
    }

    function St(): CgState
      reads this, bc, variables
    {
      CgState(bc.buf, variables.St(), functions, functionId)
    }

    /** `__init__`: no functions yet, and ids other than `main`'s count from 1. */
    constructor (bc: Emitter.ByteCode, structs: seq<(string, StructDefs.StructEntry)>, intrinsics: Intrinsics.Registry)
      requires bc.table == Emitter.CompilerTable && intrinsics.Valid()
      ensures Valid() && this.bc == bc && this.structs == structs && this.intrinsics == intrinsics
      ensures fresh(variables)
      ensures St() == CgState(bc.buf, NoVars, map[], 1)
    {
      this.bc := bc;
      this.structs := structs;
      this.intrinsics := intrinsics;
      functions := map[];
      functionId := 1;
      variables := new VariableStore();
    }

    method EmitOp(op: Op, args: seq<int>) returns (err: Option<PyError>)
      requires Valid()
      modifies bc
      ensures bc.header == old(bc.header)
      ensures Emit(old(St()), op, args) == Out(St(), err)
    {
      err := bc.WriteOp(op, args);
    }

    method PatchOp(offset: int, op: Op, args: seq<int>) returns (err: Option<PyError>)
      requires Valid()
      modifies bc
      ensures bc.header == old(bc.header)
      ensures Patch(old(St()), offset, op, args) == Out(St(), err)
    {
      err := bc.EditOp(offset, op, args);
    }

    /** `_walk`: the handler of the node's class. */
    method Walk(n: Node, depth: nat) returns (err: Option<PyError>)
      requires Valid()
      modifies this, bc, variables
      ensures Valid() && bc.header == old(bc.header)
      ensures Gen(structs, old(St()), n, depth) == Out(St(), err)
      decreases depth, n, 3
    {
      match n {
        case Structure(_, _, fs) => err := WalkList(fs, depth);
        case LetStatement(_, _) => err := WalkLet(n, depth);
        case IfStatement(_, _, _) => err := WalkIf(n, depth);
        case WhileLoop(_, _) => err := WalkWhile(n, depth);
        case ExprStatement(e) => err := Walk(e, depth);
        case BinaryOp(_, _, _) => err := WalkBinary(n, depth);
        case Function(_, _, _, _) => err := WalkFunction(n, depth);
        case ReturnStatement(_) => err := WalkReturn(n, depth);
        case Number(_) => err := WalkLiteral(n);
        case String(_) => err := WalkLiteral(n);
        case Vector(_, _) => err := WalkVector(n, depth);
        case Map(_, _) => err := WalkMap(n, depth);
        case Index(_, _, _) => err := WalkIndex(n, depth);
        case VariableRef(_) => err := WalkVariable(n);
        case Constructor(_, _) => err := WalkConstructor(n, depth);
        case FunctionCall(_, _) => err := WalkCall(n, depth);
        case MemberAccess(_, _) => err := WalkMemberAccess(n, depth);
        case Other => err := Some(RuntimeError);
      }
    }

    /** `_walk_number` and `_walk_string`: INT with the value; STRING with the character count and the UTF-8 bytes (no depth is involved). */
    method WalkLiteral(n: Node) returns (err: Option<PyError>)
      requires (n.Number? || n.String?) && Valid()
      modifies bc
      ensures bc.header == old(bc.header)
      ensures Gen(structs, old(St()), n, 0) == Out(St(), err)
    {
      if n.Number? {
        err := EmitOp(Op.INT, [n.num]);
      } else {
        err := EmitOp(Op.STRING, [|n.text|] + Utf8(n.text));
      }
    }

    /** `_walk_variable`: GET_VAR with the variable's slot. */
    method WalkVariable(n: Node) returns (err: Option<PyError>)
      requires n.VariableRef? && Valid()
      modifies bc
      ensures bc.header == old(bc.header)
      ensures Gen(structs, old(St()), n, 0) == Out(St(), err)
    {
      var id := variables.GetVariable(n.ref);
      if id.Err? {
        return Some(id.error);
      }
      err := EmitOp(GET_VAR, [id.value]);
    }

    /** The `for s in ...` loops over statements and arguments. */
    method WalkList(ns: seq<Node>, depth: nat) returns (err: Option<PyError>)
      requires Valid()
      modifies this, bc, variables
      ensures Valid() && bc.header == old(bc.header)
      ensures GenList(structs, old(St()), ns, depth) == Out(St(), err)
      decreases depth, ns, 1
    {
      var i := 0;
      assert ns[0..] == ns;
      while i < |ns|
        invariant 0 <= i <= |ns| && Valid() && bc.header == old(bc.header)
        invariant GenList(structs, old(St()), ns, depth) == GenList(structs, St(), ns[i..], depth)
      {
        assert ns[i..][0] == ns[i] && ns[i..][1..] == ns[i + 1..];
        err := Walk(ns[i], depth);
        if err.Some? {
          return;
        }
        i := i + 1;
      }
      err := None;
    }

    /** `_walk_let_statement`: the value, then a new slot for the name, then SET_VAR. */
    method WalkLet(n: Node, depth: nat) returns (err: Option<PyError>)
      requires n.LetStatement? && Valid()
      modifies this, bc, variables
      ensures Valid() && bc.header == old(bc.header)
      ensures Gen(structs, old(St()), n, depth) == Out(St(), err)
      decreases depth, n, 2
    {
      err := Walk(n.rhs, depth);
      if err.Some? {
        return;
      }
      var id := variables.RegisterVariable(n.name);
      if id.Err? {
        return Some(id.error);
      }
      err := EmitOp(SET_VAR, [id.value]);
    }

    /** `_walk_if_statement`. */
    method WalkIf(n: Node, depth: nat) returns (err: Option<PyError>)
      requires n.IfStatement? && Valid()
      modifies this, bc, variables
      ensures Valid() && bc.header == old(bc.header)
      ensures Gen(structs, old(St()), n, depth) == Out(St(), err)
      decreases depth, n, 2
    {
      err := Walk(n.cond, depth);
      if err.Some? {
        return;
      }
      var skipThen := bc.CurrentOffset();
      err := EmitOp(JUMP_IF_FALSE, [0xFF]);
      if err.Some? {
        return;
      }
      err := WalkList(n.thenStatements, depth);
      if err.Some? {
        return;
      }
      var skipElse := bc.CurrentOffset();
      err := EmitOp(JUMP, [0xFF]);
      if err.Some? {
        return;
      }
      var afterThen := bc.CurrentOffset();
      err := PatchOp(skipThen, JUMP_IF_FALSE, [afterThen]);
      if err.Some? {
        return;
      }
      err := WalkList(n.elseStatements, depth);
      if err.Some? {
        return;
      }
      var afterElse := bc.CurrentOffset();
      err := PatchOp(skipElse, JUMP, [afterElse]);
    }

    /** `_walk_while_loop`. */
    method WalkWhile(n: Node, depth: nat) returns (err: Option<PyError>)
      requires n.WhileLoop? && Valid()
      modifies this, bc, variables
      ensures Valid() && bc.header == old(bc.header)
      ensures Gen(structs, old(St()), n, depth) == Out(St(), err)
      decreases depth, n, 2
    {
      var beforeLoop := bc.CurrentOffset();
      err := Walk(n.cond, depth);
      if err.Some? {
        return;
      }
      var skipLoopBody := bc.CurrentOffset();
      err := EmitOp(JUMP_IF_FALSE, [0xFF]);
      if err.Some? {
        return;
      }
      err := WalkList(n.loopBody, depth);
      if err.Some? {
        return;
      }
      err := EmitOp(JUMP, [beforeLoop]);
      if err.Some? {
        return;
      }
      var afterLoopBody := bc.CurrentOffset();
      err := PatchOp(skipLoopBody, JUMP_IF_FALSE, [afterLoopBody]);
    }

    /** `_walk_binary_op`. */
    method WalkBinary(n: Node, depth: nat) returns (err: Option<PyError>)
      requires n.BinaryOp? && Valid()
      modifies this, bc, variables
      ensures Valid() && bc.header == old(bc.header)
      ensures GenBinary(structs, old(St()), n, depth) == Out(St(), err)
      decreases depth, n, 2
    {
      var kind := n.operator.kind;
      if kind != CompilerTokens.ASSIGN {
        err := Walk(n.lhs, depth);
        if err.Some? {
          return;
        }
      }
      err := Walk(n.rhs, depth);
      if err.Some? {
        return;
      }
      err := WalkOperator(n, depth);
    }

    /** The `if`/`elif` chain of `_walk_binary_op` on the operator's token type. */
    method WalkOperator(n: Node, depth: nat) returns (err: Option<PyError>)
      requires n.BinaryOp? && Valid()
      modifies this, bc, variables
      ensures Valid() && bc.header == old(bc.header)
      ensures GenOperator(structs, old(St()), n, depth) == Out(St(), err)
      decreases depth, n, 1
    {
      var kind := n.operator.kind;
      if kind == CompilerTokens.ADD {
        err := EmitOp(ADD, []);
      } else if kind == CompilerTokens.SUBTRACT {
        err := EmitOp(SUBTRACT, []);
      } else if kind == CompilerTokens.MULTIPLY {
        err := EmitOp(MULTIPLY, []);
      } else if kind == CompilerTokens.DIVIDE {
        err := EmitOp(DIVIDE, []);
      } else if kind == CompilerTokens.EQUALS {
        err := EmitOp(EQ, []);
      } else if kind == CompilerTokens.LESS_THAN {
        err := EmitOp(LT, []);
      } else if kind == CompilerTokens.ASSIGN {
        err := WalkAssignment(n, depth);
      } else {
        err := Some(RuntimeError);
      }
    }

    /** `_walk_assignment`. */
    method WalkAssignment(n: Node, depth: nat) returns (err: Option<PyError>)
      requires n.BinaryOp? && Valid()
      modifies this, bc, variables
      ensures Valid() && bc.header == old(bc.header)
      ensures GenAssignment(structs, old(St()), n, depth) == Out(St(), err)
      decreases depth, n, 0
    {
      match n.lhs {
        case VariableRef(x) =>
          var id := variables.GetVariable(x);
          if id.Err? {
            return Some(id.error);
          }
          err := EmitOp(SET_VAR, [id.value]);
        case MemberAccess(target, m) =>
          err := Walk(target, depth);
          if err.Some? {
            return;
          }
          var i := FindMember(m);
          if i.None? {
            return Some(RuntimeError);
          }
          err := EmitOp(SET_STRUCT_MEMBER, [i.value]);
        case _ => err := Some(RuntimeError);
      }
    }

    /**
     * The search of `_walk_assignment` and `_walk_member_access`: each struct
     * in turn, each member in turn, stopping at the first of that name.
     */
    method FindMember(m: string) returns (r: Option<nat>)
      ensures r == StructMemberIndex(structs, m)
    {
      var k := 0;
      assert structs[0..] == structs;
      while k < |structs|
        invariant 0 <= k <= |structs|
        invariant StructMemberIndex(structs, m) == StructMemberIndex(structs[k..], m)
      {
        assert structs[k..][0] == structs[k] && structs[k..][1..] == structs[k + 1..];
        var ms := structs[k].1.members;
        var i := 0;
        while i < |ms|
          invariant 0 <= i <= |ms|
          invariant forall j :: 0 <= j < i ==> ms[j].name != m
        {
          if ms[i].name == m {
            assert MemberIndex(ms, m) == Some(i);
            return Some(i);
          }
          i := i + 1;
        }
        k := k + 1;
      }
      r := None;
    }

    /** `_walk_function` with `_allocate_function_id`. */
    method WalkFunction(n: Node, depth: nat) returns (err: Option<PyError>)
      requires n.Function? && Valid()
      modifies this, bc, variables
      ensures Valid() && bc.header == old(bc.header)
      ensures Gen(structs, old(St()), n, depth) == Out(St(), err)
      decreases depth, n, 2
    {
      var id := AllocateFunctionId(n.name);
      if id.Err? {
        return Some(id.error);
      }
      var offset := bc.CurrentOffset();
      functions := functions[n.name := FunctionAttrs(id.value, offset)];
      var v0 := variables.St();
      var i := 0;
      assert n.args[0..] == n.args;
      while i < |n.args|
        invariant 0 <= i <= |n.args| && Valid() && bc.header == old(bc.header)
        invariant bc.buf == old(bc.buf) && functions == old(functions)[n.name := FunctionAttrs(id.value, offset)]
        invariant functionId == (if n.name == "main" then old(functionId) else old(functionId) + 1)
        invariant RegisterAll(v0, n.args) == RegisterAll(variables.St(), n.args[i..])
      {
        assert n.args[i..][0] == n.args[i] && n.args[i..][1..] == n.args[i + 1..];
        var r := variables.RegisterVariable(n.args[i].0);
        if r.Err? {
          return Some(r.error);
        }
        i := i + 1;
      }
      err := EmitOp(FUNCTION_DEF, [id.value, |n.args|]);
      if err.Some? {
        return;
      }
      err := WalkList(n.statements, depth);
      if err.Some? {
        return;
      }
      variables.Clear();
      if n.returnType.None? {
        return Some(AssertionError);
      }
      err := EmitOp(RETURN, []);
    }

    /** `_allocate_function_id`: `main` is 0, every other function the next id. */
    method AllocateFunctionId(name: string) returns (r: Result<nat, PyError>)
      modifies this
      ensures functions == old(functions)
      ensures name in functions ==> r == Err(RuntimeError) && functionId == old(functionId)
      ensures name !in functions && name == "main" ==> r == Ok(0) && functionId == old(functionId)
      ensures name !in functions && name != "main" ==> r == Ok(old(functionId)) && functionId == old(functionId) + 1
    {
      if name in functions {
        return Err(RuntimeError);
      }
      if name == "main" {
        return Ok(0);
      }
      var newId := functionId;
      functionId := functionId + 1;
      r := Ok(newId);
    }

    /** `_walk_return_statement`. */
    method WalkReturn(n: Node, depth: nat) returns (err: Option<PyError>)
      requires n.ReturnStatement? && Valid()
      modifies this, bc, variables
      ensures Valid() && bc.header == old(bc.header)
      ensures Gen(structs, old(St()), n, depth) == Out(St(), err)
      decreases depth, n, 2
    {
      if n.value.None? {
        err := EmitOp(RETURN, []);
      } else {
        err := Walk(n.value.value, depth);
        if err.Some? {
          return;
        }
        err := EmitOp(RETURN_VAL, []);
      }
    }

    /** `_walk_vector`: the elements last to first, then VEC. */
    method WalkVector(n: Node, depth: nat) returns (err: Option<PyError>)
      requires n.Vector? && Valid()
      modifies this, bc, variables
      ensures Valid() && bc.header == old(bc.header)
      ensures Gen(structs, old(St()), n, depth) == Out(St(), err)
      decreases depth, n, 2
    {
      var i := |n.elements|;
      while i > 0
        invariant 0 <= i <= |n.elements| && Valid() && bc.header == old(bc.header)
        invariant GenBackward(structs, old(St()), n, |n.elements|, depth) == GenBackward(structs, St(), n, i, depth)
      {
        err := Walk(n.elements[i - 1], depth);
        if err.Some? {
          return;
        }
        i := i - 1;
      }
      err := EmitOp(VEC, [|n.elements|]);
    }

    /** `_walk_map`: key then value for each pair, then MAP. */
    method WalkMap(n: Node, depth: nat) returns (err: Option<PyError>)
      requires n.Map? && Valid()
      modifies this, bc, variables
      ensures Valid() && bc.header == old(bc.header)
      ensures Gen(structs, old(St()), n, depth) == Out(St(), err)
      decreases depth, n, 2
    {
      var i := 0;
      while i < |n.entries|
        invariant 0 <= i <= |n.entries| && Valid() && bc.header == old(bc.header)
        invariant GenEntries(structs, old(St()), n, 0, depth) == GenEntries(structs, St(), n, i, depth)
      {
        err := Walk(n.entries[i].0, depth);
        if err.Some? {
          return;
        }
        err := Walk(n.entries[i].1, depth);
        if err.Some? {
          return;
        }
        i := i + 1;
      }
      err := EmitOp(Op.MAP, [|n.entries|]);
    }

    /** `_walk_index`. */
    method WalkIndex(n: Node, depth: nat) returns (err: Option<PyError>)
      requires n.Index? && Valid()
      modifies this, bc, variables
      ensures Valid() && bc.header == old(bc.header)
      ensures Gen(structs, old(St()), n, depth) == Out(St(), err)
      decreases depth, n, 2
    {
      err := Walk(n.base, depth);
      if err.Some? {
        return;
      }
      err := Walk(n.index, depth);
      if err.Some? {
        return;
      }
      if !n.baseType.Typed? {
        err := Some(AttributeError);
      } else if n.baseType.t.kind == TypeKind.VECTOR {
        err := EmitOp(VEC_ACCESS, []);
      } else if n.baseType.t.kind == TypeKind.MAP {
        err := EmitOp(MAP_ACCESS, []);
      } else {
        err := Some(AssertionError);
      }
    }

    /** `_walk_constructor`. */
    method WalkConstructor(n: Node, depth: nat) returns (err: Option<PyError>)
      requires n.Constructor? && Valid()
      modifies this, bc, variables
      ensures Valid() && bc.header == old(bc.header)
      ensures Gen(structs, old(St()), n, depth) == Out(St(), err)
      decreases depth, n, 2
    {
      var def := Dicts.Get(structs, n.structName);
      if def.None? {
        return Some(RuntimeError);
      }
      var ms := def.value.members;
      var i := 0;
      while i < |ms|
        invariant 0 <= i <= |ms| && Valid() && bc.header == old(bc.header)
        invariant GenMembers(structs, old(St()), n, ms, 0, depth) == GenMembers(structs, St(), n, ms, i, depth)
      {
        if i < |n.params| {
          err := Walk(n.params[i], depth);
        } else if ms[i].default.None? {
          return Some(AssertionError);
        } else if depth == 0 {
          return Some(RecursionError);
        } else {
          err := Walk(ms[i].default.value, depth - 1);
        }
        if err.Some? {
          return;
        }
        i := i + 1;
      }
      err := EmitOp(STRUCT, [def.value.typeId]);
    }

    /** `_walk_function_call`. */
    method WalkCall(n: Node, depth: nat) returns (err: Option<PyError>)
      requires n.FunctionCall? && Valid()
      modifies this, bc, variables
      ensures Valid() && bc.header == old(bc.header)
      ensures Gen(structs, old(St()), n, depth) == Out(St(), err)
      decreases depth, n, 2
    {
      var isIntrinsic := intrinsics.IsIntrinsic(n.callee);
      if isIntrinsic {
        var i := intrinsics.Get(n.callee);
        err := WalkIntrinsic(n, i.value, depth);
        return;
      }
      if n.callee !in functions {
        return Some(RuntimeError);
      }
      err := WalkList(n.callArgs, depth);
      if err.Some? {
        return;
      }
      if n.callee !in functions {
        return Some(KeyError);
      }
      err := EmitOp(CALL_FUNC, [functions[n.callee].functionId]);
    }

    /** The `codegen` rule of an intrinsic. */
    method WalkIntrinsic(n: Node, i: Intrinsics.Intrinsic, depth: nat) returns (err: Option<PyError>)
      requires n.FunctionCall? && Valid()
      modifies this, bc, variables
      ensures Valid() && bc.header == old(bc.header)
      ensures GenIntrinsic(structs, old(St()), n, i, depth) == Out(St(), err)
      decreases depth, n, 1
    {
      if |n.callArgs| != Intrinsics.Arity(i) {
        return Some(AssertionError);
      }
      err := WalkList(n.callArgs, depth);
      if err.Some? {
        return;
      }
      err := EmitOp(Intrinsics.IntrinsicOp(i), []);
    }

    /** `_walk_member_access`. */
    method WalkMemberAccess(n: Node, depth: nat) returns (err: Option<PyError>)
      requires n.MemberAccess? && Valid()
      modifies this, bc, variables
      ensures Valid() && bc.header == old(bc.header)
      ensures Gen(structs, old(St()), n, depth) == Out(St(), err)
      decreases depth, n, 2
    {
      err := Walk(n.target, depth);
      if err.Some? {
        return;
      }
      if !n.target.VariableRef? {
        return Some(AssertionError);
      }
      var i := FindMember(n.memberName);
      if i.None? {
        return Some(RuntimeError);
      }
      err := EmitOp(GET_STRUCT_MEMBER, [i.value]);
    }
  }
}
