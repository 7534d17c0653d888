/**
 * The type checker (compiler/passes/type_check.py) and the type-check rules
 * of the intrinsics (compiler/passes/intrinsics.py). Walking an expression
 * sets its `ret_type`; the walk here returns that value (`Unset` when the
 * rule sets none) together with the checker's new dicts. Comparisons and
 * attribute reads keep Python's behaviour on None and on missing
 * attributes.
 */
module TypeCheck {
  import opened Wrappers
  import opened Ast
  import Dicts
  import StructDefs
  import Intrinsics

  /** The parts of a Function node the checker reads back: parameter types and return type. */
  datatype FunctionSig = FunctionSig(args: seq<(string, Type)>, returnType: Option<Type>)

  /** `variable_types`, `functions` and `current_function`. */
  datatype TcState = TcState(vars: map<string, Ret>, functions: map<string, FunctionSig>, current: Option<FunctionSig>)

  /** A walk's outcome: the checker's state and the `ret_type` the walked node got. */
  datatype Checked = Checked(st: TcState, ret: Ret)

  /** The value of a `ret_type`-like attribute; reading an absent one raises AttributeError. */
  function AsValue(x: Ret): Result<Option<Type>, PyError>
  {
    match x
    case Unset => Err(AttributeError)
    case NoneRet => Ok(None)
    case Typed(t) => Ok(Some(t))
  }

  /**
   * `x != y` on two values that are each a Type or None: None equals only
   * None, and a Type compared with None reads `None.kind` (AttributeError).
   */
  function Ne(x: Ret, y: Ret): Result<bool, PyError>
  {
    var a :- AsValue(x);
    var b :- AsValue(y);
    match (a, b)
    case (None, None) => Ok(false)
    case (Some(s), Some(t)) => TypeNe(s, t)
    case _ => Err(AttributeError)
  }

  /** `x.kind` on an attribute that should hold a Type. */
  function KindOf(x: Ret): Result<TypeKind, PyError>
  {
    var a :- AsValue(x);
    if a.None? then Err(AttributeError) else Ok(a.value.kind)
  }

  /** A Type or None, as a `ret_type` value. */
  function FromOption(t: Option<Type>): Ret
  {
    if t.None? then NoneRet else Typed(t.value)
  }

  const IntType: Type := Simple(TypeKind.INT)

  /** `_walk`: the handler of the node's class. */
  function Check(structs: seq<(string, StructDefs.StructEntry)>, st: TcState, n: Node): Result<Checked, PyError>
    decreases n, 3
  {
    match n
    case Structure(_, _, fs) =>
      var s1 :- CheckAll(structs, st, fs);
      Ok(Checked(s1, Unset))
    case LetStatement(_, _) => CheckLet(structs, st, n)
    case IfStatement(_, _, _) => CheckIf(structs, st, n)
    case WhileLoop(c, body) =>
      var c1 :- Check(structs, st, c);
      var s2 :- CheckAll(structs, c1.st, body);
      Ok(Checked(s2, Unset))
    case ExprStatement(e) =>
      var c1 :- Check(structs, st, e);
      Ok(Checked(c1.st, Unset))
    case BinaryOp(_, _, _) => Ok(Checked(st, Typed(IntType)))
    case Function(_, _, _, _) => CheckFunction(structs, st, n)
    case ReturnStatement(_) => CheckReturn(structs, st, n)
    case Number(_) => Ok(Checked(st, Typed(IntType)))
    case String(_) => Ok(Checked(st, Typed(Simple(TypeKind.STRING))))
    case Vector(es, ct) =>
      var s1 :- CheckElements(structs, st, es, ct);
      Ok(Checked(s1, Typed(Type(TypeKind.VECTOR, None, Elem(ct)))))
    case Map(_, cts) =>
      var s1 :- CheckEntries(structs, st, n, 0);
      Ok(Checked(s1, Typed(Type(TypeKind.MAP, None, Pair(cts.0, cts.1)))))
    case Index(_, _, _) => CheckIndex(structs, st, n)
    case VariableRef(name) =>
      if name !in st.vars then Err(TypeError) else Ok(Checked(st, st.vars[name]))
    case Constructor(name, _) => Ok(Checked(st, Typed(Type(TypeKind.USER, Some(name), NoContainer))))
    case FunctionCall(_, _) => CheckCall(structs, st, n)
    case MemberAccess(_, _) => CheckMemberAccess(structs, st, n)
    case Other => Err(RuntimeError)
  }

  /** A list of statements or arguments walked in order, with the `ret_type` each got. */
  function CheckList(structs: seq<(string, StructDefs.StructEntry)>, st: TcState, ns: seq<Node>): (r: Result<(TcState, seq<Ret>), PyError>)
    ensures r.Ok? ==> |r.value.1| == |ns|
    decreases ns, 1
  {
    if ns == [] then Ok((st, []))
    else
      var c :- Check(structs, st, ns[0]);
      var (s2, rets) :- CheckList(structs, c.st, ns[1..]);
      Ok((s2, [c.ret] + rets))
  }

  /** A list of statements walked in order. */
  function CheckAll(structs: seq<(string, StructDefs.StructEntry)>, st: TcState, ns: seq<Node>): Result<TcState, PyError>
    decreases ns, 2
  {
    var (s1, _) :- CheckList(structs, st, ns);
    Ok(s1)
  }

  /** `_walk_let_statement`: the name gets the rhs's type, which must have been set. */
  function CheckLet(structs: seq<(string, StructDefs.StructEntry)>, st: TcState, n: Node): Result<Checked, PyError>
    requires n.LetStatement?
    decreases n, 2
  {
    var c :- Check(structs, st, n.rhs);
    if c.ret.Unset? then Err(TypeError)
    else Ok(Checked(c.st.(vars := c.st.vars[n.name := c.ret]), c.ret))
  }

  /** `_walk_if_statement`: the condition, then both branches; no type is set. */
  function CheckIf(structs: seq<(string, StructDefs.StructEntry)>, st: TcState, n: Node): Result<Checked, PyError>
    requires n.IfStatement?
    decreases n, 2
  {
    var c :- Check(structs, st, n.cond);
    var s1 :- CheckAll(structs, c.st, n.thenStatements);
    var s2 :- CheckAll(structs, s1, n.elseStatements);
    Ok(Checked(s2, Unset))
  }

  /** The element loop of `_walk_vector`: each element is walked, then compared with the container type. */
  function CheckElements(structs: seq<(string, StructDefs.StructEntry)>, st: TcState, es: seq<Node>, ct: Type): Result<TcState, PyError>
    decreases es, 1
  {
    if es == [] then Ok(st)
    else
      var c :- Check(structs, st, es[0]);
      var ne :- Ne(c.ret, Typed(ct));
      if ne then Err(TypeError) else CheckElements(structs, c.st, es[1..], ct)
  }

  /** The pair loop of `_walk_map` from pair i on: key, value, then both comparisons. */
  function CheckEntries(structs: seq<(string, StructDefs.StructEntry)>, st: TcState, n: Node, i: nat): Result<TcState, PyError>
    requires n.Map?
    decreases n, 1, |n.entries| - i
  {
    if i >= |n.entries| then Ok(st)
    else
      var k :- Check(structs, st, n.entries[i].0);
      var v :- Check(structs, k.st, n.entries[i].1);
      var kne :- Ne(k.ret, Typed(n.containerTypes.0));
      if kne then Err(TypeError)
      else
        var vne :- Ne(v.ret, Typed(n.containerTypes.1));
        if vne then Err(TypeError) else CheckEntries(structs, v.st, n, i + 1)
  }

  /** `_walk_index`: a map yields its value type, anything else its `container_type`. */
  function CheckIndex(structs: seq<(string, StructDefs.StructEntry)>, st: TcState, n: Node): Result<Checked, PyError>
    requires n.Index?
    decreases n, 2
  {
    var b :- Check(structs, st, n.base);
    var i :- Check(structs, b.st, n.index);
    var bt :- AsValue(b.ret);
    if bt.None? then Err(AttributeError)
    else match bt.value.container
      case Pair(_, v) => Ok(Checked(i.st, Typed(v)))
      case Elem(e) => Ok(Checked(i.st, Typed(e)))
      case NoContainer => Ok(Checked(i.st, NoneRet))
  }

  /** The `zip` loop of `_walk_function_call`: pairs up to the shorter list, stopping at the first mismatch. */
  function ZipCheck(params: seq<(string, Type)>, rets: seq<Ret>): Result<(), PyError>
  {
    if params == [] || rets == [] then Ok(())
    else
      var ne :- Ne(Typed(params[0].1), rets[0]);
      if ne then Err(TypeError) else ZipCheck(params[1..], rets[1..])
  }

  /** `_walk_function_call`: intrinsics go to their rule; other calls are checked against the callee. */
  function CheckCall(structs: seq<(string, StructDefs.StructEntry)>, st: TcState, n: Node): Result<Checked, PyError>
    requires n.FunctionCall?
    decreases n, 2
  {
    match Intrinsics.Lookup(n.callee)
    case Some(i) => CheckIntrinsic(structs, st, n, i)
    case None =>
      var (s1, rets) :- CheckList(structs, st, n.callArgs);
      if n.callee !in s1.functions then Err(AssertionError)
      else
        var f := s1.functions[n.callee];
        var _ :- ZipCheck(f.args, rets);
        Ok(Checked(s1, FromOption(f.returnType)))
  }

  /** `_walk_return_statement`. */
  function CheckReturn(structs: seq<(string, StructDefs.StructEntry)>, st: TcState, n: Node): Result<Checked, PyError>
    requires n.ReturnStatement?
    decreases n, 2
  {
    match n.value
    case None =>
      if st.current.None? || st.current.value.returnType.None? then Err(AttributeError)
      else if st.current.value.returnType.value.kind != TypeKind.VOID then Err(TypeError)
      else Ok(Checked(st, Unset))
    case Some(e) =>
      var c :- Check(structs, st, e);
      if c.st.current.None? then Err(AssertionError)
      else
        var ne :- Ne(c.ret, FromOption(c.st.current.value.returnType));
        if ne then Err(TypeError) else Ok(Checked(c.st, Unset))
  }

  /** The parameters bound in order; a later parameter of the same name wins. */
  function BindArgs(vars: map<string, Ret>, args: seq<(string, Type)>): map<string, Ret>
    decreases |args|
  {
    if args == [] then vars else BindArgs(vars[args[0].0 := Typed(args[0].1)], args[1..])
  }

  /** `_walk_function`. */
  function CheckFunction(structs: seq<(string, StructDefs.StructEntry)>, st: TcState, n: Node): Result<Checked, PyError>
    requires n.Function?
    decreases n, 2
  {
    if n.name in st.functions then Err(TypeError)
    else
      var sig := FunctionSig(n.args, n.returnType);
      var st1 := TcState(BindArgs(st.vars, n.args), st.functions[n.name := sig], Some(sig));
      var s2 :- CheckAll(structs, st1, n.statements);
      Ok(Checked(s2, Unset))
  }

  /** The first member of that name. */
  function FirstMember(ms: seq<Member>, name: string): Option<Member>
  {
    if ms == [] then None else if ms[0].name == name then Some(ms[0]) else FirstMember(ms[1..], name)
  }

  /** `_walk_member_access`: the member's type in the struct the target's type names. */
  function CheckMemberAccess(structs: seq<(string, StructDefs.StructEntry)>, st: TcState, n: Node): Result<Checked, PyError>
    requires n.MemberAccess?
    decreases n, 2
  {
    var c :- Check(structs, st, n.target);
    if c.ret.Unset? then Err(AssertionError)
    else if c.ret.NoneRet? then Err(AttributeError)
    else
      var id := c.ret.t.identifier;
      if id.None? || Dicts.Get(structs, id.value).None? then Err(AssertionError)
      else match FirstMember(Dicts.Get(structs, id.value).value.members, n.memberName)
        case None => Err(AssertionError)
        case Some(m) => Ok(Checked(c.st, Typed(m.mtype)))
  }

  /** The type-check rule of an intrinsic; only `len` sets a type. */
  function CheckIntrinsic(structs: seq<(string, StructDefs.StructEntry)>, st: TcState, n: Node, i: Intrinsics.Intrinsic): Result<Checked, PyError>
    requires n.FunctionCall?
    decreases n, 1
  {
    var args := n.callArgs;
    if |args| != Intrinsics.Arity(i) then Err(TypeError)
    else match i
      case Print =>
        var c :- Check(structs, st, args[0]);
        var k :- KindOf(c.ret);
        if k != TypeKind.INT && k != TypeKind.STRING then Err(TypeError) else Ok(Checked(c.st, Unset))
      case Push =>
        var v :- Check(structs, st, args[0]);
        var vk :- KindOf(v.ret);
        if vk != TypeKind.VECTOR then Err(TypeError)
        else
          var p :- Check(structs, v.st, args[1]);
          var pk :- KindOf(p.ret);
          var ek :- ElementKind(v.ret.t);
          if pk != ek then Err(TypeError) else Ok(Checked(p.st, Unset))
      case Len =>
        var c :- Check(structs, st, args[0]);
        var k :- KindOf(c.ret);
        if k != TypeKind.VECTOR then Err(TypeError) else Ok(Checked(c.st, Typed(IntType)))
      case Pop =>
        var c :- Check(structs, st, args[0]);
        var k :- KindOf(c.ret);
        if k != TypeKind.VECTOR then Err(TypeError) else Ok(Checked(c.st, Unset))
      case Insert =>
        var (s1, rets) :- CheckList(structs, st, args);
        InsertCheck(s1, rets)
  }

  /** `vec.ret_type.container_type.kind`: only a single element type has a kind. */
  function ElementKind(t: Type): Result<TypeKind, PyError>
  {
    if t.container.Elem? then Ok(t.container.elem.kind) else Err(AttributeError)
  }

  /**
   * The checks of `_insert_type_check` once its three arguments are walked.
   * A map type whose container is not a pair cannot be unpacked into key
   * and value types, which raises Python's own TypeError.
   */
  function InsertCheck(st: TcState, rets: seq<Ret>): Result<Checked, PyError>
    requires |rets| == 3
  {
    var mk :- KindOf(rets[0]);
    if mk != TypeKind.MAP then Err(TypeError)
    else if !rets[0].t.container.Pair? then Err(TypeError)
    else
      var kk :- KindOf(rets[1]);
      if rets[0].t.container.key.kind != kk then Err(TypeError)
      else
        var vk :- KindOf(rets[2]);
        if rets[0].t.container.value.kind != vk then Err(TypeError) else Ok(Checked(st, Unset))
  }

  /** `walk_ast`. */
  function CheckProgram(structs: seq<(string, StructDefs.StructEntry)>, st: TcState, ns: seq<Node>): Result<TcState, PyError>
  {
    CheckAll(structs, st, ns)
  }

  /** print, push, pop and insert set no type, so binding their result with `let` raises TypeError. */
  lemma UntypedIntrinsicInLetFails(structs: seq<(string, StructDefs.StructEntry)>, st: TcState, x: string, name: string, args: seq<Node>)
    requires name in {"print", "push", "pop", "insert"}
    requires Check(structs, st, FunctionCall(name, args)).Ok?
    ensures Check(structs, st, LetStatement(x, FunctionCall(name, args))) == Err(TypeError)
  {
    var call := FunctionCall(name, args);
    var i := Intrinsics.Lookup(name).value;
    assert Check(structs, st, call) == CheckIntrinsic(structs, st, call, i);
  }

  /** A `len` call that checks is typed int. */
  lemma LenIsInt(structs: seq<(string, StructDefs.StructEntry)>, st: TcState, args: seq<Node>)
    requires Check(structs, st, FunctionCall("len", args)).Ok?
    ensures Check(structs, st, FunctionCall("len", args)).value.ret == Typed(IntType)
  {
    var call := FunctionCall("len", args);
    assert Check(structs, st, call) == CheckIntrinsic(structs, st, call, Intrinsics.Len);
  }

  /**
   * A vector literal checks exactly as walking its elements in order does,
   * and then every element's type equals the container type.
   */
  lemma {:induction false} ElementsMatchContainer(structs: seq<(string, StructDefs.StructEntry)>, st: TcState, es: seq<Node>, ct: Type)
    requires CheckElements(structs, st, es, ct).Ok?
    ensures CheckList(structs, st, es).Ok?
    ensures CheckList(structs, st, es).value.0 == CheckElements(structs, st, es, ct).value
    ensures var rets := CheckList(structs, st, es).value.1;
      forall i :: 0 <= i < |rets| ==> rets[i].Typed? && TypeEq(rets[i].t, ct) == Ok(true)
    decreases es
  {
    if es != [] {
      var c := Check(structs, st, es[0]).value;
      ElementsMatchContainer(structs, c.st, es[1..], ct);
      var rest := CheckList(structs, c.st, es[1..]).value.1;
      assert CheckList(structs, st, es).value.1 == [c.ret] + rest;
    }
  }

  /** The keys and values of map entries in the order `_walk_map` walks them: each key, then its value. */
  function Interleaved(es: seq<(Node, Node)>): (r: seq<Node>)
    ensures |r| == 2 * |es|
    ensures forall j :: 0 <= j < |es| ==> r[2 * j] == es[j].0 && r[2 * j + 1] == es[j].1
  {
    if es == [] then [] else [es[0].0, es[0].1] + Interleaved(es[1..])
  }

  /**
   * A map literal that type-checks walks its keys and values as a statement
   * list does, and every key's type equals the key type and every value's
   * type the value type.
   */
  lemma {:induction false} EntriesMatchMap(structs: seq<(string, StructDefs.StructEntry)>, st: TcState, n: Node, i: nat)
    requires n.Map? && i <= |n.entries| && CheckEntries(structs, st, n, i).Ok?
    ensures CheckList(structs, st, Interleaved(n.entries[i..])).Ok?
    ensures CheckList(structs, st, Interleaved(n.entries[i..])).value.0 == CheckEntries(structs, st, n, i).value
    ensures PairsTyped(CheckList(structs, st, Interleaved(n.entries[i..])).value.1, n.containerTypes.0, n.containerTypes.1)
    decreases |n.entries| - i
  {
    if i < |n.entries| {
      var e := n.entries[i];
      EntriesStep(structs, st, n, i);
      var k := Check(structs, st, e.0).value;
      var v := Check(structs, k.st, e.1).value;
      EntriesMatchMap(structs, v.st, n, i + 1);
      var tail := Interleaved(n.entries[i + 1..]);
      assert n.entries[i..][1..] == n.entries[i + 1..];
      assert Interleaved(n.entries[i..]) == [e.0, e.1] + tail;
      CheckListPair(structs, st, e.0, e.1, tail);
      NotNeIsEq(k.ret, n.containerTypes.0);
      NotNeIsEq(v.ret, n.containerTypes.1);
      PairsTypedCons(k.ret, v.ret, CheckList(structs, v.st, tail).value.1, n.containerTypes.0, n.containerTypes.1);
    }
  }

  /** The types of keys and values in walking order: keys at even positions, values at odd ones. */
  ghost predicate PairsTyped(rets: seq<Ret>, kt: Type, vt: Type)
  {
    forall j :: 0 <= j < |rets| ==>
      rets[j].Typed? && TypeEq(rets[j].t, if j % 2 == 0 then kt else vt) == Ok(true)
  }

  lemma PairsTypedCons(k: Ret, v: Ret, rest: seq<Ret>, kt: Type, vt: Type)
    requires k.Typed? && TypeEq(k.t, kt) == Ok(true) && v.Typed? && TypeEq(v.t, vt) == Ok(true)
    requires PairsTyped(rest, kt, vt)
    ensures PairsTyped([k, v] + rest, kt, vt)
  {
    var rets := [k, v] + rest;
    forall j | 2 <= j < |rets|
      ensures rets[j].Typed? && TypeEq(rets[j].t, if j % 2 == 0 then kt else vt) == Ok(true)
    {
      assert rets[j] == rest[j - 2];
    }
  }

  /** One turn of the pair loop: the key and the value are walked and both comparisons pass. */
  lemma EntriesStep(structs: seq<(string, StructDefs.StructEntry)>, st: TcState, n: Node, i: nat)
    requires n.Map? && i < |n.entries| && CheckEntries(structs, st, n, i).Ok?
    ensures Check(structs, st, n.entries[i].0).Ok?
    ensures var k := Check(structs, st, n.entries[i].0).value;
      Check(structs, k.st, n.entries[i].1).Ok? &&
      var v := Check(structs, k.st, n.entries[i].1).value;
      Ne(k.ret, Typed(n.containerTypes.0)) == Ok(false) && Ne(v.ret, Typed(n.containerTypes.1)) == Ok(false) &&
      CheckEntries(structs, st, n, i) == CheckEntries(structs, v.st, n, i + 1)
  {
  }

  /** Walking a key and a value in front of a list, as a statement list does. */
  lemma CheckListPair(structs: seq<(string, StructDefs.StructEntry)>, st: TcState, a: Node, b: Node, tail: seq<Node>)
    requires Check(structs, st, a).Ok? && Check(structs, Check(structs, st, a).value.st, b).Ok?
    requires CheckList(structs, Check(structs, Check(structs, st, a).value.st, b).value.st, tail).Ok?
    ensures var k := Check(structs, st, a).value;
      var v := Check(structs, k.st, b).value;
      var t := CheckList(structs, v.st, tail).value;
      CheckList(structs, st, [a, b] + tail) == Ok((t.0, [k.ret, v.ret] + t.1))
  {
    var k := Check(structs, st, a).value;
    var v := Check(structs, k.st, b).value;
    var t := CheckList(structs, v.st, tail).value;
    assert ([b] + tail)[1..] == tail;
    assert CheckList(structs, k.st, [b] + tail) == Ok((t.0, [v.ret] + t.1));
    assert ([a, b] + tail)[1..] == [b] + tail;
    assert [k.ret] + ([v.ret] + t.1) == [k.ret, v.ret] + t.1;
  }

  /** `x != t` evaluating to False means `x` holds a type equal to `t`. */
  lemma NotNeIsEq(x: Ret, t: Type)
    requires Ne(x, Typed(t)) == Ok(false)
    ensures x.Typed? && TypeEq(x.t, t) == Ok(true)
  {
  }

  /** An element whose type differs from the container type raises TypeError. */
  lemma ElementMismatchFails(structs: seq<(string, StructDefs.StructEntry)>, st: TcState, e: Node, es: seq<Node>, ct: Type, t: Type)
    requires Check(structs, st, e).Ok? && Check(structs, st, e).value.ret == Typed(t)
    requires TypeEq(t, ct) == Ok(false)
    ensures Check(structs, st, Vector([e] + es, ct)) == Err(TypeError)
  {
    assert ([e] + es)[0] == e;
  }

  /** A map literal whose first key has the wrong type raises TypeError, whatever its value. */
  lemma KeyMismatchFails(structs: seq<(string, StructDefs.StructEntry)>, st: TcState, k: Node, v: Node, rest: seq<(Node, Node)>, kt: Type, vt: Type, t: Type)
    requires Check(structs, st, k).Ok? && Check(structs, st, k).value.ret == Typed(t)
    requires Check(structs, Check(structs, st, k).value.st, v).Ok?
    requires TypeEq(t, kt) == Ok(false)
    ensures Check(structs, st, Map([(k, v)] + rest, (kt, vt))) == Err(TypeError)
  {
    assert ([(k, v)] + rest)[0] == (k, v);
  }

  /** Indexing a map gives its value type; indexing a vector its element type. */
  lemma IndexTypes(structs: seq<(string, StructDefs.StructEntry)>, st: TcState, n: Node, b: Checked)
    requires n.Index? && Check(structs, st, n.base) == Ok(b)
    requires Check(structs, b.st, n.index).Ok? && b.ret.Typed?
    ensures Check(structs, st, n).Ok?
    ensures b.ret.t.container.Pair? ==> Check(structs, st, n).value.ret == Typed(b.ret.t.container.value)
    ensures b.ret.t.container.Elem? ==> Check(structs, st, n).value.ret == Typed(b.ret.t.container.elem)
  {
  }

  /**
   * The argument check of a call: it passes exactly when each argument
   * that has a parameter compares equal to it; the argument count is not
   * compared.
   */
  lemma {:induction false} ZipCheckSpec(params: seq<(string, Type)>, rets: seq<Ret>)
    ensures ZipCheck(params, rets).Ok? <==>
      forall i :: 0 <= i < |params| && i < |rets| ==> Ne(Typed(params[i].1), rets[i]) == Ok(false)
  {
    if params != [] && rets != [] {
      ZipCheckSpec(params[1..], rets[1..]);
      assert forall i :: 1 <= i < |params| && i < |rets| ==> params[i] == params[1..][i - 1] && rets[i] == rets[1..][i - 1];
    }
  }

  /** A call with more arguments than parameters checks as if the extra ones were not there. */
  lemma {:induction false} ExtraArgumentsIgnored(params: seq<(string, Type)>, rets: seq<Ret>, extra: seq<Ret>)
    requires |rets| == |params|
    ensures ZipCheck(params, rets + extra) == ZipCheck(params, rets)
  {
    if params != [] {
      assert (rets + extra)[1..] == rets[1..] + extra;
      ExtraArgumentsIgnored(params[1..], rets[1..], extra);
    }
  }

  /** A checked call to a defined function has that function's return type. */
  lemma CallHasReturnType(structs: seq<(string, StructDefs.StructEntry)>, st: TcState, n: Node)
    requires n.FunctionCall? && Intrinsics.Lookup(n.callee).None?
    requires Check(structs, st, n).Ok?
    ensures CheckList(structs, st, n.callArgs).Ok?
    ensures var s1 := CheckList(structs, st, n.callArgs).value.0;
      n.callee in s1.functions &&
      Check(structs, st, n).value.ret == FromOption(s1.functions[n.callee].returnType)
  {
  }

  /** A bare `return` in a function whose return type is not void raises TypeError. */
  lemma BareReturnNeedsVoid(structs: seq<(string, StructDefs.StructEntry)>, st: TcState, f: FunctionSig)
    requires st.current == Some(f) && f.returnType.Some? && f.returnType.value.kind != TypeKind.VOID
    ensures Check(structs, st, ReturnStatement(None)) == Err(TypeError)
  {
  }

  /** Returning a value of another type than the function's raises TypeError. */
  lemma ReturnTypeMismatchFails(structs: seq<(string, StructDefs.StructEntry)>, st: TcState, e: Node, t: Type, f: FunctionSig)
    requires Check(structs, st, e).Ok? && Check(structs, st, e).value.ret == Typed(t)
    requires Check(structs, st, e).value.st.current == Some(f) && f.returnType.Some?
    requires TypeEq(t, f.returnType.value) == Ok(false)
    ensures Check(structs, st, ReturnStatement(Some(e))) == Err(TypeError)
  {
  }

  /** Defining a function whose name is already defined raises TypeError. */
  lemma RedefinitionFails(structs: seq<(string, StructDefs.StructEntry)>, st: TcState, n: Node)
    requires n.Function? && n.name in st.functions
    ensures Check(structs, st, n) == Err(TypeError)
  {
  }

  /** The dicts only grow: no variable binding or function definition is ever dropped. */
  predicate Grows(s: TcState, s': TcState)
  {
    s.vars.Keys <= s'.vars.Keys && s.functions.Keys <= s'.functions.Keys
  }

  lemma {:induction false} BindArgsGrows(vars: map<string, Ret>, args: seq<(string, Type)>)
    ensures vars.Keys <= BindArgs(vars, args).Keys
    decreases |args|
  {
    if args != [] {
      BindArgsGrows(vars[args[0].0 := Typed(args[0].1)], args[1..]);
    }
  }

  /**
   * `variable_types` is never cleared: a binding made in one function is
   * still visible in every later one, and a defined function stays defined.
   */
  lemma {:induction false} CheckGrows(structs: seq<(string, StructDefs.StructEntry)>, st: TcState, n: Node)
    requires Check(structs, st, n).Ok?
    ensures Grows(st, Check(structs, st, n).value.st)
    decreases n, 3
  {
    match n
    case Structure(_, _, fs) => CheckListGrows(structs, st, fs);
    case LetStatement(_, r) => CheckGrows(structs, st, r);
    case IfStatement(c, t, e) =>
      assert Check(structs, st, n) == CheckIf(structs, st, n);
      var c1 := Check(structs, st, c).value;
      CheckGrows(structs, st, c);
      CheckAllGrows(structs, c1.st, t);
      CheckAllGrows(structs, CheckAll(structs, c1.st, t).value, e);
    case WhileLoop(c, body) =>
      CheckGrows(structs, st, c);
      CheckListGrows(structs, Check(structs, st, c).value.st, body);
    case ExprStatement(e) => CheckGrows(structs, st, e);
    case Function(name, args, ss, _) =>
      assert Check(structs, st, n) == CheckFunction(structs, st, n);
      BindArgsGrows(st.vars, args);
      var sig := FunctionSig(args, n.returnType);
      CheckAllGrows(structs, TcState(BindArgs(st.vars, args), st.functions[name := sig], Some(sig)), ss);
    case ReturnStatement(v) =>
      if v.Some? {
        CheckGrows(structs, st, v.value);
      }
    case Vector(es, ct) => ElementsGrow(structs, st, es, ct);
    case Map(_, _) => EntriesGrow(structs, st, n, 0);
    case Index(b, i, _) =>
      CheckGrows(structs, st, b);
      CheckGrows(structs, Check(structs, st, b).value.st, i);
    case FunctionCall(callee, args) =>
      if Intrinsics.Lookup(callee).Some? {
        IntrinsicGrows(structs, st, n, Intrinsics.Lookup(callee).value);
      } else {
        CheckListGrows(structs, st, args);
      }
    case MemberAccess(e, _) => CheckGrows(structs, st, e);
    case _ =>
  }

  lemma {:induction false} CheckListGrows(structs: seq<(string, StructDefs.StructEntry)>, st: TcState, ns: seq<Node>)
    requires CheckList(structs, st, ns).Ok?
    ensures Grows(st, CheckList(structs, st, ns).value.0)
    decreases ns, 1
  {
    if ns != [] {
      CheckGrows(structs, st, ns[0]);
      CheckListGrows(structs, Check(structs, st, ns[0]).value.st, ns[1..]);
    }
  }

  lemma {:induction false} CheckAllGrows(structs: seq<(string, StructDefs.StructEntry)>, st: TcState, ns: seq<Node>)
    requires CheckAll(structs, st, ns).Ok?
    ensures Grows(st, CheckAll(structs, st, ns).value)
    decreases ns, 2
  {
    assert CheckList(structs, st, ns).Ok?;
    CheckListGrows(structs, st, ns);
  }

  lemma {:induction false} ElementsGrow(structs: seq<(string, StructDefs.StructEntry)>, st: TcState, es: seq<Node>, ct: Type)
    requires CheckElements(structs, st, es, ct).Ok?
    ensures Grows(st, CheckElements(structs, st, es, ct).value)
    decreases es, 1
  {
    if es != [] {
      CheckGrows(structs, st, es[0]);
      ElementsGrow(structs, Check(structs, st, es[0]).value.st, es[1..], ct);
    }
  }

  lemma {:induction false} EntriesGrow(structs: seq<(string, StructDefs.StructEntry)>, st: TcState, n: Node, i: nat)
    requires n.Map? && CheckEntries(structs, st, n, i).Ok?
    ensures Grows(st, CheckEntries(structs, st, n, i).value)
    decreases n, 1, |n.entries| - i
  {
    if i < |n.entries| {
      var k := Check(structs, st, n.entries[i].0).value;
      CheckGrows(structs, st, n.entries[i].0);
      CheckGrows(structs, k.st, n.entries[i].1);
      EntriesGrow(structs, Check(structs, k.st, n.entries[i].1).value.st, n, i + 1);
    }
  }

  lemma {:induction false} IntrinsicGrows(structs: seq<(string, StructDefs.StructEntry)>, st: TcState, n: Node, i: Intrinsics.Intrinsic)
    requires n.FunctionCall? && CheckIntrinsic(structs, st, n, i).Ok?
    ensures Grows(st, CheckIntrinsic(structs, st, n, i).value.st)
    decreases n, 1
  {
    var args := n.callArgs;
    match i
    case Push =>
      CheckGrows(structs, st, args[0]);
      CheckGrows(structs, Check(structs, st, args[0]).value.st, args[1]);
    case Insert => CheckListGrows(structs, st, args);
    case _ => CheckGrows(structs, st, args[0]);
  }

  /** A walk's outcome as a method reports it: the `ret_type` set, or the exception raised. */
  function Lift(s: TcState, r: Result<Ret, PyError>): Result<Checked, PyError>
  {
    if r.Ok? then Ok(Checked(s, r.value)) else Err(r.error)
  }

  /** The types of the nodes already walked, put in front of the rest's outcome. */
  function Prefixed(rets: seq<Ret>, x: Result<(TcState, seq<Ret>), PyError>): Result<(TcState, seq<Ret>), PyError>
  {
    if x.Ok? then Ok((x.value.0, rets + x.value.1)) else x
  }

  lemma PrefixedStep(rets: seq<Ret>, c: Ret, tail: Result<(TcState, seq<Ret>), PyError>)
    ensures Prefixed(rets, Prefixed([c], tail)) == Prefixed(rets + [c], tail)
  {
    if tail.Ok? {
      assert rets + ([c] + tail.value.1) == rets + [c] + tail.value.1;
    }
  }

  /** The `TypeChecker` pass: its dicts change as it walks the tree. */
  class TypeChecker {
    const structs: seq<(string, StructDefs.StructEntry)>
    const intrinsics: Intrinsics.Registry
    var variableTypes: map<string, Ret>
    var functions: map<string, FunctionSig>
    var currentFunction: Option<FunctionSig>

    ghost predicate Valid()
      reads this, intrinsics
    {
      intrinsics.Valid()
    }

    function St(): TcState
      reads this
    {
      TcState(variableTypes, functions, currentFunction)
    }

    /** `__init__`: all three start empty. */
    constructor (structs: seq<(string, StructDefs.StructEntry)>, intrinsics: Intrinsics.Registry)
      requires intrinsics.Valid()
      ensures Valid() && this.structs == structs && this.intrinsics == intrinsics
      ensures St() == TcState(map[], map[], None)
    {
      this.structs := structs;
      this.intrinsics := intrinsics;
      variableTypes := map[];
      functions := map[];
      currentFunction := None;
    }

    /** `_walk`: the handler of the node's class. */
    method Walk(n: Node) returns (r: Result<Ret, PyError>)
      requires Valid()
      modifies this
      ensures Valid()
      ensures Check(structs, old(St()), n) == Lift(St(), r)
      decreases n, 3
    {
      match n {
        case Structure(_, _, _) => r := WalkStructure(n);
        case LetStatement(_, _) => r := WalkLet(n);
        case IfStatement(_, _, _) => r := WalkIf(n);
        case WhileLoop(_, _) => r := WalkWhile(n);
        case ExprStatement(e) =>
          var c := Walk(e);
          r := if c.Ok? then Ok(Unset) else c;
        case BinaryOp(_, _, _) => r := Ok(Typed(IntType));
        case Function(_, _, _, _) => r := WalkFunction(n);
        case ReturnStatement(_) => r := WalkReturn(n);
        case Number(_) => r := Ok(Typed(IntType));
        case String(_) => r := Ok(Typed(Simple(TypeKind.STRING)));
        case Vector(_, _) => r := WalkVector(n);
        case Map(_, _) => r := WalkMap(n);
        case Index(_, _, _) => r := WalkIndex(n);
        case VariableRef(name) =>
          r := if name !in variableTypes then Err(TypeError) else Ok(variableTypes[name]);
        case Constructor(name, _) => r := Ok(Typed(Type(TypeKind.USER, Some(name), NoContainer)));
        case FunctionCall(_, _) => r := WalkCall(n);
        case MemberAccess(_, _) => r := WalkMemberAccess(n);
        case Other => r := Err(RuntimeError);
      }
    }

    /** Walks the nodes in order and collects the `ret_type` each got. */
    method WalkList(ns: seq<Node>) returns (r: Result<seq<Ret>, PyError>)
      requires Valid()
      modifies this
      ensures Valid()
      ensures CheckList(structs, old(St()), ns) == (if r.Ok? then Ok((St(), r.value)) else Err(r.error))
      decreases ns, 1
    {
      var rets: seq<Ret> := [];
      var i := 0;
      assert ns[0..] == ns;
      assert CheckList(structs, St(), ns).Ok? ==> [] + CheckList(structs, St(), ns).value.1 == CheckList(structs, St(), ns).value.1;
      while i < |ns|
        invariant 0 <= i <= |ns| && Valid()
        invariant CheckList(structs, old(St()), ns) == Prefixed(rets, CheckList(structs, St(), ns[i..]))
      {
        assert ns[i..] == [ns[i]] + ns[i + 1..];
        var c := Walk(ns[i]);
        if c.Err? {
          return Err(c.error);
        }
        PrefixedStep(rets, c.value, CheckList(structs, St(), ns[i + 1..]));
        rets := rets + [c.value];
        i := i + 1;
      }
      assert ns[i..] == [] && rets + [] == rets;
      return Ok(rets);
    }

    /** The `for statement in ...` loops. */
    method WalkAll(ns: seq<Node>) returns (err: Option<PyError>)
      requires Valid()
      modifies this
      ensures Valid()
      ensures CheckAll(structs, old(St()), ns) == (if err.None? then Ok(St()) else Err(err.value))
      decreases ns, 2
    {
      var r := WalkList(ns);
      err := if r.Ok? then None else Some(r.error);
    }

    /** `_walk_structure`: walks the member functions. */
    method WalkStructure(n: Node) returns (r: Result<Ret, PyError>)
      requires n.Structure? && Valid()
      modifies this
      ensures Valid()
      ensures Check(structs, old(St()), n) == Lift(St(), r)
      decreases n, 2
    {
      var e := WalkAll(n.memberFunctions);
      r := if e.None? then Ok(Unset) else Err(e.value);
    }

    /** `_walk_let_statement`. */
    method WalkLet(n: Node) returns (r: Result<Ret, PyError>)
      requires n.LetStatement? && Valid()
      modifies this
      ensures Valid()
      ensures CheckLet(structs, old(St()), n) == Lift(St(), r)
      decreases n, 2
    {
      var c := Walk(n.rhs);
      if c.Err? {
        return c;
      }
      if c.value.Unset? {
        return Err(TypeError);
      }
      variableTypes := variableTypes[n.name := c.value];
      r := c;
    }

    /** `_walk_if_statement`. */
    method WalkIf(n: Node) returns (r: Result<Ret, PyError>)
      requires n.IfStatement? && Valid()
      modifies this
      ensures Valid()
      ensures CheckIf(structs, old(St()), n) == Lift(St(), r)
      decreases n, 2
    {
      var c := Walk(n.cond);
      if c.Err? {
        return c;
      }
      var e := WalkAll(n.thenStatements);
      if e.Some? {
        return Err(e.value);
      }
      e := WalkAll(n.elseStatements);
      r := if e.None? then Ok(Unset) else Err(e.value);
    }

    /** `_walk_while_loop`. */
    method WalkWhile(n: Node) returns (r: Result<Ret, PyError>)
      requires n.WhileLoop? && Valid()
      modifies this
      ensures Valid()
      ensures Check(structs, old(St()), n) == Lift(St(), r)
      decreases n, 2
    {
      var c := Walk(n.cond);
      if c.Err? {
        return c;
      }
      var e := WalkAll(n.loopBody);
      r := if e.None? then Ok(Unset) else Err(e.value);
    }

    /** `_walk_vector`: each element in turn must have the container type. */
    method WalkVector(n: Node) returns (r: Result<Ret, PyError>)
      requires n.Vector? && Valid()
      modifies this
      ensures Valid()
      ensures Check(structs, old(St()), n) == Lift(St(), r)
      decreases n, 2
    {
      var es := n.elements;
      var i := 0;
      while i < |es|
        invariant 0 <= i <= |es| && Valid()
        invariant CheckElements(structs, old(St()), es, n.containerType) == CheckElements(structs, St(), es[i..], n.containerType)
      {
        assert es[i..][0] == es[i] && es[i..][1..] == es[i + 1..];
        var c := Walk(es[i]);
        if c.Err? {
          return c;
        }
        var ne := Ne(c.value, Typed(n.containerType));
        if ne.Err? {
          return Err(ne.error);
        }
        if ne.value {
          return Err(TypeError);
        }
        i := i + 1;
      }
      r := Ok(Typed(Type(TypeKind.VECTOR, None, Elem(n.containerType))));
    }

    /** `_walk_map`: each key, then its value, then both comparisons. */
    method WalkMap(n: Node) returns (r: Result<Ret, PyError>)
      requires n.Map? && Valid()
      modifies this
      ensures Valid()
      ensures Check(structs, old(St()), n) == Lift(St(), r)
      decreases n, 2
    {
      var i := 0;
      while i < |n.entries|
        invariant 0 <= i <= |n.entries| && Valid()
        invariant CheckEntries(structs, old(St()), n, 0) == CheckEntries(structs, St(), n, i)
      {
        var k := Walk(n.entries[i].0);
        if k.Err? {
          return k;
        }
        var v := Walk(n.entries[i].1);
        if v.Err? {
          return v;
        }
        var kne := Ne(k.value, Typed(n.containerTypes.0));
        if kne.Err? {
          return Err(kne.error);
        }
        if kne.value {
          return Err(TypeError);
        }
        var vne := Ne(v.value, Typed(n.containerTypes.1));
        if vne.Err? {
          return Err(vne.error);
        }
        if vne.value {
          return Err(TypeError);
        }
        i := i + 1;
      }
      r := Ok(Typed(Type(TypeKind.MAP, None, Pair(n.containerTypes.0, n.containerTypes.1))));
    }

    /** `_walk_index`. */
    method WalkIndex(n: Node) returns (r: Result<Ret, PyError>)
      requires n.Index? && Valid()
      modifies this
      ensures Valid()
      ensures CheckIndex(structs, old(St()), n) == Lift(St(), r)
      decreases n, 2
    {
      var b := Walk(n.base);
      if b.Err? {
        return b;
      }
      var i := Walk(n.index);
      if i.Err? {
        return i;
      }
      var bt := AsValue(b.value);
      if bt.Err? {
        return Err(bt.error);
      }
      if bt.value.None? {
        return Err(AttributeError);
      }
      match bt.value.value.container {
        case Pair(_, v) => r := Ok(Typed(v));
        case Elem(e) => r := Ok(Typed(e));
        case NoContainer => r := Ok(NoneRet);
      }
    }

    /** `_walk_function_call`. */
    method WalkCall(n: Node) returns (r: Result<Ret, PyError>)
      requires n.FunctionCall? && Valid()
      modifies this
      ensures Valid()
      ensures CheckCall(structs, old(St()), n) == Lift(St(), r)
      decreases n, 2
    {
      var isIntrinsic := intrinsics.IsIntrinsic(n.callee);
      if isIntrinsic {
        var g := intrinsics.Get(n.callee);
        r := WalkIntrinsic(n, g.value);
        return;
      }
      var args := WalkList(n.callArgs);
      if args.Err? {
        return Err(args.error);
      }
      if n.callee !in functions {
        return Err(AssertionError);
      }
      var f := functions[n.callee];
      var rets := args.value;
      var i := 0;
      while i < |f.args| && i < |rets|
        invariant 0 <= i <= |f.args| && i <= |rets|
        invariant ZipCheck(f.args, rets) == ZipCheck(f.args[i..], rets[i..])
      {
        assert f.args[i..][1..] == f.args[i + 1..] && rets[i..][1..] == rets[i + 1..];
        var ne := Ne(Typed(f.args[i].1), rets[i]);
        if ne.Err? {
          return Err(ne.error);
        }
        if ne.value {
          return Err(TypeError);
        }
        i := i + 1;
      }
      r := Ok(FromOption(f.returnType));
    }

    /** `_walk_return_statement`. */
    method WalkReturn(n: Node) returns (r: Result<Ret, PyError>)
      requires n.ReturnStatement? && Valid()
      modifies this
      ensures Valid()
      ensures CheckReturn(structs, old(St()), n) == Lift(St(), r)
      decreases n, 2
    {
      if n.value.None? {
        if currentFunction.None? || currentFunction.value.returnType.None? {
          return Err(AttributeError);
        }
        if currentFunction.value.returnType.value.kind != TypeKind.VOID {
          return Err(TypeError);
        }
        return Ok(Unset);
      }
      var c := Walk(n.value.value);
      if c.Err? {
        return c;
      }
      if currentFunction.None? {
        return Err(AssertionError);
      }
      var ne := Ne(c.value, FromOption(currentFunction.value.returnType));
      if ne.Err? {
        return Err(ne.error);
      }
      r := if ne.value then Err(TypeError) else Ok(Unset);
    }

    /** `_walk_function`: binds the parameters, registers the function, walks the body. */
    method WalkFunction(n: Node) returns (r: Result<Ret, PyError>)
      requires n.Function? && Valid()
      modifies this
      ensures Valid()
      ensures CheckFunction(structs, old(St()), n) == Lift(St(), r)
      decreases n, 2
    {
      if n.name in functions {
        return Err(TypeError);
      }
      var i := 0;
      while i < |n.args|
        invariant 0 <= i <= |n.args|
        invariant BindArgs(old(variableTypes), n.args) == BindArgs(variableTypes, n.args[i..])
        invariant functions == old(functions)
      {
        assert n.args[i..][1..] == n.args[i + 1..];
        variableTypes := variableTypes[n.args[i].0 := Typed(n.args[i].1)];
        i := i + 1;
      }
      var sig := FunctionSig(n.args, n.returnType);
      functions := functions[n.name := sig];
      currentFunction := Some(sig);
      var e := WalkAll(n.statements);
      r := if e.None? then Ok(Unset) else Err(e.value);
    }

    /** `_walk_member_access`: the first member of that name in the target's struct. */
    method WalkMemberAccess(n: Node) returns (r: Result<Ret, PyError>)
      requires n.MemberAccess? && Valid()
      modifies this
      ensures Valid()
      ensures CheckMemberAccess(structs, old(St()), n) == Lift(St(), r)
      decreases n, 2
    {
      var c := Walk(n.target);
      if c.Err? {
        return c;
      }
      if c.value.Unset? {
        return Err(AssertionError);
      }
      if c.value.NoneRet? {
        return Err(AttributeError);
      }
      var id := c.value.t.identifier;
      if id.None? || Dicts.Get(structs, id.value).None? {
        return Err(AssertionError);
      }
      var ms := Dicts.Get(structs, id.value).value.members;
      var i := 0;
      while i < |ms|
        invariant 0 <= i <= |ms|
        invariant FirstMember(ms, n.memberName) == FirstMember(ms[i..], n.memberName)
      {
        assert ms[i..][1..] == ms[i + 1..];
        if ms[i].name == n.memberName {
          return Ok(Typed(ms[i].mtype));
        }
        i := i + 1;
      }
      r := Err(AssertionError);
    }

    /** The type-check rule of each intrinsic. */
    method WalkIntrinsic(n: Node, i: Intrinsics.Intrinsic) returns (r: Result<Ret, PyError>)
      requires n.FunctionCall? && Valid()
      modifies this
      ensures Valid()
      ensures CheckIntrinsic(structs, old(St()), n, i) == Lift(St(), r)
      decreases n, 1
    {
      var args := n.callArgs;
      if |args| != Intrinsics.Arity(i) {
        return Err(TypeError);
      }
      match i {
        case Print =>
          var c := Walk(args[0]);
          if c.Err? {
            return c;
          }
          var k := KindOf(c.value);
          if k.Err? {
            return Err(k.error);
          }
          r := if k.value != TypeKind.INT && k.value != TypeKind.STRING then Err(TypeError) else Ok(Unset);
        case Push =>
          var v := Walk(args[0]);
          if v.Err? {
            return v;
          }
          var vk := KindOf(v.value);
          if vk.Err? {
            return Err(vk.error);
          }
          if vk.value != TypeKind.VECTOR {
            return Err(TypeError);
          }
          var p := Walk(args[1]);
          if p.Err? {
            return p;
          }
          var pk := KindOf(p.value);
          if pk.Err? {
            return Err(pk.error);
          }
          var ek := ElementKind(v.value.t);
          if ek.Err? {
            return Err(ek.error);
          }
          r := if pk.value != ek.value then Err(TypeError) else Ok(Unset);
        case Len =>
          var c := Walk(args[0]);
          if c.Err? {
            return c;
          }
          var k := KindOf(c.value);
          if k.Err? {
            return Err(k.error);
          }
          r := if k.value != TypeKind.VECTOR then Err(TypeError) else Ok(Typed(IntType));
        case Pop =>
          var c := Walk(args[0]);
          if c.Err? {
            return c;
          }
          var k := KindOf(c.value);
          if k.Err? {
            return Err(k.error);
          }
          r := if k.value != TypeKind.VECTOR then Err(TypeError) else Ok(Unset);
        case Insert =>
          var l := WalkList(args);
          if l.Err? {
            return Err(l.error);
          }
          var x := InsertCheck(St(), l.value);
          r := if x.Ok? then Ok(x.value.ret) else Err(x.error);
      }
    }

    /** `walk_ast`. */
    method WalkAst(ns: seq<Node>) returns (err: Option<PyError>)
      requires Valid()
      modifies this
      ensures Valid()
      ensures CheckProgram(structs, old(St()), ns) == (if err.None? then Ok(St()) else Err(err.value))
    {
      err := WalkAll(ns);
    }
  }
}
