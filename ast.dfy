/**
 * The syntax tree of compiler/ast.py: types with their structural equality,
 * the node classes with their `__eq__` methods, the list renderers used by
 * the `__str__` methods, and the closed dispatch of `ASTWalker._walk`.
 */
module Ast {
  import opened Wrappers
  import Lexing
  import CompilerTokens

  datatype TypeKind = INT | STRING | VECTOR | MAP | VOID | USER

  /**
   * `container_type`: None, one element type (vectors), or a pair of key and
   * value types (maps; a tuple in the source).
   */
  datatype Container = NoContainer | Elem(elem: Type) | Pair(key: Type, value: Type)

  /** `Type(kind, identifier=None, container_type=None)`. */
  datatype Type = Type(kind: TypeKind, identifier: Option<string>, container: Container)

  function Simple(k: TypeKind): Type { Type(k, None, NoContainer) }

  /**
   * `Type.__eq__`: kind, then identifier, then container type, stopping at
   * the first difference. Comparing a Type with None or with a tuple reads
   * an attribute the other object lacks (AttributeError); None against a
   * tuple is simply unequal; two tuples compare key first, then value.
   */
  function TypeEq(a: Type, b: Type): Result<bool, PyError>
    decreases a, 1
  {
    if a.kind != b.kind then Ok(false)
    else if a.identifier != b.identifier then Ok(false)
    else ContainerEq(a.container, b.container)
  }

  function ContainerEq(x: Container, y: Container): Result<bool, PyError>
    decreases x, 0
  {
    match x
    case NoContainer => if y.Elem? then Err(AttributeError) else Ok(y.NoContainer?)
    case Elem(s) => if y.Elem? then TypeEq(s, y.elem) else Err(AttributeError)
    case Pair(k, v) =>
      if y.NoContainer? then Ok(false)
      else if y.Elem? then Err(AttributeError)
      else
        var keys :- TypeEq(k, y.key);
        if !keys then Ok(false) else TypeEq(v, y.value)
  }

  /** `a != b` on types: the negation of `__eq__`, with the same failures. */
  function TypeNe(a: Type, b: Type): Result<bool, PyError>
  {
    var e :- TypeEq(a, b);
    Ok(!e)
  }

  /** The types the parser builds: vectors carry one element type, maps a pair, the rest none. */
  predicate WellFormed(t: Type)
  {
    match t.kind
    case VECTOR => t.container.Elem? && WellFormed(t.container.elem)
    case MAP => t.container.Pair? && WellFormed(t.container.key) && WellFormed(t.container.value)
    case _ => t.container.NoContainer?
  }

  /** On well-formed types `__eq__` never fails and is structural equality. */
  lemma {:induction false} TypeEqIsEquality(a: Type, b: Type)
    requires WellFormed(a) && WellFormed(b)
    ensures TypeEq(a, b) == Ok(a == b)
    decreases a
  {
    if a.kind == b.kind && a.identifier == b.identifier {
      match a.container
      case NoContainer =>
      case Elem(s) =>
        TypeEqIsEquality(s, b.container.elem);
      case Pair(k, v) =>
        TypeEqIsEquality(k, b.container.key);
        if k == b.container.key {
          TypeEqIsEquality(v, b.container.value);
        }
    }
  }

  /** Every type equals itself, whatever its shape. */
  lemma {:induction false} TypeEqReflexive(t: Type)
    ensures TypeEq(t, t) == Ok(true)
    decreases t
  {
    match t.container
    case NoContainer =>
    case Elem(s) => TypeEqReflexive(s);
    case Pair(k, v) => TypeEqReflexive(k); TypeEqReflexive(v);
  }

  /** `__eq__` is symmetric, failures included. */
  lemma {:induction false} TypeEqSymmetric(a: Type, b: Type)
    ensures TypeEq(a, b) == TypeEq(b, a)
    decreases a
  {
    if a.kind == b.kind && a.identifier == b.identifier {
      match a.container
      case NoContainer =>
      case Elem(s) =>
        if b.container.Elem? {
          TypeEqSymmetric(s, b.container.elem);
        }
      case Pair(k, v) =>
        if b.container.Pair? {
          TypeEqSymmetric(k, b.container.key);
          TypeEqSymmetric(v, b.container.value);
        }
    }
  }

  /** A vector type whose element type is missing fails to compare with a proper vector type. */
  lemma MissingElementTypeFails(t: Type)
    ensures TypeEq(Type(VECTOR, None, NoContainer), Type(VECTOR, None, Elem(t))) == Err(AttributeError)
  {
  }

  /**
   * The `ret_type` attribute a pass leaves on an expression: absent, set to
   * None, or set to a Type.
   */
  datatype Ret = Unset | NoneRet | Typed(t: Type)

  /**
   * The `function_id` and `offset` attributes code generation leaves on a
   * Function node, which the function-table pass reads back.
   */
  datatype FunctionAttrs = FunctionAttrs(functionId: int, offset: int)

  /** `Member(name, m_type, default_value=None)`; `typeId` is a `type_id` attribute, when one was set. */
  datatype Member = Member(name: string, mtype: Type, default: Option<Node>, typeId: Option<int>)

  /**
   * The node classes. `Other` stands for an object of any other class
   * reaching `_walk`. Two `Other` nodes compare equal here; Python's default
   * `__eq__` compares identity, so two distinct objects of such a class are
   * unequal there. `Index.baseType` is the `ret_type` attribute the type
   * checker leaves on the indexed expression, which code generation reads;
   * `__eq__` does not compare it.
   */
  datatype Node =
    | Structure(name: string, members: seq<Member>, memberFunctions: seq<Node>)
    | LetStatement(name: string, rhs: Node)
    | IfStatement(cond: Node, thenStatements: seq<Node>, elseStatements: seq<Node>)
    | WhileLoop(cond: Node, loopBody: seq<Node>)
    | ExprStatement(expr: Node)
    | BinaryOp(lhs: Node, rhs: Node, operator: Lexing.Token<CompilerTokens.TokenType>)
    | Function(name: string, args: seq<(string, Type)>, statements: seq<Node>, returnType: Option<Type>)
    | ReturnStatement(value: Option<Node>)
    | Number(num: int)
    | String(text: string)
    | Vector(elements: seq<Node>, containerType: Type)
    | Map(entries: seq<(Node, Node)>, containerTypes: (Type, Type))
    | VariableRef(ref: string)
    | FunctionCall(callee: string, callArgs: seq<Node>)
    | Constructor(structName: string, params: seq<Node>)
    | MemberAccess(target: Node, memberName: string)
    | Index(base: Node, index: Node, baseType: Ret)
    | Other

  /** Which class a node is, as `isinstance` sees it. */
  predicate SameClass(a: Node, b: Node)
  {
    match a
    case Structure(_, _, _) => b.Structure?
    case LetStatement(_, _) => b.LetStatement?
    case IfStatement(_, _, _) => b.IfStatement?
    case WhileLoop(_, _) => b.WhileLoop?
    case ExprStatement(_) => b.ExprStatement?
    case BinaryOp(_, _, _) => b.BinaryOp?
    case Function(_, _, _, _) => b.Function?
    case ReturnStatement(_) => b.ReturnStatement?
    case Number(_) => b.Number?
    case String(_) => b.String?
    case Vector(_, _) => b.Vector?
    case Map(_, _) => b.Map?
    case VariableRef(_) => b.VariableRef?
    case FunctionCall(_, _) => b.FunctionCall?
    case Constructor(_, _) => b.Constructor?
    case MemberAccess(_, _) => b.MemberAccess?
    case Index(_, _, _) => b.Index?
    case Other => b.Other?
  }

  /**
   * The node `__eq__` methods: False for a node of another class, otherwise
   * the fields in declaration order with Python's `and`, lists compared by
   * length and then element by element. Function ignores its return type.
   * Objects of other classes compare by identity, here as values.
   */
  function NodeEq(a: Node, b: Node): Result<bool, PyError>
    decreases a, 2
  {
    if !SameClass(a, b) then Ok(false)
    else match a
      case Structure(n, ms, fs) =>
        if n != b.name then Ok(false)
        else
          var m :- MembersEq(ms, b.members);
          if !m then Ok(false) else NodesEq(fs, b.memberFunctions)
      case LetStatement(n, r) =>
        if n != b.name then Ok(false) else NodeEq(r, b.rhs)
      case IfStatement(c, t, e) =>
        var x :- NodeEq(c, b.cond);
        if !x then Ok(false)
        else
          var y :- NodesEq(t, b.thenStatements);
          if !y then Ok(false) else NodesEq(e, b.elseStatements)
      case WhileLoop(c, body) =>
        var x :- NodeEq(c, b.cond);
        if !x then Ok(false) else NodesEq(body, b.loopBody)
      case ExprStatement(e) => NodeEq(e, b.expr)
      case BinaryOp(l, r, op) =>
        var x :- NodeEq(l, b.lhs);
        if !x then Ok(false)
        else
          var y :- NodeEq(r, b.rhs);
          Ok(y && op == b.operator)
      case Function(n, args, ss, _) =>
        if n != b.name then Ok(false)
        else
          var x :- ParamsEq(args, b.args);
          if !x then Ok(false) else NodesEq(ss, b.statements)
      case ReturnStatement(v) => OptNodeEq(v, b.value)
      case Number(v) => Ok(v == b.num)
      case String(v) => Ok(v == b.text)
      case Vector(es, t) =>
        var x :- NodesEq(es, b.elements);
        if !x then Ok(false) else TypeEq(t, b.containerType)
      case Map(_, ts) =>
        var x :- EntriesEq(a, b, 0);
        if !x then Ok(false)
        else
          var k :- TypeEq(ts.0, b.containerTypes.0);
          if !k then Ok(false) else TypeEq(ts.1, b.containerTypes.1)
      case VariableRef(n) => Ok(n == b.ref)
      case FunctionCall(n, args) =>
        if n != b.callee then Ok(false) else NodesEq(args, b.callArgs)
      case Constructor(n, ps) =>
        if n != b.structName then Ok(false) else NodesEq(ps, b.params)
      case MemberAccess(e, m) =>
        var x :- NodeEq(e, b.target);
        Ok(x && m == b.memberName)
      case Index(e, i, _) =>
        var x :- NodeEq(e, b.base);
        if !x then Ok(false) else NodeEq(i, b.index)
      case Other => Ok(true)
  }

  /** List equality: lengths first, then the first differing element decides. */
  function NodesEq(xs: seq<Node>, ys: seq<Node>): Result<bool, PyError>
    decreases xs, 1
  {
    if |xs| != |ys| then Ok(false)
    else if xs == [] then Ok(true)
    else
      var h :- NodeEq(xs[0], ys[0]);
      if !h then Ok(false) else NodesEq(xs[1..], ys[1..])
  }

  /** The (key, value) tuples of two maps from position i on. */
  function EntriesEq(a: Node, b: Node, i: nat): Result<bool, PyError>
    requires a.Map? && b.Map?
    decreases a, 1, |a.entries| - i
  {
    if |a.entries| != |b.entries| then Ok(false)
    else if i >= |a.entries| then Ok(true)
    else
      var k :- NodeEq(a.entries[i].0, b.entries[i].0);
      if !k then Ok(false)
      else
        var v :- NodeEq(a.entries[i].1, b.entries[i].1);
        if !v then Ok(false) else EntriesEq(a, b, i + 1)
  }

  /** `None == x` is True only for None; a node never equals None. */
  function OptNodeEq(x: Option<Node>, y: Option<Node>): Result<bool, PyError>
    decreases x, 1
  {
    match x
    case None => Ok(y.None?)
    case Some(n) => if y.None? then Ok(false) else NodeEq(n, y.value)
  }

  /** `Member.__eq__`: name, type, then default value. */
  function MemberEq(m: Member, o: Member): Result<bool, PyError>
    decreases m, 2
  {
    if m.name != o.name then Ok(false)
    else
      var t :- TypeEq(m.mtype, o.mtype);
      if !t then Ok(false) else OptNodeEq(m.default, o.default)
  }

  function MembersEq(xs: seq<Member>, ys: seq<Member>): Result<bool, PyError>
    decreases xs, 1
  {
    if |xs| != |ys| then Ok(false)
    else if xs == [] then Ok(true)
    else
      var h :- MemberEq(xs[0], ys[0]);
      if !h then Ok(false) else MembersEq(xs[1..], ys[1..])
  }

  /** The (name, Type) tuples of a function's parameter list. */
  function ParamsEq(xs: seq<(string, Type)>, ys: seq<(string, Type)>): Result<bool, PyError>
  {
    if |xs| != |ys| then Ok(false)
    else if xs == [] then Ok(true)
    else if xs[0].0 != ys[0].0 then Ok(false)
    else
      var h :- TypeEq(xs[0].1, ys[0].1);
      if !h then Ok(false) else ParamsEq(xs[1..], ys[1..])
  }

  /** A node of one class never equals a node of another. */
  lemma OtherClassUnequal(a: Node, b: Node)
    requires !SameClass(a, b)
    ensures NodeEq(a, b) == Ok(false)
  {
  }

  /** Every node equals itself: no comparison of a node with itself fails. */
  lemma {:induction false} NodeEqReflexive(a: Node)
    ensures NodeEq(a, a) == Ok(true)
    decreases a, 2
  {
    match a
    case Structure(n, ms, fs) => MembersEqReflexive(ms); NodesEqReflexive(fs);
    case LetStatement(n, r) => NodeEqReflexive(r);
    case IfStatement(c, t, e) => NodeEqReflexive(c); NodesEqReflexive(t); NodesEqReflexive(e);
    case WhileLoop(c, body) => NodeEqReflexive(c); NodesEqReflexive(body);
    case ExprStatement(e) => NodeEqReflexive(e);
    case Function(_, args, ss, _) => ParamsEqReflexive(args); NodesEqReflexive(ss);
    case ReturnStatement(v) => OptNodeEqReflexive(v);
    case _ => ExpressionEqReflexive(a);
  }

  /** The expression classes of NodeEqReflexive. */
  lemma {:induction false} ExpressionEqReflexive(a: Node)
    requires !(a.Structure? || a.LetStatement? || a.IfStatement? || a.WhileLoop? || a.ExprStatement?)
    requires !(a.Function? || a.ReturnStatement?)
    ensures NodeEq(a, a) == Ok(true)
    decreases a, 1
  {
    match a
    case BinaryOp(l, r, _) => NodeEqReflexive(l); NodeEqReflexive(r);
    case Number(_) =>
    case String(_) =>
    case Vector(es, t) => NodesEqReflexive(es); TypeEqReflexive(t);
    case Map(_, ts) => EntriesEqReflexive(a, 0); TypeEqReflexive(ts.0); TypeEqReflexive(ts.1);
    case VariableRef(_) =>
    case FunctionCall(_, args) => NodesEqReflexive(args);
    case Constructor(_, ps) => NodesEqReflexive(ps);
    case MemberAccess(e, _) => NodeEqReflexive(e);
    case Index(e, i, _) => NodeEqReflexive(e); NodeEqReflexive(i);
    case Other =>
  }

  lemma {:induction false} NodesEqReflexive(xs: seq<Node>)
    ensures NodesEq(xs, xs) == Ok(true)
    decreases xs, 1
  {
    if xs != [] {
      NodeEqReflexive(xs[0]);
      NodesEqReflexive(xs[1..]);
    }
  }

  lemma {:induction false} EntriesEqReflexive(a: Node, i: nat)
    requires a.Map?
    ensures EntriesEq(a, a, i) == Ok(true)
    decreases a, 1, |a.entries| - i
  {
    if i < |a.entries| {
      NodeEqReflexive(a.entries[i].0);
      NodeEqReflexive(a.entries[i].1);
      EntriesEqReflexive(a, i + 1);
    }
  }

  lemma {:induction false} OptNodeEqReflexive(x: Option<Node>)
    ensures OptNodeEq(x, x) == Ok(true)
    decreases x, 1
  {
    if x.Some? {
      NodeEqReflexive(x.value);
    }
  }

  lemma {:induction false} MembersEqReflexive(xs: seq<Member>)
    ensures MembersEq(xs, xs) == Ok(true)
    decreases xs, 1
  {
    if xs != [] {
      TypeEqReflexive(xs[0].mtype);
      OptNodeEqReflexive(xs[0].default);
      MembersEqReflexive(xs[1..]);
    }
  }

  lemma {:induction false} ParamsEqReflexive(xs: seq<(string, Type)>)
    ensures ParamsEq(xs, xs) == Ok(true)
  {
    if xs != [] {
      TypeEqReflexive(xs[0].1);
      ParamsEqReflexive(xs[1..]);
    }
  }

  /** Two functions that differ only in their return type are equal. */
  lemma FunctionEqIgnoresReturnType(f: Node, r: Option<Type>)
    requires f.Function?
    ensures NodeEq(f, f.(returnType := r)) == Ok(true)
  {
    ParamsEqReflexive(f.args);
    NodesEqReflexive(f.statements);
  }

  /** Members that differ only in having a default value are unequal. */
  lemma MemberEqSeesDefault(m: Member, d: Node)
    requires m.default.None?
    ensures MemberEq(m, m.(default := Some(d))) == Ok(false)
  {
    TypeEqReflexive(m.mtype);
  }

  /** An element of a rendered list: a tuple goes through `tuple_to_string`, anything else through `str`. */
  datatype Item<T> = Single(x: T) | Tuple(xs: seq<T>)

  /**
   * The string the loops of `list_to_string` and `tuple_to_string` build:
   * ", " goes before a part once the text is longer than the opening bracket.
   */
  function Joined(acc: string, parts: seq<string>): string
    decreases |parts|
  {
    if parts == [] then acc
    else Joined((if |acc| != 1 then acc + ", " else acc) + parts[0], parts[1..])
  }

  /** `sep.join(parts)`: the parts with `sep` between neighbours. */
  function Join(sep: string, parts: seq<string>): string
  {
    if parts == [] then "" else if |parts| == 1 then parts[0] else parts[0] + sep + Join(sep, parts[1..])
  }

  /**
   * `tuple_to_string(p)`: "(", the elements' `str` forms, ")". The loop
   * puts ", " before an element once the text has grown past "(".
   */
  method TupleToString<T>(p: seq<T>, show: T -> string) returns (s: string)
    ensures s == Joined("(", Shown(p, show)) + ")"
  {
    s := "(";
    var i := 0;
    while i < |p|
      invariant 0 <= i <= |p|
      invariant Joined(s, Shown(p[i..], show)) == Joined("(", Shown(p, show))
      invariant |s| >= 1
    {
      assert Shown(p[i..], show) == [show(p[i])] + Shown(p[i + 1..], show);
      if |s| != 1 {
        s := s + ", ";
      }
      s := s + show(p[i]);
      i := i + 1;
    }
    s := s + ")";
  }

  function Shown<T>(p: seq<T>, show: T -> string): (r: seq<string>)
    ensures |r| == |p| && forall i :: 0 <= i < |p| ==> r[i] == show(p[i])
  {
    if p == [] then [] else [show(p[0])] + Shown(p[1..], show)
  }

  function TupleString<T>(p: seq<T>, show: T -> string): string
  {
    Joined("(", Shown(p, show)) + ")"
  }

  function ItemString<T>(e: Item<T>, show: T -> string): string
  {
    match e
    case Single(x) => show(x)
    case Tuple(xs) => TupleString(xs, show)
  }

  function ItemsShown<T>(l: seq<Item<T>>, show: T -> string): (r: seq<string>)
    ensures |r| == |l| && forall i :: 0 <= i < |l| ==> r[i] == ItemString(l[i], show)
  {
    if l == [] then [] else [ItemString(l[0], show)] + ItemsShown(l[1..], show)
  }

  /** `list_to_string(l)`: "[", the elements rendered one by one, "]". */
  method ListToString<T>(l: seq<Item<T>>, show: T -> string) returns (s: string)
    ensures s == Joined("[", ItemsShown(l, show)) + "]"
  {
    s := "[";
    var i := 0;
    while i < |l|
      invariant 0 <= i <= |l|
      invariant Joined(s, ItemsShown(l[i..], show)) == Joined("[", ItemsShown(l, show))
      invariant |s| >= 1
    {
      assert ItemsShown(l[i..], show) == [ItemString(l[i], show)] + ItemsShown(l[i + 1..], show);
      if |s| != 1 {
        s := s + ", ";
      }
      var part;
      match l[i] {
        case Single(x) => part := show(x);
        case Tuple(xs) => part := TupleToString(xs, show);
      }
      s := s + part;
      i := i + 1;
    }
    s := s + "]";
  }

  /**
   * When no element renders empty, the loop's text is the bracket followed
   * by the parts joined with ", ".
   */
  lemma {:induction false} JoinedIsJoin(b: string, parts: seq<string>)
    requires |b| == 1
    requires forall i :: 0 <= i < |parts| ==> parts[i] != ""
    ensures Joined(b, parts) == b + Join(", ", parts)
  {
    if parts != [] {
      JoinedAfterFirst(b + parts[0], parts[1..]);
    }
  }

  lemma {:induction false} JoinedAfterFirst(acc: string, parts: seq<string>)
    requires |acc| > 1
    ensures Joined(acc, parts) == acc + (if parts == [] then "" else ", " + Join(", ", parts))
    decreases |parts|
  {
    if parts != [] {
      JoinedAfterFirst(acc + ", " + parts[0], parts[1..]);
      if |parts| == 1 {
        assert parts[1..] == [];
      }
    }
  }

  /** An element that renders empty swallows the separator after it. */
  lemma EmptyFirstElementDropsSeparator()
    ensures Joined("[", ["", "a"]) == "[a"
  {
  }

  /** What `_walk` sends a node to: one handler per class. */
  datatype Handler =
    | WalkStructure | WalkLet | WalkIf | WalkWhile | WalkBinaryOp | WalkFunction | WalkReturn
    | WalkNumber | WalkString | WalkVector | WalkMap | WalkIndex | WalkVariable | WalkConstructor
    | WalkFunctionCall | WalkMemberAccess

  /** The node under any number of ExprStatement wrappers. */
  function Unwrap(n: Node): (r: Node)
    ensures !r.ExprStatement?
  {
    if n.ExprStatement? then Unwrap(n.expr) else n
  }

  /**
   * `ASTWalker._walk`: an ExprStatement is walked through to its
   * expression; each class has its handler; anything else raises
   * RuntimeError.
   */
  function Dispatch(n: Node): (r: Result<(Handler, Node), PyError>)
    ensures r.Err? <==> Unwrap(n).Other?
    ensures r.Err? ==> r.error == RuntimeError
    ensures r.Ok? ==> r.value.1 == Unwrap(n) && HandledBy(r.value.1, r.value.0)
  {
    match n
    case Structure(_, _, _) => Ok((WalkStructure, n))
    case LetStatement(_, _) => Ok((WalkLet, n))
    case IfStatement(_, _, _) => Ok((WalkIf, n))
    case WhileLoop(_, _) => Ok((WalkWhile, n))
    case ExprStatement(e) => Dispatch(e)
    case BinaryOp(_, _, _) => Ok((WalkBinaryOp, n))
    case Function(_, _, _, _) => Ok((WalkFunction, n))
    case ReturnStatement(_) => Ok((WalkReturn, n))
    case Number(_) => Ok((WalkNumber, n))
    case String(_) => Ok((WalkString, n))
    case Vector(_, _) => Ok((WalkVector, n))
    case Map(_, _) => Ok((WalkMap, n))
    case Index(_, _, _) => Ok((WalkIndex, n))
    case VariableRef(_) => Ok((WalkVariable, n))
    case Constructor(_, _) => Ok((WalkConstructor, n))
    case FunctionCall(_, _) => Ok((WalkFunctionCall, n))
    case MemberAccess(_, _) => Ok((WalkMemberAccess, n))
    case Other => Err(RuntimeError)
  }

  /** The class each handler is declared for, by its `_walk_*` name. */
  predicate HandledBy(n: Node, h: Handler)
  {
    match h
    case WalkStructure => n.Structure?
    case WalkLet => n.LetStatement?
    case WalkIf => n.IfStatement?
    case WalkWhile => n.WhileLoop?
    case WalkBinaryOp => n.BinaryOp?
    case WalkFunction => n.Function?
    case WalkReturn => n.ReturnStatement?
    case WalkNumber => n.Number?
    case WalkString => n.String?
    case WalkVector => n.Vector?
    case WalkMap => n.Map?
    case WalkIndex => n.Index?
    case WalkVariable => n.VariableRef?
    case WalkConstructor => n.Constructor?
    case WalkFunctionCall => n.FunctionCall?
    case WalkMemberAccess => n.MemberAccess?
  }

  /** Each class has exactly one handler: two handlers never accept the same node. */
  lemma HandlersDisjoint(n: Node, h1: Handler, h2: Handler)
    requires HandledBy(n, h1) && HandledBy(n, h2)
    ensures h1 == h2
  {
  }

  /**
   * `walk_ast` with the base handlers, which do nothing: the walk visits
   * the top-level nodes in order and stops at the first one `_walk` rejects.
   */
  function WalkAst(ns: seq<Node>): Result<(), PyError>
  {
    if ns == [] then Ok(())
    else
      var _ :- Dispatch(ns[0]);
      WalkAst(ns[1..])
  }

  /** A bare walk succeeds exactly when every top-level node is of a walked class. */
  lemma {:induction false} WalkAstSucceeds(ns: seq<Node>)
    ensures WalkAst(ns).Ok? <==> forall i :: 0 <= i < |ns| ==> !Unwrap(ns[i]).Other?
  {
    if ns != [] {
      WalkAstSucceeds(ns[1..]);
      assert forall i :: 1 <= i < |ns| ==> ns[i] == ns[1..][i - 1];
    }
  }
}
