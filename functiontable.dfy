/**
 * The function-table pass (compiler/passes/function_table.py): one
 * FUNCTION_JMP header record per function, member functions of structures
 * included, carrying the id and body offset code generation gave it.
 */
module FunctionTable {
  import opened Wrappers
  import opened Opcodes
  import opened Ast
  import Emitter

  /**
   * `_walk` with this pass's handlers, given the attributes code generation
   * left on each function (by name): functions write a record, structures
   * walk their member functions, other walked classes do nothing.
   */
  function TableWalk(attrs: map<string, FunctionAttrs>, header: seq<Byte>, n: Node): Result<seq<Byte>, PyError>
    decreases n, 1
  {
    match n
    case ExprStatement(e) => TableWalk(attrs, header, e)
    case Structure(_, _, fs) => TableWalkAll(attrs, header, fs)
    case Function(name, _, _, _) =>
      if name !in attrs then Err(AssertionError)
      else Emitter.Appended(header, VmCode(FUNCTION_JMP), [attrs[name].functionId, attrs[name].offset])
    case Other => Err(RuntimeError)
    case _ => Ok(header)
  }

  /** The nodes in order, stopping at the first exception. */
  function TableWalkAll(attrs: map<string, FunctionAttrs>, header: seq<Byte>, ns: seq<Node>): Result<seq<Byte>, PyError>
    decreases ns, 0
  {
    if ns == [] then Ok(header)
    else
      var h1 :- TableWalk(attrs, header, ns[0]);
      TableWalkAll(attrs, h1, ns[1..])
  }

  /** The functions a walk reaches, in walk order: top-level ones and those inside structures. */
  function FunctionsOf(n: Node): (r: seq<Node>)
    ensures forall i :: 0 <= i < |r| ==> r[i].Function?
    decreases n, 1
  {
    match n
    case ExprStatement(e) => FunctionsOf(e)
    case Structure(_, _, fs) => FunctionsIn(fs)
    case Function(_, _, _, _) => [n]
    case _ => []
  }

  function FunctionsIn(ns: seq<Node>): (r: seq<Node>)
    ensures forall i :: 0 <= i < |r| ==> r[i].Function?
    decreases ns, 0
  {
    if ns == [] then [] else FunctionsOf(ns[0]) + FunctionsIn(ns[1..])
  }

  /** Every one of the functions fs carries attributes. */
  predicate Named(attrs: map<string, FunctionAttrs>, fs: seq<Node>)
  {
    forall i :: 0 <= i < |fs| ==> fs[i].Function? && fs[i].name in attrs
  }

  lemma NamedAppend(attrs: map<string, FunctionAttrs>, a: seq<Node>, b: seq<Node>)
    requires Named(attrs, a) && Named(attrs, b)
    ensures Named(attrs, a + b)
  {
    assert forall i :: 0 <= i < |a + b| ==> (a + b)[i] == if i < |a| then a[i] else b[i - |a|];
  }

  /** The FUNCTION_JMP records of the functions fs, from the attributes. */
  function JmpRecords(attrs: map<string, FunctionAttrs>, fs: seq<Node>): seq<int>
    requires Named(attrs, fs)
  {
    if fs == [] then []
    else [VmCode(FUNCTION_JMP), attrs[fs[0].name].functionId, attrs[fs[0].name].offset] + JmpRecords(attrs, fs[1..])
  }

  lemma {:induction false} JmpRecordsAppend(attrs: map<string, FunctionAttrs>, a: seq<Node>, b: seq<Node>)
    requires Named(attrs, a) && Named(attrs, b)
    ensures Named(attrs, a + b)
    ensures JmpRecords(attrs, a + b) == JmpRecords(attrs, a) + JmpRecords(attrs, b)
  {
    NamedAppend(attrs, a, b);
    if a == [] {
      assert a + b == b;
    } else {
      assert (a + b)[1..] == a[1..] + b;
      JmpRecordsAppend(attrs, a[1..], b);
      var r := [VmCode(FUNCTION_JMP), attrs[a[0].name].functionId, attrs[a[0].name].offset];
      assert JmpRecords(attrs, a + b) == r + JmpRecords(attrs, a[1..] + b);
    }
  }

  /**
   * A successful walk of one node appends exactly one record per function
   * it reaches, member functions included, in walk order; every such
   * function carried its attributes.
   */
  lemma {:induction false} TableWalkRecords(attrs: map<string, FunctionAttrs>, header: seq<Byte>, n: Node)
    requires TableWalk(attrs, header, n).Ok?
    ensures Named(attrs, FunctionsOf(n))
    ensures TableWalk(attrs, header, n).value == header + JmpRecords(attrs, FunctionsOf(n))
    decreases n, 1
  {
    match n
    case ExprStatement(e) => TableWalkRecords(attrs, header, e);
    case Structure(_, _, fs) => TableWalkAllRecords(attrs, header, fs);
    case Function(_, _, _, _) =>
    case _ =>
  }

  /** The same for a list of nodes: the records of all their functions, in order. */
  lemma {:induction false} TableWalkAllRecords(attrs: map<string, FunctionAttrs>, header: seq<Byte>, ns: seq<Node>)
    requires TableWalkAll(attrs, header, ns).Ok?
    ensures Named(attrs, FunctionsIn(ns))
    ensures TableWalkAll(attrs, header, ns).value == header + JmpRecords(attrs, FunctionsIn(ns))
    decreases ns, 0
  {
    if ns != [] {
      var h1 := TableWalk(attrs, header, ns[0]).value;
      TableWalkRecords(attrs, header, ns[0]);
      TableWalkAllRecords(attrs, h1, ns[1..]);
      var a := FunctionsOf(ns[0]);
      var b := FunctionsIn(ns[1..]);
      assert FunctionsIn(ns) == a + b;
      JmpRecordsAppend(attrs, a, b);
    }
  }

  /** A reached function without attributes stops the pass with a failed assertion. */
  lemma MissingAttributesFail(attrs: map<string, FunctionAttrs>, header: seq<Byte>, f: Node)
    requires f.Function? && f.name !in attrs
    ensures TableWalkAll(attrs, header, [Structure("S", [], [f])]) == Err(AssertionError)
  {
    assert [f][1..] == [];
    assert TableWalkAll(attrs, header, [f]) == Err(AssertionError);
    assert TableWalk(attrs, header, Structure("S", [], [f])) == Err(AssertionError);
  }

  /** The pass, appending to the header of the buffer. */
  class FunctionTable {
    const bc: Emitter.ByteCode
    const attrs: map<string, FunctionAttrs>

    constructor (bc: Emitter.ByteCode, attrs: map<string, FunctionAttrs>)
      requires bc.table == Emitter.CompilerTable
      ensures this.bc == bc && this.attrs == attrs
    {
      this.bc := bc;
      this.attrs := attrs;
    }

    /** `_walk`, with `_walk_function` and `_walk_structure`; the body region is never touched. */
    method Walk(n: Node) returns (err: Option<PyError>)
      requires bc.table == Emitter.CompilerTable
      modifies bc
      ensures bc.buf == old(bc.buf)
      ensures TableWalk(attrs, old(bc.header), n) == if err.None? then Ok(bc.header) else Err(err.value)
      decreases n, 1
    {
      match n {
        case ExprStatement(e) =>
          err := Walk(e);
        case Structure(_, _, fs) =>
          err := WalkAll(fs);
        case Function(name, _, _, _) =>
          if name !in attrs {
            return Some(AssertionError);
          }
          err := bc.WriteHeader(FUNCTION_JMP, [attrs[name].functionId, attrs[name].offset]);
          assert bc.Code(FUNCTION_JMP) == VmCode(FUNCTION_JMP);
        case Other =>
          err := Some(RuntimeError);
        case _ =>
          err := None;
      }
    }

    /** `walk_ast`, and the loop over a structure's member functions. */
    method WalkAll(ns: seq<Node>) returns (err: Option<PyError>)
      requires bc.table == Emitter.CompilerTable
      modifies bc
      ensures bc.buf == old(bc.buf)
      ensures TableWalkAll(attrs, old(bc.header), ns) == if err.None? then Ok(bc.header) else Err(err.value)
      decreases ns, 0
    {
      var i := 0;
      while i < |ns|
        invariant 0 <= i <= |ns|
        invariant bc.buf == old(bc.buf)
        invariant TableWalkAll(attrs, old(bc.header), ns) == TableWalkAll(attrs, bc.header, ns[i..])
      {
        assert ns[i..] == [ns[i]] + ns[i + 1..];
        err := Walk(ns[i]);
        if err.Some? {
          return;
        }
        i := i + 1;
      }
      err := None;
    }
  }
}
