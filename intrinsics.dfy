/**
 * The built-in functions of compiler/passes/intrinsics.py: the five names
 * and the registry that maps them to their rules. The rules themselves
 * walk their arguments, so they live with the passes that call them: the
 * type-check rules in TypeCheck, the code generation rules in CodeGen.
 */
module Intrinsics {
  import opened Wrappers
  import opened Opcodes

  datatype Intrinsic = Print | Push | Len | Pop | Insert

  /** The `INTRINSICS` list, in its order, with each entry's name. */
  const INTRINSICS: seq<(string, Intrinsic)> :=
    [("print", Print), ("push", Push), ("len", Len), ("pop", Pop), ("insert", Insert)]

  /** The opcode each code generation rule emits after its arguments. */
  function IntrinsicOp(i: Intrinsic): Op
  {
    match i
    case Print => PRINT
    case Push => VEC_PUSH
    case Len => VEC_LEN
    case Pop => VEC_POP
    case Insert => MAP_INSERT
  }

  /** How many arguments each type-check rule demands. */
  function Arity(i: Intrinsic): nat
  {
    match i
    case Print => 1
    case Push => 2
    case Len => 1
    case Pop => 1
    case Insert => 3
  }

  /** The registry's contents once `__init__` has registered the whole list. */
  function Registered(entries: seq<(string, Intrinsic)>): map<string, Intrinsic>
  {
    if entries == [] then map[] else Registered(entries[..|entries| - 1])[entries[|entries| - 1].0 := entries[|entries| - 1].1]
  }

  /** The registry the compiler uses: exactly the five names, each with its own rule. */
  lemma RegistryContents()
    ensures Registered(INTRINSICS).Keys == {"print", "push", "len", "pop", "insert"}
    ensures Registered(INTRINSICS)["print"] == Print && Registered(INTRINSICS)["push"] == Push
    ensures Registered(INTRINSICS)["len"] == Len && Registered(INTRINSICS)["pop"] == Pop
    ensures Registered(INTRINSICS)["insert"] == Insert
  {
    var e := INTRINSICS;
    assert e[..0] == [];
    assert Registered(e[..1]) == map["print" := Print] by { assert e[..1][..0] == e[..0]; }
    assert Registered(e[..2]) == map["print" := Print, "push" := Push] by { assert e[..2][..1] == e[..1]; }
    assert Registered(e[..3]) == map["print" := Print, "push" := Push, "len" := Len] by { assert e[..3][..2] == e[..2]; }
    assert Registered(e[..4]) == map["print" := Print, "push" := Push, "len" := Len, "pop" := Pop] by { assert e[..4][..3] == e[..3]; }
    assert Registered(e) == map["print" := Print, "push" := Push, "len" := Len, "pop" := Pop, "insert" := Insert]
      by { assert e[..4] == e[..|e| - 1]; }
  }

  /** Which intrinsic a name denotes, if any: the lookup the passes do. */
  function Lookup(name: string): (r: Option<Intrinsic>)
    ensures r.Some? <==> name in Registered(INTRINSICS)
    ensures r.Some? ==> r.value == Registered(INTRINSICS)[name]
  {
    RegistryContents();
    if name == "print" then Some(Print)
    else if name == "push" then Some(Push)
    else if name == "len" then Some(Len)
    else if name == "pop" then Some(Pop)
    else if name == "insert" then Some(Insert)
    else None
  }

  /** The `Intrinsics` object: the dict filled from the list at construction. */
  class Registry {
    var intrinsics: map<string, Intrinsic>

    ghost predicate Valid()
      reads this
    {
      intrinsics == Registered(INTRINSICS)
    }

    /** `__init__`: registers each entry of the list in turn. */
    constructor ()
      ensures Valid()
    {
      intrinsics := map[];
      new;
      var i := 0;
      while i < |INTRINSICS|
        invariant 0 <= i <= |INTRINSICS|
        invariant intrinsics == Registered(INTRINSICS[..i])
      {
        assert INTRINSICS[..i + 1][..i] == INTRINSICS[..i];
        intrinsics := intrinsics[INTRINSICS[i].0 := INTRINSICS[i].1];
        i := i + 1;
      }
      assert INTRINSICS[..i] == INTRINSICS;
    }

    /** `is_intrinsic`: true exactly for print, push, len, pop and insert. */
    method IsIntrinsic(name: string) returns (b: bool)
      requires Valid()
      ensures b <==> name in {"print", "push", "len", "pop", "insert"}
      ensures b <==> Lookup(name).Some?
    {
      RegistryContents();
      b := name in intrinsics;
    }

    /** The rule registered under a name; callers check `is_intrinsic` first, as `codegen` and `type_check` assert. */
    method Get(name: string) returns (r: Result<Intrinsic, PyError>)
      requires Valid()
      ensures r.Ok? <==> Lookup(name).Some?
      ensures r.Ok? ==> r.value == Lookup(name).value
      ensures r.Err? ==> r.error == AssertionError
    {
      if name in intrinsics {
        r := Ok(intrinsics[name]);
      } else {
        r := Err(AssertionError);
      }
    }
  }
}
