/**
 * The structure-definition pass (compiler/passes/struct_defs.py): every
 * top-level structure gets the next type id from 2 on, is registered in
 * the shared `structs` dict, and has a STRUCT_DEF header record written
 * with its members' type ids.
 */
module StructDefs {
  import opened Wrappers
  import opened Opcodes
  import opened Ast
  import Dicts
  import Emitter

  /**
   * What the `structs` dict holds for a structure: the node's members and
   * the `type_id` attribute this pass gives it.
   */
  datatype StructEntry = StructEntry(members: seq<Member>, typeId: int)

  /** `_get_type_id`: 0 for int, 1 for string, else the member's own `type_id` attribute. */
  function TypeIdOf(m: Member): Result<int, PyError>
  {
    if m.mtype.kind == TypeKind.INT then Ok(0)
    else if m.mtype.kind == TypeKind.STRING then Ok(1)
    else if m.typeId.Some? then Ok(m.typeId.value)
    else Err(RuntimeError)
  }

  /** The loop over the members, stopping at the first member without a type id. */
  function MemberTypeIds(ms: seq<Member>): Result<seq<int>, PyError>
  {
    if ms == [] then Ok([])
    else
      var t :- TypeIdOf(ms[0]);
      var rest :- MemberTypeIds(ms[1..]);
      Ok([t] + rest)
  }

  /** Which members `_get_type_id` accepts. */
  predicate HasTypeId(m: Member)
  {
    m.mtype.kind == TypeKind.INT || m.mtype.kind == TypeKind.STRING || m.typeId.Some?
  }

  /**
   * The member type ids: one per member in declaration order, 0 for int,
   * 1 for string, the member's own id otherwise; RuntimeError exactly when
   * some member has none.
   */
  lemma {:induction false} MemberTypeIdsSpec(ms: seq<Member>)
    ensures MemberTypeIds(ms).Ok? <==> forall i :: 0 <= i < |ms| ==> HasTypeId(ms[i])
    ensures MemberTypeIds(ms).Err? ==> MemberTypeIds(ms).error == RuntimeError
    ensures MemberTypeIds(ms).Ok? ==>
      var ids := MemberTypeIds(ms).value;
      |ids| == |ms| &&
      forall i :: 0 <= i < |ms| ==>
        ids[i] == (if ms[i].mtype.kind == TypeKind.INT then 0 else if ms[i].mtype.kind == TypeKind.STRING then 1 else ms[i].typeId.value)
  {
    if ms != [] {
      MemberTypeIdsSpec(ms[1..]);
      assert forall i :: 1 <= i < |ms| ==> ms[i] == ms[1..][i - 1];
    }
  }

  /** `r` with the ids gathered so far in front, as the loop accumulates them. */
  function After(done: seq<int>, r: Result<seq<int>, PyError>): Result<seq<int>, PyError>
  {
    if r.Ok? then Ok(done + r.value) else r
  }

  /** The pass's state: the `structs` dict, `current_type_id` and the header region. */
  datatype DefsState = DefsState(structs: seq<(string, StructEntry)>, nextId: int, header: seq<Byte>)

  /** `_walk_structure`. */
  function DefineStruct(s: DefsState, n: Node): Result<DefsState, PyError>
    requires n.Structure?
  {
    var types :- MemberTypeIds(n.members);
    var header :- Emitter.Appended(s.header, VmCode(STRUCT_DEF), [s.nextId, |types|] + types);
    Ok(DefsState(Dicts.Put(s.structs, n.name, StructEntry(n.members, s.nextId)), s.nextId + 1, header))
  }

  /** `_walk` with this pass's handlers: only structures do anything. */
  function DefsWalk(s: DefsState, n: Node): Result<DefsState, PyError>
  {
    var (h, m) :- Dispatch(n);
    if h.WalkStructure? then DefineStruct(s, m) else Ok(s)
  }

  /** `walk_ast`. */
  function DefsWalkAll(s: DefsState, ns: seq<Node>): Result<DefsState, PyError>
    decreases |ns|
  {
    if ns == [] then Ok(s)
    else
      var s1 :- DefsWalk(s, ns[0]);
      DefsWalkAll(s1, ns[1..])
  }

  /** The structures among the top-level nodes, in order. */
  function Structures(ns: seq<Node>): (r: seq<Node>)
    ensures forall i :: 0 <= i < |r| ==> r[i].Structure?
  {
    if ns == [] then []
    else (if Unwrap(ns[0]).Structure? then [Unwrap(ns[0])] else []) + Structures(ns[1..])
  }

  /** The STRUCT_DEF records of the structures among the top-level nodes, in order, numbered from id. */
  function Records(ns: seq<Node>, id: int): Result<seq<int>, PyError>
  {
    if ns == [] then Ok([])
    else if Unwrap(ns[0]).Structure? then
      var types :- MemberTypeIds(Unwrap(ns[0]).members);
      var rest :- Records(ns[1..], id + 1);
      Ok([VmCode(STRUCT_DEF), id, |types|] + types + rest)
    else Records(ns[1..], id)
  }

  /** One node's share of a walk: a structure's record, or nothing. */
  lemma DefsWalkStep(s: DefsState, n: Node)
    requires DefsWalk(s, n).Ok?
    ensures var s1 := DefsWalk(s, n).value;
      if Unwrap(n).Structure? then
        MemberTypeIds(Unwrap(n).members).Ok? &&
        var types := MemberTypeIds(Unwrap(n).members).value;
        s1.header == s.header + ([VmCode(STRUCT_DEF), s.nextId, |types|] + types) && s1.nextId == s.nextId + 1
      else s1.header == s.header && s1.nextId == s.nextId
  {
  }

  /**
   * A successful walk writes one STRUCT_DEF record per structure, in order,
   * with ids counting up from the starting `current_type_id`, and nothing
   * else; the id counter ends past the last one.
   */
  lemma {:induction false} WalkAllWritesRecords(s: DefsState, ns: seq<Node>)
    requires DefsWalkAll(s, ns).Ok?
    ensures var s' := DefsWalkAll(s, ns).value;
      Records(ns, s.nextId).Ok? &&
      s'.header == s.header + Records(ns, s.nextId).value &&
      s'.nextId == s.nextId + |Structures(ns)|
    decreases |ns|
  {
    if ns != [] {
      WalkAllCons(s, ns);
      var s1 := DefsWalk(s, ns[0]).value;
      DefsWalkStep(s, ns[0]);
      WalkAllWritesRecords(s1, ns[1..]);
      RecordsJoin(s, s1, DefsWalkAll(s1, ns[1..]).value, ns);
    }
  }

  /** The records of the first node, if it is a structure, followed by those of the rest. */
  lemma RecordsJoin(s: DefsState, s1: DefsState, last: DefsState, ns: seq<Node>)
    requires ns != []
    requires if Unwrap(ns[0]).Structure? then
        MemberTypeIds(Unwrap(ns[0]).members).Ok? &&
        var types := MemberTypeIds(Unwrap(ns[0]).members).value;
        s1.header == s.header + ([VmCode(STRUCT_DEF), s.nextId, |types|] + types) && s1.nextId == s.nextId + 1
      else s1.header == s.header && s1.nextId == s.nextId
    requires Records(ns[1..], s1.nextId).Ok?
    requires last.header == s1.header + Records(ns[1..], s1.nextId).value
    ensures Records(ns, s.nextId).Ok?
    ensures last.header == s.header + Records(ns, s.nextId).value
  {
    if Unwrap(ns[0]).Structure? {
      var types := MemberTypeIds(Unwrap(ns[0]).members).value;
      var record := [VmCode(STRUCT_DEF), s.nextId, |types|] + types;
      var rest := Records(ns[1..], s1.nextId).value;
      assert (s.header + record) + rest == s.header + (record + rest);
    }
  }

  /** A successful walk over nodes is a successful walk of the first, then of the rest. */
  lemma WalkAllCons(s: DefsState, ns: seq<Node>)
    requires ns != [] && DefsWalkAll(s, ns).Ok?
    ensures DefsWalk(s, ns[0]).Ok? && DefsWalkAll(s, ns) == DefsWalkAll(DefsWalk(s, ns[0]).value, ns[1..])
  {
  }

  /** Every registered structure has an id from 2 up to, not including, the counter. */
  predicate IdsInRange(s: DefsState)
  {
    forall i :: 0 <= i < |s.structs| ==> 2 <= s.structs[i].1.typeId < s.nextId
  }

  /** Ids 0 and 1 are never given out: they stay int and string. */
  lemma {:induction false} WalkAllKeepsIdsInRange(s: DefsState, ns: seq<Node>)
    requires IdsInRange(s) && 2 <= s.nextId
    requires DefsWalkAll(s, ns).Ok?
    ensures IdsInRange(DefsWalkAll(s, ns).value)
    ensures 2 <= DefsWalkAll(s, ns).value.nextId
    decreases |ns|
  {
    if ns != [] {
      var s1 := DefsWalk(s, ns[0]).value;
      if Unwrap(ns[0]).Structure? {
        var n := Unwrap(ns[0]);
        var e := StructEntry(n.members, s.nextId);
        var put := Dicts.Put(s.structs, n.name, e);
        assert s1.structs == put;
        forall i | 0 <= i < |put| ensures 2 <= put[i].1.typeId < s1.nextId {
          PutEntry(s.structs, n.name, e, i);
        }
      }
      WalkAllKeepsIdsInRange(s1, ns[1..]);
    }
  }

  /** An entry after `d[k] = v` is the new value or one that was there before. */
  lemma {:induction false} PutEntry<V>(d: seq<(string, V)>, k: string, v: V, i: nat)
    requires i < |Dicts.Put(d, k, v)|
    ensures Dicts.Put(d, k, v)[i].1 == v || (i < |d| && Dicts.Put(d, k, v)[i].1 == d[i].1)
  {
    if d != [] && d[0].0 != k && i > 0 {
      PutEntry(d[1..], k, v, i - 1);
    }
  }

  /** The pass itself, over the buffer's header and the shared `structs` dict. */
  class StructureDefinitions {
    const bc: Emitter.ByteCode
    var structs: seq<(string, StructEntry)>
    var currentTypeId: int

    ghost predicate Valid()
      reads this
    {
      bc.table == Emitter.CompilerTable
    }

    ghost function State(): DefsState
      reads this, bc
    {
      DefsState(structs, currentTypeId, bc.header)
    }

    /** `__init__`: integer and string occupy ids 0 and 1, so counting starts at 2. */
    constructor (bc: Emitter.ByteCode, structs: seq<(string, StructEntry)>)
      requires bc.table == Emitter.CompilerTable
      ensures Valid() && this.bc == bc && this.structs == structs && currentTypeId == 2
    {
      this.bc := bc;
      this.structs := structs;
      currentTypeId := 2;
    }

    /** `_walk_structure`; a raised exception comes back as `err`. */
    method WalkStructure(n: Node) returns (err: Option<PyError>)
      requires Valid() && n.Structure?
      modifies this, bc
      ensures Valid() && bc.buf == old(bc.buf)
      ensures DefineStruct(old(State()), n) == if err.None? then Ok(State()) else Err(err.value)
    {
      ghost var s := State();
      var id := currentTypeId;
      currentTypeId := currentTypeId + 1;
      structs := Dicts.Put(structs, n.name, StructEntry(n.members, id));
      var types: seq<int> := [];
      var i := 0;
      assert n.members[0..] == n.members;
      assert MemberTypeIds(n.members).Ok? ==> [] + MemberTypeIds(n.members).value == MemberTypeIds(n.members).value;
      while i < |n.members|
        invariant 0 <= i <= |n.members|
        invariant MemberTypeIds(n.members) == After(types, MemberTypeIds(n.members[i..]))
        invariant |types| == i
      {
        assert n.members[i..] == [n.members[i]] + n.members[i + 1..];
        var t := TypeIdOf(n.members[i]);
        if t.Err? {
          return Some(t.error);
        }
        ghost var rest := MemberTypeIds(n.members[i + 1..]);
        assert rest.Ok? ==> types + ([t.value] + rest.value) == (types + [t.value]) + rest.value;
        types := types + [t.value];
        i := i + 1;
      }
      assert n.members[i..] == [];
      assert types + [] == types;
      assert MemberTypeIds(n.members) == Ok(types);
      err := bc.WriteHeader(STRUCT_DEF, [id, |types|] + types);
      assert bc.Code(STRUCT_DEF) == VmCode(STRUCT_DEF);
    }

    /** `_walk`: structures are defined, other walked classes ignored, anything else refused. */
    method Walk(n: Node) returns (err: Option<PyError>)
      requires Valid()
      modifies this, bc
      ensures Valid() && bc.buf == old(bc.buf)
      ensures DefsWalk(old(State()), n) == if err.None? then Ok(State()) else Err(err.value)
    {
      var d := Dispatch(n);
      if d.Err? {
        return Some(d.error);
      }
      if d.value.0.WalkStructure? {
        err := WalkStructure(d.value.1);
      } else {
        err := None;
      }
    }

    /** `walk_ast`: the top-level nodes in order, stopping at the first exception. */
    method WalkAst(ns: seq<Node>) returns (err: Option<PyError>)
      requires Valid()
      modifies this, bc
      ensures Valid() && bc.buf == old(bc.buf)
      ensures DefsWalkAll(old(State()), ns) == if err.None? then Ok(State()) else Err(err.value)
    {
      var i := 0;
      while i < |ns|
        invariant 0 <= i <= |ns|
        invariant Valid() && bc.buf == old(bc.buf)
        invariant DefsWalkAll(old(State()), ns) == DefsWalkAll(State(), ns[i..])
      {
        assert ns[i..] == [ns[i]] + ns[i + 1..];
        err := Walk(ns[i]);
        if err.Some? {
          return;
        }
        i := i + 1;
      }
      err := None;
    }
  }
}
