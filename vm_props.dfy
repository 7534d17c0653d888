/**
 * What the interpreter's handlers add up to, proved about the functions of
 * VmSpec: how a header is read, where arguments land, the order in which
 * structs, vectors and maps take the values on the stack, what the
 * arithmetic and the conditional jump compute, how a call and its return
 * fit together, which opcodes have no case, and how `glacierVMRun` enters
 * function 0.
 */
module VmProps {
  import opened Wrappers
  import opened VmStatus
  import opened VmValue
  import opened VmByteCode
  import opened VmStack
  import opened VmTable
  import opened VmMap
  import opened VmSpec
  import Opcodes

  /** The state after `k` operand bytes are read. */
  function Skip(s: State, k: nat): State
  {
    s.(cur := s.cur.(offset := s.cur.offset + k))
  }

  /** The byte `k` places past the cursor. */
  function At(s: State, k: nat): Byte
    requires s.cur.offset + k < |s.cur.buf|
  {
    s.cur.buf[s.cur.offset + k]
  }

  // ---- Header ---------------------------------------------------------------

  /** A member type byte a struct definition may hold. */
  predicate MemberType(t: Byte)
  {
    t == TYPEID_INT || t == TYPEID_STRING
  }

  /**
   * The member types of a struct definition are accepted exactly when all
   * `n` bytes are there and each is INT or STRING; the cursor is then just
   * past them.
   */
  lemma {:induction false} MemberTypesSpec(s: State, n: nat)
    requires Good(s)
    ensures var o := s.cur.offset;
      (MemberTypes(s, n).0 == OK <==>
        o + n <= s.cur.len && forall k :: o <= k < o + n ==> MemberType(s.cur.buf[k])) &&
      (MemberTypes(s, n).0 == OK ==> MemberTypes(s, n).1 == Skip(s, n)) &&
      MemberTypes(s, n).1 == s.(cur := MemberTypes(s, n).1.cur)
    decreases n
  {
    if n > 0 && s.cur.offset < s.cur.len {
      MemberTypesSpec(Skip(s, 1), n - 1);
    }
  }

  /** A FUNCTION_JMP record that reads without error hands the header on to the state after it. */
  lemma HeaderGoesOn(s: State, t: State)
    requires Good(s) && s.cur.offset < s.cur.len
    requires At(s, 0) == Opcodes.VmCode(Opcodes.FUNCTION_JMP) && FunctionJmp(Skip(s, 1)) == (OK, t)
    ensures Header(s) == Header(t)
  {
    assert Opcodes.VmCode(Opcodes.FUNCTION_JMP) == 0x0d && Opcodes.VmCode(Opcodes.HEADER_END) == 0x0e;
    assert ReadB(s) == (OK, 0x0d, Skip(s, 1));
  }

  /** The operands of a FUNCTION_JMP record store an offset for a function id that had none. */
  lemma FunctionJmpRecords(s: State)
    requires Good(s) && s.cur.offset + 3 <= s.cur.len
    requires TableGet(s.functions, At(s, 1)).0 != OK
    ensures var t := Skip(s, 3).(functions := TableSet(s.functions, At(s, 1), At(s, 2)).1);
      Good(t) && FunctionJmp(Skip(s, 1)) == (OK, t) && TableGet(t.functions, At(s, 1)) == (OK, Some(At(s, 2) as int))
  {
    var id, off := At(s, 1), At(s, 2);
    var t := Skip(s, 3).(functions := TableSet(s.functions, id, off).1);
    assert Good(t) && TableSet(s.functions, id, off).0 == OK && TableGet(t.functions, id) == (OK, Some(off as int)) by {
      GetSpec(s.functions, id);
      VmTable.SetThenGet(s.functions, id, off);
      SetKeepsWellFormed(s.functions, id, off);
    }
    assert ReadB(Skip(s, 1)) == (OK, id, Skip(s, 2));
    assert ReadB(Skip(s, 2)) == (OK, off, Skip(s, 3));
  }

  /**
   * A FUNCTION_JMP record whose function id has no offset yet stores its
   * offset in the function table, and the header goes on after the record.
   */
  lemma HeaderRecordsFunction(s: State)
    requires Good(s) && s.cur.offset + 3 <= s.cur.len
    requires At(s, 0) == Opcodes.VmCode(Opcodes.FUNCTION_JMP)
    requires TableGet(s.functions, At(s, 1)).0 != OK
    ensures var t := Skip(s, 3).(functions := TableSet(s.functions, At(s, 1), At(s, 2)).1);
      Good(t) && Header(s) == Header(t) && TableGet(t.functions, At(s, 1)) == (OK, Some(At(s, 2) as int))
  {
    FunctionJmpRecords(s);
    HeaderGoesOn(s, Skip(s, 3).(functions := TableSet(s.functions, At(s, 1), At(s, 2)).1));
  }

  /** A second FUNCTION_JMP record for the same function id stops the header with ERROR. */
  lemma HeaderRejectsSecondOffset(s: State)
    requires Good(s) && s.cur.offset + 3 <= s.cur.len
    requires At(s, 0) == Opcodes.VmCode(Opcodes.FUNCTION_JMP)
    requires TableGet(s.functions, At(s, 1)).0 == OK
    ensures Header(s) == (ERROR, Skip(s, 3))
  {
  }

  /** A struct definition only reads bytes and fills the symbol table. */
  lemma StructDefOnlyFillsTable(s: State)
    requires Good(s)
    ensures var t := StructDef(s).1;
      t == s.(cur := t.cur, structs := t.structs)
  {
    if s.cur.offset + 2 <= s.cur.len {
      var t := TableSet(s.structs, At(s, 0), At(s, 1)).1;
      assert WellFormed(t) by {
        SetKeepsWellFormed(s.structs, At(s, 0), At(s, 1));
      }
      MemberTypesSpec(Skip(s, 2).(structs := t), At(s, 1));
    }
  }

  /** The header only reads bytes and fills the two tables: the stacks, the heap and the output are untouched. */
  lemma {:induction false} HeaderOnlyFillsTables(s: State)
    requires Good(s)
    ensures var h := Header(s).1;
      h == s.(cur := h.cur, functions := h.functions, structs := h.structs)
    decreases s.cur.len - s.cur.offset
  {
    if s.cur.offset < s.cur.len {
      var s1 := Skip(s, 1);
      if At(s, 0) == Opcodes.VmCode(Opcodes.FUNCTION_JMP) {
        var (st2, s2) := FunctionJmp(s1);
        if st2 == OK {
          HeaderOnlyFillsTables(s2);
        }
      } else if At(s, 0) == Opcodes.VmCode(Opcodes.STRUCT_DEF) {
        StructDefOnlyFillsTable(s1);
        var (st2, s2) := StructDef(s1);
        if st2 == OK {
          HeaderOnlyFillsTables(s2);
        }
      }
    }
  }

  /** HEADER_END ends the header just past it. */
  lemma HeaderEnds(s: State)
    requires Good(s) && s.cur.offset < s.cur.len && At(s, 0) == Opcodes.VmCode(Opcodes.HEADER_END)
    ensures Header(s) == (OK, Skip(s, 1))
  {
  }

  /** A record type other than FUNCTION_JMP, STRUCT_DEF and HEADER_END is INVALID_OP. */
  lemma HeaderRejectsUnknownRecord(s: State)
    requires Good(s) && s.cur.offset < s.cur.len
    requires At(s, 0) != Opcodes.VmCode(Opcodes.FUNCTION_JMP) && At(s, 0) != Opcodes.VmCode(Opcodes.STRUCT_DEF)
    requires At(s, 0) != Opcodes.VmCode(Opcodes.HEADER_END)
    ensures Header(s) == (INVALID_OP, Skip(s, 1))
  {
  }

  // ---- Arguments ------------------------------------------------------------

  /** The slots `bs` with the first |vs| of them bound to `vs`, in order. */
  function Bound(bs: seq<Binding>, vs: seq<Value>): (r: seq<Binding>)
    requires |vs| <= |bs|
    ensures |r| == |bs|
    ensures forall k :: 0 <= k < |vs| ==> r[k] == Some(vs[k])
    ensures forall k :: |vs| <= k < |bs| ==> r[k] == bs[k]
  {
    seq(|bs|, k requires 0 <= k < |bs| => if k < |vs| then Some(vs[k]) else bs[k])
  }

  /**
   * The machine once the top `n` values have been moved into the first `n`
   * slots of the current frame, the first pushed into slot 0.
   */
  function WithArgs(s: State, n: nat): (r: State)
    requires Good(s) && |s.frames| > 0 && n <= |s.stack| && n <= MAX_FRAME_BINDINGS
    ensures Good(r)
  {
    var top := s.frames[|s.frames| - 1];
    s.(stack := s.stack[..|s.stack| - n],
       frames := s.frames[|s.frames| - 1 := top.(bindings := Bound(top.bindings, s.stack[|s.stack| - n..]))])
  }

  /**
   * `glacierVMSetArgs` from turn `i` on: with a frame and enough values,
   * it succeeds and binds the top n - i values to the first n - i slots in
   * push order, so argument j of a call lands in slot j.
   */
  lemma {:induction false} SetArgsFill(s: State, n: nat, i: nat)
    requires Good(s) && i <= n <= MAX_FRAME_BINDINGS && |s.frames| > 0 && n - i <= |s.stack|
    ensures SetArgs(s, n, i) == (OK, WithArgs(s, n - i))
    decreases n - i
  {
    if i == n {
      var top := s.frames[|s.frames| - 1];
      var l := |s.stack|;
      assert s.stack[..l] == s.stack;
      assert Bound(top.bindings, s.stack[l..]) == top.bindings;
      assert s.frames[|s.frames| - 1 := top] == s.frames;
    } else {
      var s1 := PoppedInto(s, n - i - 1);
      SetArgsTurn(s, n, i);
      WithArgsShift(s, n - i);
      SetArgsFill(s1, n, i + 1);
    }
  }

  /** The machine after one turn of `glacierVMSetArgs`: the top value popped into slot k of the current frame. */
  function PoppedInto(s: State, k: nat): (r: State)
    requires Good(s) && |s.frames| > 0 && |s.stack| > 0 && k < MAX_FRAME_BINDINGS
  {
    var top := s.frames[|s.frames| - 1];
    s.(stack := s.stack[..|s.stack| - 1],
       frames := s.frames[|s.frames| - 1 := top.(bindings := top.bindings[k := Some(s.stack[|s.stack| - 1])])])
  }

  /** A turn of `glacierVMSetArgs` with a value on the stack and a frame succeeds, and the rest of the loop goes on from there. */
  lemma SetArgsTurn(s: State, n: nat, i: nat)
    requires Good(s) && i < n <= MAX_FRAME_BINDINGS && |s.frames| > 0 && n - i <= |s.stack|
    ensures SetArg(s, n - i - 1) == (OK, PoppedInto(s, n - i - 1))
    ensures SetArgs(s, n, i) == SetArgs(PoppedInto(s, n - i - 1), n, i + 1)
  {
  }

  /** Binding the top m values is popping the top one into slot m - 1, then binding the m - 1 below it. */
  lemma WithArgsShift(s: State, m: nat)
    requires Good(s) && 0 < m <= MAX_FRAME_BINDINGS && |s.frames| > 0 && m <= |s.stack|
    ensures Good(PoppedInto(s, m - 1)) && WithArgs(PoppedInto(s, m - 1), m - 1) == WithArgs(s, m)
  {
    var s1 := PoppedInto(s, m - 1);
    var top := s.frames[|s.frames| - 1];
    var top1 := s1.frames[|s1.frames| - 1];
    var l := |s.stack|;
    assert SetArg(s, m - 1) == (OK, s1);
    assert s1.stack[..l - 1 - (m - 1)] == s.stack[..l - m];
    assert s1.stack[l - 1 - (m - 1)..] + [s.stack[l - 1]] == s.stack[l - m..];
    assert Bound(top1.bindings, s1.stack[l - m..]) == Bound(top.bindings, s.stack[l - m..]);
  }

  /**
   * `glacierVMFunctionDef` on a FUNCTION_DEF record with `n` arguments on
   * the stack: the record is read, the arguments are bound, and the body
   * runs from the byte after the record. Any other opcode is ERROR.
   */
  lemma FunctionDefEntersBody(s: State, fuel: nat)
    requires Good(s) && s.cur.offset < s.cur.len
    ensures At(s, 0) != Opcodes.VmCode(Opcodes.FUNCTION_DEF) ==> FunctionDef(s, fuel) == (ERROR, Skip(s, 1))
    ensures At(s, 0) == Opcodes.VmCode(Opcodes.FUNCTION_DEF) && s.cur.offset + 3 <= s.cur.len &&
            |s.frames| > 0 && At(s, 2) as int <= |s.stack| ==>
              FunctionDef(s, fuel) == Body(WithArgs(Skip(s, 3), At(s, 2)), fuel)
  {
    if At(s, 0) == Opcodes.VmCode(Opcodes.FUNCTION_DEF) && s.cur.offset + 3 <= s.cur.len &&
      |s.frames| > 0 && At(s, 2) as int <= |s.stack| {
      SetArgsFill(Skip(s, 3), At(s, 2), 0);
    }
  }

  // ---- Arithmetic and jumps -----------------------------------------------

  /**
   * The arithmetic on uint64_t: sums and differences wrap around 2^64,
   * and a product that fits is exact.
   */
  lemma ApplyWraps(a: Word, b: Word)
    ensures Apply(AddOp, a, b) == Some(if a + b < WORD then a + b else a + b - WORD)
    ensures Apply(SubOp, a, b) == Some(if b <= a then a - b else a - b + WORD)
    ensures a * b < WORD ==> Apply(MulOp, a, b) == Some(a * b)
  {
    WrapOnce(a + b);
    WrapOnce(a - b);
    var p := a * b;
    if p < WORD {
      ProductNonNegative(a, b);
      WrapOnce(p);
    }
  }

  /** A product of two words is never negative. */
  lemma ProductNonNegative(a: nat, b: nat)
    ensures a * b >= 0
  {
  }

  /** A value less than one word away from the range wraps by at most one word. */
  lemma WrapOnce(x: int)
    requires -WORD < x < 2 * WORD
    ensures x % WORD == if x < 0 then x + WORD else if x < WORD then x else x - WORD
  {
  }

  /** Division is undefined exactly by zero; the comparisons give 1 or 0. */
  lemma ApplyCompares(a: Word, b: Word)
    ensures Apply(DivOp, a, b).None? <==> b == 0
    ensures Apply(EqOp, a, b) == Some(1) <==> a == b
    ensures Apply(LtOp, a, b) == Some(1) <==> a < b
    ensures Apply(EqOp, a, b).value <= 1 && Apply(LtOp, a, b).value <= 1
  {
  }

  /**
   * A binary operator takes the top value as its right operand and the one
   * below as its left: two ints are replaced by the result; a value whose
   * type id is not INT trips the assert; fewer than two values underflow.
   */
  lemma BinarySpec(s: State, op: Arith)
    requires Good(s)
    ensures |s.stack| < 2 ==> Binary(s, op).0 == STACK_OVERFLOW
    ensures |s.stack| >= 2 ==>
      var lhs := s.stack[|s.stack| - 2];
      var rhs := s.stack[|s.stack| - 1];
      var rest := s.stack[..|s.stack| - 2];
      (TypeId(lhs) != TYPEID_INT || TypeId(rhs) != TYPEID_INT ==> Binary(s, op) == (ASSERT_FAILED, s.(stack := rest))) &&
      (lhs.IntVal? && rhs.IntVal? && Apply(op, lhs.intValue, rhs.intValue).None? ==>
        Binary(s, op) == (UNDEFINED, s.(stack := rest))) &&
      (lhs.IntVal? && rhs.IntVal? && Apply(op, lhs.intValue, rhs.intValue).Some? ==>
        Binary(s, op) == (OK, s.(stack := rest + [IntVal(Apply(op, lhs.intValue, rhs.intValue).value)])))
  {
    if |s.stack| >= 2 {
      assert s.stack[..|s.stack| - 1][..|s.stack| - 2] == s.stack[..|s.stack| - 2];
    }
  }

  /**
   * JUMP_IF_FALSE on an int condition: 0 jumps to the operand offset (if
   * it is inside the buffer), 1 falls through, and anything else trips the
   * assert; the condition is popped in every case.
   */
  lemma JumpIfFalseSpec(s: State)
    requires Good(s) && s.cur.offset < s.cur.len && |s.stack| > 0 && s.stack[|s.stack| - 1].IntVal?
    ensures var c := s.stack[|s.stack| - 1].intValue;
      var off := At(s, 0) as int;
      var s1 := Skip(s, 1).(stack := s.stack[..|s.stack| - 1]);
      JumpIfFalse(s) ==
        if c == 0 && off < s.cur.len then (OK, s1.(cur := s.cur.(offset := off)))
        else if c == 0 then (OUT_OF_BUFFER, s1)
        else if c == 1 then (OK, s1)
        else (ASSERT_FAILED, s1)
  {
  }

  // ---- Variables --------------------------------------------------------------

  /**
   * SET_VAR then GET_VAR of the same id, with the frames SET_VAR left
   * behind: the value popped by the first is pushed by the second.
   */
  lemma SetVarThenGetVar(s: State, g: State)
    requires Good(s) && s.cur.offset < s.cur.len && |s.stack| > 0 && |s.frames| > 0
    requires Good(g) && g.frames == SetVar(s).1.frames
    requires g.cur.offset < g.cur.len && At(g, 0) == At(s, 0) && |g.stack| < MAX_STACK_SIZE
    ensures SetVar(s) == (OK, Skip(s, 1).(stack := s.stack[..|s.stack| - 1], frames := g.frames))
    ensures GetVar(g) == (OK, Skip(g, 1).(stack := g.stack + [s.stack[|s.stack| - 1]]))
  {
    VmStack.SetThenGet(Skip(s, 1).frames, At(s, 0), Some(s.stack[|s.stack| - 1]), At(s, 0), UNBOUND);
  }

  /** In a frame just pushed, GET_VAR of any id is ERROR: nothing is bound yet. */
  lemma FreshFrameIsUnbound(g: State, ret: int)
    requires Good(g) && g.cur.offset < g.cur.len && |g.frames| > 0
    requires g.frames[|g.frames| - 1] == FreshFrame(ret, UNBOUND)
    ensures GetVar(g) == (ERROR, Skip(g, 1))
  {
  }

  // ---- Structs ------------------------------------------------------------------

  /**
   * STRUCT on a declared struct id with its members on the stack: the
   * heap gets a new entry holding the members in the order they were
   * pushed (the first-pushed is member 0), and a value referring to it
   * replaces them on the stack.
   */
  lemma StructKeepsPushOrder(s: State, base: seq<Value>, ms: seq<Value>)
    requires Good(s) && s.cur.offset < s.cur.len && s.stack == base + ms && |base| < MAX_STACK_SIZE
    requires TableGet(s.structs, At(s, 0)) == (OK, Some(|ms|))
    ensures StructAlloc(s) ==
      (OK, Skip(s, 1).(stack := base + [StructVal(At(s, 0), |s.heap|)], heap := s.heap + [ms]))
  {
    assert PopN(s.stack, |ms|) == (OK, Reverse(ms), base) by {
      PopNSpec(s.stack, |ms|);
      assert s.stack[|s.stack| - |ms|..] == ms;
      assert s.stack[..|s.stack| - |ms|] == base;
    }
    ReverseReverse(ms);
  }

  /**
   * SET_STRUCT_MEMBER then GET_STRUCT_MEMBER of the same member: the read,
   * through any copy of the struct value, gets the value written. A struct
   * is shared, not copied, when its value is.
   */
  lemma SetMemberThenGetMember(s: State, g: State)
    requires Good(s) && s.cur.offset < s.cur.len && |s.stack| >= 2
    requires var sv := s.stack[|s.stack| - 1];
      sv.StructVal? && sv.structId > 1 && sv.ref < |s.heap| && At(s, 0) as int < |s.heap[sv.ref]|
    requires Good(g) && g.heap == SetMember(s).1.heap && g.cur.offset < g.cur.len && At(g, 0) == At(s, 0)
    requires |g.stack| > 0 && g.stack[|g.stack| - 1] == s.stack[|s.stack| - 1]
    ensures var sv := s.stack[|s.stack| - 1];
      SetMember(s) == (OK, Skip(s, 1).(stack := s.stack[..|s.stack| - 2],
        heap := s.heap[sv.ref := s.heap[sv.ref][At(s, 0) := s.stack[|s.stack| - 2]]]))
    ensures GetMember(g) == (OK, Skip(g, 1).(stack := g.stack[..|g.stack| - 1] + [s.stack[|s.stack| - 2]]))
  {
    assert s.stack[..|s.stack| - 1][..|s.stack| - 2] == s.stack[..|s.stack| - 2];
  }

  /** GET_STRUCT_MEMBER on a value whose type id is INT or STRING trips the assert. */
  lemma GetMemberRejectsScalars(s: State)
    requires Good(s) && s.cur.offset < s.cur.len && |s.stack| > 0
    requires TypeId(s.stack[|s.stack| - 1]) == TYPEID_INT || TypeId(s.stack[|s.stack| - 1]) == TYPEID_STRING
    ensures GetMember(s) == (ASSERT_FAILED, Skip(s, 1).(stack := s.stack[..|s.stack| - 1]))
  {
  }

  // ---- Vectors and maps -----------------------------------------------------------

  /**
   * VEC with `n` values on the stack: the vector holds them in pop order,
   * the last pushed first.
   */
  lemma VecReversesPops(s: State, base: seq<Value>, es: seq<Value>)
    requires Good(s) && s.cur.offset < s.cur.len && s.stack == base + es && |base| < MAX_STACK_SIZE
    requires At(s, 0) as int == |es|
    ensures VectorOp(s) == (OK, Skip(s, 1).(stack := base + [VecVal(Reverse(es))]))
  {
    assert PopN(s.stack, |es|) == (OK, Reverse(es), base) by {
      PopNSpec(s.stack, |es|);
      assert s.stack[|s.stack| - |es|..] == es;
      assert s.stack[..|s.stack| - |es|] == base;
    }
  }

  /** VEC_ACCESS reads element `i` of a vector and fails past its end. */
  lemma VectorAccessSpec(s: State, base: seq<Value>, es: seq<Value>, i: Word)
    requires Good(s) && s.stack == base + [VecVal(es), IntVal(i)]
    ensures i < |es| ==> VectorAccess(s) == (OK, s.(stack := base + [es[i]]))
    ensures i >= |es| ==> VectorAccess(s) == (OUT_OF_BUFFER, s.(stack := base))
  {
    assert (base + [VecVal(es), IntVal(i)])[..|base| + 1] == base + [VecVal(es)];
    assert (base + [VecVal(es)])[..|base|] == base;
  }

  /** Key-value pairs as a map literal pushes them: each key, then its value. */
  function Flat(ps: seq<(Value, Value)>): (r: seq<Value>)
    ensures |r| == 2 * |ps|
  {
    if ps == [] then [] else Flat(ps[..|ps| - 1]) + [ps[|ps| - 1].0, ps[|ps| - 1].1]
  }

  /**
   * The `glacierVMMap` loop over pairs pushed key first: each pops the
   * value, then the key, and the pairs are chained in pop order, the last
   * pushed first. At most four fit before the chain is deep enough for a
   * set to rebuild.
   */
  lemma {:induction false} MapPairsChain(base: seq<Value>, ps: seq<(Value, Value)>, m: MapState)
    requires |m.chain| + |ps| <= MAP_MAX_DEPTH + 1
    ensures MapPairs(base + Flat(ps), m, |ps|) == (OK, m.(chain := m.chain + Reverse(ps)), base)
    decreases |ps|
  {
    if ps == [] {
      assert base + [] == base;
      assert m.chain + [] == m.chain;
    } else {
      var init, k, v := ps[..|ps| - 1], ps[|ps| - 1].0, ps[|ps| - 1].1;
      var m1 := m.(chain := m.chain + [(k, v)]);
      FlatSnoc(base, ps);
      MapPairsTurn(base + Flat(init), k, v, m, |ps|);
      MapPairsChain(base, init, m1);
      ReverseLast(ps);
      assert (m.chain + [(k, v)]) + Reverse(init) == m.chain + ([(k, v)] + Reverse(init));
    }
  }

  /** The pairs pushed before the last one, then its key and value. */
  lemma FlatSnoc(base: seq<Value>, ps: seq<(Value, Value)>)
    requires ps != []
    ensures base + Flat(ps) == (base + Flat(ps[..|ps| - 1])) + [ps[|ps| - 1].0, ps[|ps| - 1].1]
  {
    var init, last := Flat(ps[..|ps| - 1]), [ps[|ps| - 1].0, ps[|ps| - 1].1];
    assert Flat(ps) == init + last;
    assert base + (init + last) == (base + init) + last;
  }

  /** One turn of the map loop: the value and key on top go to the end of a short chain. */
  lemma MapPairsTurn(rest: seq<Value>, k: Value, v: Value, m: MapState, n: nat)
    requires n > 0 && |m.chain| <= MAP_MAX_DEPTH
    ensures MapPairs(rest + [k, v], m, n) == MapPairs(rest, m.(chain := m.chain + [(k, v)]), n - 1)
  {
    var stack := rest + [k, v];
    assert stack[..|stack| - 1][..|stack| - 2] == rest;
    SetAppends(m, k, v);
  }

  /**
   * MAP with up to four pairs on the stack: a new map whose chain holds
   * them last pair first replaces them on the stack.
   */
  lemma MapLiteral(s: State, base: seq<Value>, ps: seq<(Value, Value)>)
    requires Good(s) && s.cur.offset < s.cur.len && s.stack == base + Flat(ps) && |base| < MAX_STACK_SIZE
    requires At(s, 0) as int == |ps| <= MAP_MAX_DEPTH + 1
    ensures MapOp(s) == (OK, Skip(s, 1).(stack := base + [MapVal(MapState(MAP_INIT_BUCKET_LEN, Reverse(ps)))]))
  {
    MapPairsChain(base, ps, EMPTY_MAP);
    assert EMPTY_MAP.(chain := EMPTY_MAP.chain + Reverse(ps)) == MapState(MAP_INIT_BUCKET_LEN, Reverse(ps));
  }

  /** In a map literal, the last pair for a key is the one a lookup finds. */
  lemma LastPairWins(ps: seq<(Value, Value)>, key: Value)
    requires |ps| > 0 && KeyEq(ps[|ps| - 1].0, key) == Ok(true)
    ensures MapGot(Reverse(ps), key) == (OK, Some(ps[|ps| - 1].1))
  {
  }

  /**
   * MAP_ACCESS with a map under the key: a key that is not an int or a
   * string trips the assert with the map left on the stack; otherwise both
   * are popped and the value the lookup finds replaces them, or the
   * lookup's status (KEY_MISS on a miss) is returned with both gone.
   */
  lemma MapAccessSpec(s: State, base: seq<Value>, m: MapState, k: Value)
    requires Good(s) && s.stack == base + [MapVal(m), k]
    ensures TypeId(k) != TYPEID_INT && TypeId(k) != TYPEID_STRING ==>
      MapAccess(s) == (ASSERT_FAILED, s.(stack := base + [MapVal(m)]))
    ensures (TypeId(k) == TYPEID_INT || TypeId(k) == TYPEID_STRING) && MapGot(m.chain, k).0 == OK ==>
      MapAccess(s) == (OK, s.(stack := base + [MapGot(m.chain, k).1.value]))
    ensures (TypeId(k) == TYPEID_INT || TypeId(k) == TYPEID_STRING) && MapGot(m.chain, k).0 != OK ==>
      MapAccess(s) == (MapGot(m.chain, k).0, s.(stack := base))
  {
    assert (base + [MapVal(m), k])[..|base| + 1] == base + [MapVal(m)];
    assert (base + [MapVal(m)])[..|base|] == base;
  }

  /**
   * A map literal read back: with the map MAP built from the pairs and a
   * key equal to the last pair's on the stack, MAP_ACCESS pushes that
   * pair's value in place of both.
   */
  lemma LiteralThenAccess(s: State, base: seq<Value>, ps: seq<(Value, Value)>, k: Value)
    requires Good(s) && s.stack == base + [MapVal(MapState(MAP_INIT_BUCKET_LEN, Reverse(ps))), k]
    requires |ps| > 0 && KeyEq(ps[|ps| - 1].0, k) == Ok(true)
    ensures MapAccess(s) == (OK, s.(stack := base + [ps[|ps| - 1].1]))
  {
    LastPairWins(ps, k);
    MapAccessSpec(s, base, MapState(MAP_INIT_BUCKET_LEN, Reverse(ps)), k);
  }

  // ---- Calls and returns -----------------------------------------------------------

  /**
   * CALL_FUNC on a function with an offset: a frame that returns to the
   * byte after the operand is pushed, and the cursor moves to the callee.
   */
  lemma CallPushesReturnFrame(s: State)
    requires Good(s) && s.cur.offset < s.cur.len && |s.frames| < MAX_STACK_SIZE
    requires TableGet(s.functions, At(s, 0)).0 == OK
    requires TableGet(s.functions, At(s, 0)).1.value < s.cur.len
    ensures CallSetup(s) == (OK, s.(cur := s.cur.(offset := TableGet(s.functions, At(s, 0)).1.value),
      frames := s.frames + [FreshFrame(s.cur.offset + 1, UNBOUND)]))
  {
    GetSpec(s.functions, At(s, 0));
  }

  /**
   * RETURN with the callee's frame on top of the caller's: the frame is
   * popped and execution resumes at its return offset. RETURN_VAL does the
   * same once the value on top is an int or a string, and leaves it there.
   */
  lemma ReturnResumesCaller(t: State, below: seq<Frame<Binding>>, ret: nat)
    requires Good(t) && |below| > 0 && |t.frames| == |below| + 1 && t.frames[..|below|] == below
    requires t.frames[|below|].bcOffset == ret < t.cur.len
    ensures ReturnOp(t, false) == (OK, t.(cur := t.cur.(offset := ret), frames := below))
    ensures ReturnVal(t) == OK ==> ReturnOp(t, true) == ReturnOp(t, false)
    ensures ReturnVal(t) != OK ==> ReturnOp(t, true) == (ReturnVal(t), t)
  {
  }

  /**
   * A return from the last frame ends the run: OK when its return offset
   * is the -1 `glacierVMRun` gave it, ASSERT_FAILED otherwise.
   */
  lemma ReturnFromLastFrame(t: State)
    requires Good(t) && |t.frames| == 1
    ensures ReturnOp(t, false) == (if t.frames[0].bcOffset == -1 then OK else ASSERT_FAILED, t.(frames := []))
  {
  }

  /**
   * A call and the return that ends it: whatever the callee does to its
   * own frame and the stack, a RETURN with that frame on top comes back to
   * the byte after CALL_FUNC's operand with the caller's frames.
   */
  lemma CallThenReturn(s: State, t: State)
    requires Good(s) && s.cur.offset + 1 < s.cur.len && 0 < |s.frames| < MAX_STACK_SIZE
    requires TableGet(s.functions, At(s, 0)).0 == OK
    requires TableGet(s.functions, At(s, 0)).1.value < s.cur.len
    requires Good(t) && t.cur.buf == s.cur.buf && t.cur.len == s.cur.len
    requires |t.frames| == |s.frames| + 1 && t.frames[..|s.frames|] == s.frames
    requires t.frames[|s.frames|].bcOffset == CallSetup(s).1.frames[|s.frames|].bcOffset
    ensures ReturnOp(t, false) == (OK, t.(cur := t.cur.(offset := s.cur.offset + 1), frames := s.frames))
  {
    CallPushesReturnFrame(s);
    ReturnResumesCaller(t, s.frames, s.cur.offset + 1);
  }

  // ---- Dispatch -------------------------------------------------------------------

  /** The opcodes the dispatch `switch` has no case for. */
  predicate Unhandled(op: Opcodes.Op)
  {
    op in {Opcodes.STRUCT_DEF, Opcodes.FUNCTION_DEF, Opcodes.FUNCTION_JMP, Opcodes.HEADER_END,
           Opcodes.JUMP_IF_TRUE, Opcodes.VEC_PUSH, Opcodes.VEC_LEN, Opcodes.VEC_POP, Opcodes.MAP_INSERT}
  }

  /**
   * A byte that is no opcode, or an opcode without a case (the header
   * records, JUMP_IF_TRUE, and VEC_PUSH, VEC_LEN, VEC_POP and MAP_INSERT,
   * which the compiler emits for the intrinsics `push`, `len`, `pop` and
   * `insert`), is INVALID_OP and changes nothing; every other opcode has
   * a handler.
   */
  lemma UnhandledIsInvalid(s: State, b: Byte, fuel: nat)
    requires Good(s)
    ensures Opcodes.VmDecode(b).None? || Unhandled(Opcodes.VmDecode(b).value) ==> Dispatch(s, b, fuel) == (INVALID_OP, false, s)
    ensures Opcodes.VmDecode(b).Some? && !Unhandled(Opcodes.VmDecode(b).value) ==>
      var op := Opcodes.VmDecode(b).value;
      Simple(op) || op == Opcodes.RETURN || op == Opcodes.RETURN_VAL || op == Opcodes.CALL_FUNC
  {
  }

  /** The dispatch loop at the end of the bytecode, with fuel left, stops with OUT_OF_BUFFER. */
  lemma BodyOffTheEnd(s: State, fuel: nat)
    requires Good(s) && fuel > 0 && s.cur.offset >= s.cur.len
    ensures Body(s, fuel) == (OUT_OF_BUFFER, s)
  {
  }

  // ---- Run ----------------------------------------------------------------------------

  /**
   * `glacierVMRun` after a header that leaves no frame and ends inside the
   * buffer, with an offset for function 0 inside the body: the bytes after
   * HEADER_END become the whole buffer, so offsets count from the first
   * body byte, and function 0 runs from its offset in a frame that returns
   * to -1.
   */
  lemma LaunchEntersFunctionZero(h: State, fuel: nat)
    requires Good(h) && h.frames == [] && h.cur.offset < h.cur.len
    requires TableGet(h.functions, 0).0 == OK && TableGet(h.functions, 0).1.value < h.cur.len - h.cur.offset
    ensures var c := Cursor(h.cur.buf[h.cur.offset..], h.cur.len - h.cur.offset, TableGet(h.functions, 0).1.value);
      Launch(h, fuel) == FunctionDef(h.(cur := c, frames := [FreshFrame(-1, UNBOUND)]), fuel)
  {
    var off := TableGet(h.functions, 0).1.value;
    assert off >= 0 by {
      GetSpec(h.functions, 0);
    }
    var c0 := Cursor(h.cur.buf[h.cur.offset..], h.cur.len - h.cur.offset, 0);
    assert Trimmed(h.cur) == (OK, c0);
    var c := c0.(offset := off);
    assert JumpTo(h.(cur := c0), off) == (OK, h.(cur := c));
    var f := FreshFrame(-1, UNBOUND);
    assert h.frames + [f] == [f];
    assert CsPushed(h.frames, -1, UNBOUND) == (OK, [f]);
  }

  /** `glacierVMRun` on a machine with no frames: the header, then function 0 as above. */
  lemma RunEntersFunctionZero(s: State, h: State, fuel: nat)
    requires Good(s) && s.frames == [] && Header(s) == (OK, h)
    requires h.cur.offset < h.cur.len && TableGet(h.functions, 0).0 == OK
    requires TableGet(h.functions, 0).1.value < h.cur.len - h.cur.offset
    ensures var c := Cursor(h.cur.buf[h.cur.offset..], h.cur.len - h.cur.offset, TableGet(h.functions, 0).1.value);
      Run(s, fuel) == FunctionDef(h.(cur := c, frames := [FreshFrame(-1, UNBOUND)]), fuel)
  {
    assert h.frames == [] by {
      HeaderOnlyFillsTables(s);
    }
    LaunchEntersFunctionZero(h, fuel);
  }

  /**
   * A whole program: a header giving function 0 offset 0, then function 0
   * with no arguments, whose body is INT a, INT b, ADD, PRINT, RETURN.
   */
  function Example(a: Byte, b: Byte): (r: seq<Byte>)
    ensures |r| == 14
  {
    [0x0d, 0x00, 0x00, 0x0e, 0x01, 0x00, 0x00, 0x08, a, 0x08, b, 0x07, 0x0f, 0x05]
  }

  /** The bytes of function 0 in the example: FUNCTION_DEF 0 0, INT a, INT b, ADD, PRINT, RETURN. */
  predicate ExampleCode(code: seq<Byte>, a: Byte, b: Byte)
  {
    |code| == 10 && code[0] == 0x01 && code[1] == 0x00 && code[2] == 0x00 &&
    code[3] == 0x08 && code[4] == a && code[5] == 0x08 && code[6] == b &&
    code[7] == 0x07 && code[8] == 0x0f && code[9] == 0x05
  }

  /** The example's header: FUNCTION_JMP 0 0, then HEADER_END, in front of 10 bytes of code. */
  predicate ExampleHeaderBytes(p: seq<Byte>)
  {
    |p| == 14 && p[0] == 0x0d && p[1] == 0x00 && p[2] == 0x00 && p[3] == 0x0e
  }

  /** The example program splits into that header and function 0's code. */
  lemma ExampleSplits(a: Byte, b: Byte)
    ensures ExampleHeaderBytes(Example(a, b)) && ExampleCode(Example(a, b)[4..], a, b)
  {
  }

  /** The example machine inside function 0's code, at a body-relative offset. */
  function ExampleAt(code: seq<Byte>, offset: nat, stack: seq<Value>, frames: seq<Frame<Binding>>, out: seq<Value>): (r: State)
    requires |code| == 10
    ensures offset <= 10 && |stack| <= 2 && |frames| <= 1 && FramesSound(frames) ==> Good(r)
    ensures r.cur.offset < r.cur.len <==> offset < 10
  {
    State(Cursor(code, 10, offset), stack, frames, [0, UNSET], [UNSET, UNSET], [], out)
  }

  /** In a fresh table, slot 0 is empty and takes offset 0. */
  lemma ExampleTable(fs: seq<int>)
    requires fs == Repeat(UNSET, TABLE_INIT_LEN)
    ensures fs == [UNSET, UNSET]
    ensures TableGet(fs, 0) == (ERROR, None) && TableSet(fs, 0, 0) == (OK, [0, UNSET])
  {
    assert fs == [UNSET, UNSET];
    assert [UNSET, UNSET][0 := 0] == [0, UNSET];
  }

  /** The example's header records offset 0 for function 0 and ends at byte 4. */
  lemma ExampleHeader(p: seq<Byte>, s0: State)
    requires ExampleHeaderBytes(p) && s0 == Initial(p)
    ensures Header(s0) == (OK, s0.(cur := Cursor(p, 14, 4), functions := [0, UNSET]))
  {
    assert Opcodes.VmCode(Opcodes.FUNCTION_JMP) == 0x0d && Opcodes.VmCode(Opcodes.HEADER_END) == 0x0e;
    ExampleTable(s0.functions);
    assert At(s0, 0) == Opcodes.VmCode(Opcodes.FUNCTION_JMP) && At(s0, 1) == 0 && At(s0, 2) == 0;
    var t := Skip(s0, 3).(functions := [0, UNSET]);
    assert Header(s0) == Header(t) by {
      HeaderRecordsFunction(s0);
    }
    assert At(t, 0) == Opcodes.VmCode(Opcodes.HEADER_END);
    HeaderEnds(t);
  }

  /** INT pushes its operand byte. */
  lemma IntPushes(s: State)
    requires Good(s) && s.cur.offset < s.cur.len && |s.stack| < MAX_STACK_SIZE
    ensures Exec(s, Opcodes.INT) == (OK, Skip(s, 1).(stack := s.stack + [IntVal(At(s, 0))]))
  {
    assert ReadB(s) == (OK, At(s, 0), Skip(s, 1));
  }

  /**
   * STRING n pushes the n bytes after its length byte as a string and
   * moves past them; with a full stack the push fails with STACK_OVERFLOW.
   * A string that runs past the end of the bytecode is OUT_OF_BUFFER with
   * the cursor at the end and nothing pushed.
   */
  lemma StringPushesLiteral(s: State)
    requires Good(s) && s.cur.offset < s.cur.len
    ensures var n := At(s, 0) as int;
      var start := s.cur.offset + 1;
      if start + n <= s.cur.len then
        if |s.stack| < MAX_STACK_SIZE then
          Exec(s, Opcodes.STRING) == (OK, Skip(s, 1 + n).(stack := s.stack + [StrVal(s.cur.buf[start..start + n])]))
        else Exec(s, Opcodes.STRING) == (STACK_OVERFLOW, Skip(s, 1 + n))
      else Exec(s, Opcodes.STRING) == (OUT_OF_BUFFER, s.(cur := s.cur.(offset := s.cur.len)))
  {
    assert Exec(s, Opcodes.STRING) == StringOp(s);
    StringOpCases(s);
  }

  lemma StringOpCases(s: State)
    requires Good(s) && s.cur.offset < s.cur.len
    ensures var n := At(s, 0) as int;
      var start := s.cur.offset + 1;
      if start + n <= s.cur.len then
        if |s.stack| < MAX_STACK_SIZE then
          StringOp(s) == (OK, Skip(s, 1 + n).(stack := s.stack + [StrVal(s.cur.buf[start..start + n])]))
        else StringOp(s) == (STACK_OVERFLOW, Skip(s, 1 + n))
      else StringOp(s) == (OUT_OF_BUFFER, s.(cur := s.cur.(offset := s.cur.len)))
  {
    assert ReadB(s) == (OK, At(s, 0), Skip(s, 1));
  }

  /** ADD of two byte-sized ints replaces them by their sum. */
  lemma AddsBytes(s: State, a: Byte, b: Byte)
    requires Good(s) && |s.stack| >= 2
    requires s.stack[|s.stack| - 2] == IntVal(a) && s.stack[|s.stack| - 1] == IntVal(b)
    ensures Exec(s, Opcodes.ADD) == (OK, s.(stack := s.stack[..|s.stack| - 2] + [IntVal(a + b)]))
  {
    BinarySpec(s, AddOp);
    ApplyWraps(a, b);
  }

  /** PRINT of an int moves it from the top of the stack to the output. */
  lemma PrintsInt(s: State, v: Word)
    requires Good(s) && |s.stack| > 0 && s.stack[|s.stack| - 1] == IntVal(v)
    ensures Exec(s, Opcodes.PRINT) == (OK, s.(stack := s.stack[..|s.stack| - 1], out := s.out + [IntVal(v)]))
  {
  }

  /** PRINT of a string moves it from the top of the stack to the output, up to its first NUL. */
  lemma PrintsString(s: State, bs: seq<Byte>)
    requires Good(s) && |s.stack| > 0 && s.stack[|s.stack| - 1] == StrVal(bs)
    ensures Exec(s, Opcodes.PRINT) == (OK, s.(stack := s.stack[..|s.stack| - 1], out := s.out + [StrVal(CString(bs))]))
    ensures 0 !in CString(bs) && (0 !in bs ==> CString(bs) == bs)
  {
    if 0 !in bs {
      NulFreeIsWhole(bs);
    }
  }

  lemma {:induction false} NulFreeIsWhole(bs: seq<Byte>)
    requires 0 !in bs
    ensures CString(bs) == bs
  {
    if bs != [] {
      NulFreeIsWhole(bs[1..]);
    }
  }

  /** A turn whose handler neither calls nor returns, and succeeds, hands the rest of the fuel to its state. */
  lemma SimpleTurn(s: State, op: Opcodes.Op, t: State, fuel: nat)
    requires Good(s) && s.cur.offset < s.cur.len && Simple(op)
    requires Opcodes.VmDecode(At(s, 0)) == Some(op) && Exec(ReadB(s).2, op) == (OK, t)
    ensures Body(s, fuel + 1) == Body(t, fuel)
  {
    DispatchSimple(ReadB(s).2, At(s, 0), op, fuel);
    BodyTurn(s, fuel + 1);
  }

  /** A byte that decodes to a handler that neither calls nor returns runs that handler. */
  lemma DispatchSimple(s: State, b: Byte, op: Opcodes.Op, fuel: nat)
    requires Good(s) && Opcodes.VmDecode(b) == Some(op) && Simple(op)
    ensures Dispatch(s, b, fuel) == (Exec(s, op).0, false, Exec(s, op).1)
  {
    assert op != Opcodes.RETURN && op != Opcodes.RETURN_VAL && op != Opcodes.CALL_FUNC;
  }

  /** A turn on RETURN that succeeds ends the body with the state the return leaves. */
  lemma ReturnTurn(s: State, t: State, fuel: nat)
    requires Good(s) && s.cur.offset < s.cur.len
    requires Opcodes.VmDecode(At(s, 0)) == Some(Opcodes.RETURN) && ReturnOp(ReadB(s).2, false) == (OK, t)
    ensures Body(s, fuel + 1) == (OK, t)
  {
    var s1 := ReadB(s).2;
    assert ReadB(s) == (OK, At(s, 0), s1);
    assert Dispatch(s1, At(s, 0), fuel) == (OK, true, t);
    assert Step(s, fuel) == (OK, true, t);
    BodyTurn(s, fuel + 1);
  }


  /** INT a pushes a. */
  lemma ExampleFirstInt(code: seq<Byte>, a: Byte, b: Byte, f: Frame<Binding>, fuel: nat)
    requires ExampleCode(code, a, b) && |f.bindings| == MAX_FRAME_BINDINGS
    ensures Body(ExampleAt(code, 3, [], [f], []), fuel + 1) == Body(ExampleAt(code, 5, [IntVal(a)], [f], []), fuel)
  {
    Opcodes.VmCodeDecodes(Opcodes.INT);
    assert Opcodes.VmCode(Opcodes.INT) == 0x08;
    var s := ExampleAt(code, 3, [], [f], []);
    assert ReadB(s) == (OK, 0x08, Skip(s, 1));
    IntPushes(Skip(s, 1));
    assert Skip(s, 2).(stack := [] + [IntVal(a)]) == ExampleAt(code, 5, [IntVal(a)], [f], []);
    SimpleTurn(s, Opcodes.INT, ExampleAt(code, 5, [IntVal(a)], [f], []), fuel);
  }

  /** INT b pushes b. */
  lemma ExampleSecondInt(code: seq<Byte>, a: Byte, b: Byte, f: Frame<Binding>, fuel: nat)
    requires ExampleCode(code, a, b) && |f.bindings| == MAX_FRAME_BINDINGS
    ensures Body(ExampleAt(code, 5, [IntVal(a)], [f], []), fuel + 1) == Body(ExampleAt(code, 7, [IntVal(a), IntVal(b)], [f], []), fuel)
  {
    Opcodes.VmCodeDecodes(Opcodes.INT);
    assert Opcodes.VmCode(Opcodes.INT) == 0x08;
    var s := ExampleAt(code, 5, [IntVal(a)], [f], []);
    assert ReadB(s) == (OK, 0x08, Skip(s, 1));
    IntPushes(Skip(s, 1));
    assert Skip(s, 2).(stack := [IntVal(a)] + [IntVal(b)]) == ExampleAt(code, 7, [IntVal(a), IntVal(b)], [f], []);
    SimpleTurn(s, Opcodes.INT, ExampleAt(code, 7, [IntVal(a), IntVal(b)], [f], []), fuel);
  }

  /** ADD replaces a and b by a + b. */
  lemma ExampleAdd(code: seq<Byte>, a: Byte, b: Byte, f: Frame<Binding>, fuel: nat)
    requires ExampleCode(code, a, b) && |f.bindings| == MAX_FRAME_BINDINGS
    ensures Body(ExampleAt(code, 7, [IntVal(a), IntVal(b)], [f], []), fuel + 1) == Body(ExampleAt(code, 8, [IntVal(a + b)], [f], []), fuel)
  {
    Opcodes.VmCodeDecodes(Opcodes.ADD);
    assert Opcodes.VmCode(Opcodes.ADD) == 0x07;
    var s := ExampleAt(code, 7, [IntVal(a), IntVal(b)], [f], []);
    assert ReadB(s) == (OK, 0x07, Skip(s, 1));
    AddsBytes(Skip(s, 1), a, b);
    assert [IntVal(a), IntVal(b)][..0] + [IntVal(a + b)] == [IntVal(a + b)];
    SimpleTurn(s, Opcodes.ADD, ExampleAt(code, 8, [IntVal(a + b)], [f], []), fuel);
  }

  /** PRINT pops a + b and outputs it. */
  lemma ExamplePrint(code: seq<Byte>, a: Byte, b: Byte, f: Frame<Binding>, fuel: nat)
    requires ExampleCode(code, a, b) && |f.bindings| == MAX_FRAME_BINDINGS
    ensures Body(ExampleAt(code, 8, [IntVal(a + b)], [f], []), fuel + 1) == Body(ExampleAt(code, 9, [], [f], [IntVal(a + b)]), fuel)
  {
    Opcodes.VmCodeDecodes(Opcodes.PRINT);
    assert Opcodes.VmCode(Opcodes.PRINT) == 0x0f;
    var s := ExampleAt(code, 8, [IntVal(a + b)], [f], []);
    var s1 := Skip(s, 1);
    var t := ExampleAt(code, 9, [], [f], [IntVal(a + b)]);
    assert ReadB(s) == (OK, 0x0f, s1);
    PrintsInt(s1, a + b);
    assert [IntVal(a + b)][..0] == [] && [] + [IntVal(a + b)] == [IntVal(a + b)];
    assert s1.(stack := s1.stack[..0], out := s1.out + [IntVal(a + b)]) == t;
    assert Exec(ReadB(s).2, Opcodes.PRINT) == (OK, t);
    SimpleTurn(s, Opcodes.PRINT, t, fuel);
  }

  /** RETURN from the only frame, whose return offset is -1, leaves no frames. */
  lemma ExampleReturn(code: seq<Byte>, a: Byte, b: Byte, f: Frame<Binding>, fuel: nat)
    requires ExampleCode(code, a, b) && |f.bindings| == MAX_FRAME_BINDINGS && f.bcOffset == -1
    ensures Body(ExampleAt(code, 9, [], [f], [IntVal(a + b)]), fuel + 1) == (OK, ExampleAt(code, 10, [], [], [IntVal(a + b)]))
  {
    Opcodes.VmCodeDecodes(Opcodes.RETURN);
    assert Opcodes.VmCode(Opcodes.RETURN) == 0x05;
    var s := ExampleAt(code, 9, [], [f], [IntVal(a + b)]);
    assert ReadB(s) == (OK, 0x05, Skip(s, 1));
    ReturnFromLastFrame(Skip(s, 1));
    ReturnTurn(s, ExampleAt(code, 10, [], [], [IntVal(a + b)]), fuel);
  }

  /** `glacierVMRun` on the example's header and code enters function 0 at body offset 0. */
  lemma ExampleEntry(p: seq<Byte>, fuel: nat)
    requires ExampleHeaderBytes(p)
    ensures Run(Initial(p), fuel) == FunctionDef(ExampleAt(p[4..], 0, [], [FreshFrame(-1, UNBOUND)], []), fuel)
  {
    var s0 := Initial(p);
    var h := s0.(cur := Cursor(p, 14, 4), functions := [0, UNSET]);
    ExampleHeader(p, s0);
    assert TableGet(h.functions, 0) == (OK, Some(0));
    RunEntersFunctionZero(s0, h, fuel);
    assert s0.structs == [UNSET, UNSET] by {
      ExampleTable(s0.structs);
    }
  }

  /** Function 0 takes no arguments, so its body starts just past its record with nothing bound. */
  lemma ExampleDef(code: seq<Byte>, a: Byte, b: Byte, f: Frame<Binding>, fuel: nat)
    requires ExampleCode(code, a, b) && f == FreshFrame(-1, UNBOUND)
    ensures FunctionDef(ExampleAt(code, 0, [], [f], []), fuel) == Body(ExampleAt(code, 3, [], [f], []), fuel)
  {
    assert Opcodes.VmCode(Opcodes.FUNCTION_DEF) == 0x01;
    var f0 := ExampleAt(code, 0, [], [f], []);
    assert At(f0, 0) == Opcodes.VmCode(Opcodes.FUNCTION_DEF) && At(f0, 2) == 0;
    FunctionDefEntersBody(f0, fuel);
    var b0 := ExampleAt(code, 3, [], [f], []);
    assert WithArgs(b0, 0) == b0 by {
      assert Bound(f.bindings, []) == f.bindings;
    }
  }

  /** From the first INT on, the body loop pushes, adds, prints and returns in five turns. */
  lemma ExampleBody(code: seq<Byte>, a: Byte, b: Byte, fuel: nat)
    requires ExampleCode(code, a, b) && fuel >= 5
    ensures Body(ExampleAt(code, 3, [], [FreshFrame(-1, UNBOUND)], []), fuel) ==
      (OK, ExampleAt(code, 10, [], [], [IntVal(a + b)]))
  {
    var f := FreshFrame(-1, UNBOUND);
    ExampleFirstInt(code, a, b, f, fuel - 1);
    ExampleSecondInt(code, a, b, f, fuel - 2);
    ExampleFinish(code, a, b, f, fuel - 2);
  }

  /** From the ADD on, with both values pushed in the outermost frame: a + b is printed and the call returns. */
  lemma ExampleFinish(code: seq<Byte>, a: Byte, b: Byte, f: Frame<Binding>, fuel: nat)
    requires ExampleCode(code, a, b) && |f.bindings| == MAX_FRAME_BINDINGS && f.bcOffset == -1 && fuel >= 3
    ensures Body(ExampleAt(code, 7, [IntVal(a), IntVal(b)], [f], []), fuel) ==
      (OK, ExampleAt(code, 10, [], [], [IntVal(a + b)]))
  {
    ExampleAdd(code, a, b, f, fuel - 1);
    ExamplePrint(code, a, b, f, fuel - 2);
    ExampleReturn(code, a, b, f, fuel - 3);
  }

  /**
   * The program `0x0d 0 0 0x0e` + `FUNCTION_DEF 0 0`, `INT a`, `INT b`,
   * `ADD`, `PRINT`, `RETURN`: run with enough fuel, it prints a + b and
   * finishes with OK, an empty stack and no frames.
   */
  lemma ExampleRun(a: Byte, b: Byte, fuel: nat)
    requires fuel >= 6
    ensures Run(Initial(Example(a, b)), fuel) == (OK, ExampleAt(Example(a, b)[4..], 10, [], [], [IntVal(a + b)]))
  {
    var p := Example(a, b);
    ExampleSplits(a, b);
    ExampleEntry(p, fuel);
    ExampleDef(p[4..], a, b, FreshFrame(-1, UNBOUND), fuel);
    ExampleBody(p[4..], a, b, fuel);
  }

}
