/**
 * `GlacierValue`: a type id and the payload it selects. Ints are 64-bit
 * unsigned; strings are byte strings read up to their first NUL; vectors
 * and maps are held by value (no opcode the VM implements changes one
 * after it is built); a struct is a reference into the VM's heap of
 * member lists, so every copy of it sees a member set through any other.
 */
module VmValue {
  import opened Wrappers
  import opened VmStatus

  const TYPEID_INT: int := 0x00
  const TYPEID_STRING: int := 0x01
  const TYPEID_VECTOR: int := 0x02
  const TYPEID_MAP: int := 0x03

  /** uint64_t. */
  type Word = n: int | 0 <= n < 0x1_0000_0000_0000_0000

  datatype Value =
    | IntVal(intValue: Word)
    | StrVal(chars: seq<Byte>)
    | VecVal(elems: seq<Value>)
    | MapVal(mapValue: MapState)
    | StructVal(structId: Byte, ref: nat)

  /**
   * A map's `numBuckets` and the chain of bucket 0, in chain order. The
   * hash is the constant 0, so bucket 0 is the only one that ever holds an
   * entry.
   */
  datatype MapState = MapState(numBuckets: nat, chain: seq<(Value, Value)>)

  /** The value's `typeId`: a struct carries its struct id. */
  function TypeId(v: Value): int
  {
    match v
    case IntVal(_) => TYPEID_INT
    case StrVal(_) => TYPEID_STRING
    case VecVal(_) => TYPEID_VECTOR
    case MapVal(_) => TYPEID_MAP
    case StructVal(id, _) => id
  }

  /** The characters C sees: everything before the first NUL byte. */
  function CString(s: seq<Byte>): (r: seq<Byte>)
    ensures |r| <= |s| && r == s[..|r|] && 0 !in r
    ensures |r| < |s| ==> s[|r|] == 0
  {
    if s == [] || s[0] == 0 then [] else [s[0]] + CString(s[1..])
  }

  /**
   * `glacierMapKeyEq`: different type ids are never equal, ints compare by
   * value and strings with `strcmp`. Any other shared type id trips the
   * `assert` (ASSERT_FAILED). A struct whose id is 0 or 1 passes the type-id
   * tests, and the comparison then reads the union as an int or a string
   * pointer that the value does not hold (UNDEFINED).
   */
  function KeyEq(a: Value, b: Value): (r: Result<bool, Status>)
    ensures TypeId(a) != TypeId(b) ==> r == Ok(false)
    ensures a.IntVal? && b.IntVal? ==> r == Ok(a.intValue == b.intValue)
    ensures a.StrVal? && b.StrVal? ==> r == Ok(CString(a.chars) == CString(b.chars))
    ensures r == Err(ASSERT_FAILED) <==> TypeId(a) == TypeId(b) && TypeId(a) != TYPEID_INT && TypeId(a) != TYPEID_STRING
    ensures r == Err(UNDEFINED) <==>
      TypeId(a) == TypeId(b) && (TypeId(a) == TYPEID_INT || TypeId(a) == TYPEID_STRING) &&
      (a.StructVal? || b.StructVal?)
    ensures r.Err? ==> r.error in {ASSERT_FAILED, UNDEFINED}
  {
    if TypeId(a) != TypeId(b) then Ok(false)
    else if TypeId(a) != TYPEID_INT && TypeId(a) != TYPEID_STRING then Err(ASSERT_FAILED)
    else if a.IntVal? && b.IntVal? then Ok(a.intValue == b.intValue)
    else if a.StrVal? && b.StrVal? then Ok(CString(a.chars) == CString(b.chars))
    else Err(UNDEFINED)
  }

  /** Key equality is symmetric, and defined between any two int or string keys. */
  lemma KeyEqSymmetric(a: Value, b: Value)
    ensures KeyEq(a, b) == KeyEq(b, a)
    ensures (a.IntVal? || a.StrVal?) && (b.IntVal? || b.StrVal?) ==> KeyEq(a, b).Ok?
  {
  }

  /** Two strings that agree up to the first NUL are the same key, whatever follows it. */
  lemma StringKeysStopAtNul(a: seq<Byte>, b: seq<Byte>)
    requires 0 in a
    ensures KeyEq(StrVal(a), StrVal(a + b)) == Ok(true)
  {
    CStringPrefix(a, b);
  }

  lemma {:induction false} CStringPrefix(a: seq<Byte>, b: seq<Byte>)
    requires 0 in a
    ensures CString(a + b) == CString(a)
  {
    if a[0] != 0 {
      assert (a + b)[1..] == a[1..] + b;
      CStringPrefix(a[1..], b);
    }
  }
}
