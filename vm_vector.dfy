/**
 * `GlacierVector` (vm/ds/Vector.c): a buffer of `capacity` values of which
 * the first `len` are the vector's elements. A push into a full buffer
 * doubles its capacity first. Storage is zero-filled by the collector,
 * and a zero-filled value is the int 0.
 */
module VmVector {
  import opened Wrappers
  import opened VmStatus
  import opened VmValue

  /** GLC_VECTOR_INIT_CAPACITY. */
  const VECTOR_INIT_CAPACITY: nat := 2

  /** What zero-filled storage reads as. */
  const ZERO: Value := IntVal(0)

  /** `glacierVectorPop` on the elements. */
  function VecPopped(elems: seq<Value>): (Status, seq<Value>)
  {
    if |elems| == 0 then (OUT_OF_BUFFER, elems) else (OK, elems[..|elems| - 1])
  }

  /** `glacierVectorGet` on the elements. */
  function VecGot(elems: seq<Value>, index: nat): (Status, Option<Value>)
  {
    if index >= |elems| then (OUT_OF_BUFFER, None) else (OK, Some(elems[index]))
  }

  /** `glacierVectorSet` on the elements. */
  function VecSet(elems: seq<Value>, index: nat, v: Value): (Status, seq<Value>)
  {
    if index >= |elems| then (OUT_OF_BUFFER, elems) else (OK, elems[index := v])
  }

  /**
   * The element pushed last is at index len - 1 and every earlier one keeps
   * its index; popping then gives back the elements from before the push.
   */
  lemma GetAfterPush(elems: seq<Value>, v: Value)
    ensures VecGot(elems + [v], |elems|) == (OK, Some(v))
    ensures forall i :: 0 <= i < |elems| ==> VecGot(elems + [v], i) == VecGot(elems, i)
    ensures VecPopped(elems + [v]) == (OK, elems)
  {
    assert (elems + [v])[..|elems|] == elems;
  }

  /** Set fails past the end; otherwise the index reads back as the value and no other index changes. */
  lemma GetAfterSet(elems: seq<Value>, index: nat, v: Value, j: nat)
    ensures VecSet(elems, index, v).0 == OK <==> index < |elems|
    ensures var e' := VecSet(elems, index, v).1;
      |e'| == |elems| &&
      VecGot(e', j) == if j == index && index < |elems| then (OK, Some(v)) else VecGot(elems, j)
  {
  }

  /** Pop fails exactly on an empty vector and otherwise drops the last element. */
  lemma PopSpec(elems: seq<Value>)
    ensures VecPopped(elems).0 == OK <==> |elems| > 0
    ensures VecPopped(elems).0 == OK ==> VecPopped(elems).1 + [elems[|elems| - 1]] == elems
  {
  }

  /** `GlacierVector`. */
  class Vector {
    var data: seq<Value>
    var len: nat
    var capacity: nat

    ghost predicate Valid()
      reads this
    {
      |data| == capacity && len <= capacity
    }

    /** The vector's elements. */
    function Elements(): seq<Value>
      reads this
      requires Valid()
    {
      data[..len]
    }

    /** `glacierVectorInit`: no elements, room for two. */
    constructor ()
      ensures Valid() && Elements() == [] && capacity == VECTOR_INIT_CAPACITY
    {
      data := Repeat(ZERO, VECTOR_INIT_CAPACITY);
      len := 0;
      capacity := VECTOR_INIT_CAPACITY;
    }

    /**
     * `glacierVectorPush`. A destroyed vector has no capacity to double,
     * and pushing into one writes through a null pointer.
     */
    method Push(v: Value) returns (status: Status)
      requires Valid() && capacity > 0
      modifies this
      ensures Valid() && status == OK && capacity > 0
      ensures Elements() == old(Elements()) + [v]
      ensures capacity == if old(len) == old(capacity) then 2 * old(capacity) else old(capacity)
    {
      if len == capacity {
        var newCapacity := capacity * 2;
        data := data + Repeat(ZERO, newCapacity - capacity);
        capacity := newCapacity;
      }
      data := data[len := v];
      len := len + 1;
      status := OK;
    }

    /** `glacierVectorPop`. */
    method Pop() returns (status: Status)
      requires Valid()
      modifies this
      ensures Valid() && capacity == old(capacity)
      ensures (status, Elements()) == VecPopped(old(Elements()))
    {
      if len <= 0 {
        return OUT_OF_BUFFER;
      }
      assert data[..len - 1] == data[..len][..len - 1];
      len := len - 1;
      status := OK;
    }

    /** `glacierVectorSet`. */
    method Set(index: nat, v: Value) returns (status: Status)
      requires Valid()
      modifies this
      ensures Valid() && capacity == old(capacity)
      ensures (status, Elements()) == VecSet(old(Elements()), index, v)
    {
      if index >= len {
        return OUT_OF_BUFFER;
      }
      data := data[index := v];
      status := OK;
    }

    /** `glacierVectorGet`. */
    method Get(index: nat) returns (status: Status, v: Option<Value>)
      requires Valid()
      ensures (status, v) == VecGot(Elements(), index)
    {
      if index >= len {
        return OUT_OF_BUFFER, None;
      }
      status, v := OK, Some(data[index]);
    }

    /** `glacierVectorDestroy`: no elements and no capacity. */
    method Destroy()
      modifies this
      ensures Valid() && len == 0 && capacity == 0
    {
      data := [];
      len := 0;
      capacity := 0;
    }
  }
}
