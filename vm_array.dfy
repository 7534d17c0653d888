/**
 * `GlacierArray` (vm/Array.c): the Table's older sibling. It starts with
 * ten empty slots and, on a write past the end, grows exactly once, to
 * twice its length. Its `Grow` marks one slot too many as empty: the loop
 * starts at `oldLen - 1`, so the last old slot loses its value. The
 * corrected `Grow` (starting at `oldLen`) is the one `Set` uses here; the
 * as-written one is kept beside it with the write it loses.
 */
module VmArray {
  import opened Wrappers
  import opened VmStatus

  /** The mark of an empty slot. */
  const UNSET: int := -1

  /** GLC_ARRAY_INIT_LEN. */
  const ARRAY_INIT_LEN: nat := 10

  /** The intended `glacierArrayGrow`: the old slots, then empty ones up to `len`. */
  function Grown(a: seq<int>, len: nat): (r: seq<int>)
    requires len >= |a|
  {
    a + Repeat(UNSET, len - |a|)
  }

  /** `glacierArrayGrow` as written: the fill starts one slot early, at `oldLen - 1`. */
  function GrownAsWritten(a: seq<int>, len: nat): (r: seq<int>)
    requires 1 <= |a| <= len
  {
    a[..|a| - 1] + Repeat(UNSET, len - |a| + 1)
  }

  /**
   * `glacierArraySet`: a write past the end grows to twice the length
   * first; an index still past the end after that is out of bounds in C,
   * which the caller must rule out.
   */
  function ArraySet(a: seq<int>, index: nat, val: int): (Status, seq<int>)
    requires index < 2 * |a|
  {
    var g := if index >= |a| then Grown(a, 2 * |a|) else a;
    if g[index] != UNSET || val < 0 then (ERROR, g) else (OK, g[index := val])
  }

  /** `glacierArraySet` over the as-written `Grow`. */
  function ArraySetAsWritten(a: seq<int>, index: nat, val: int): (Status, seq<int>)
    requires 1 <= |a| && index < 2 * |a|
  {
    var g := if index >= |a| then GrownAsWritten(a, 2 * |a|) else a;
    if g[index] != UNSET || val < 0 then (ERROR, g) else (OK, g[index := val])
  }

  /** `glacierArrayGet`. */
  function ArrayGet(a: seq<int>, index: nat): (Status, Option<int>)
  {
    if index >= |a| then (OUT_OF_BUFFER, None)
    else if a[index] == UNSET then (ERROR, None)
    else (OK, Some(a[index]))
  }

  /** Growing keeps every old slot, whatever the write that caused it, and adds only empty ones. */
  lemma GrowKeepsValues(a: seq<int>, len: nat)
    requires len >= |a|
    ensures |Grown(a, len)| == len
    ensures forall i :: 0 <= i < len ==> ArrayGet(Grown(a, len), i) == if i < |a| then ArrayGet(a, i) else (ERROR, None)
  {
  }

  /** The as-written grow empties the last old slot, so a value stored there is lost. */
  lemma GrowAsWrittenLosesLastSlot(a: seq<int>, len: nat)
    requires 1 <= |a| <= len && a[|a| - 1] != UNSET
    ensures ArrayGet(a, |a| - 1) == (OK, Some(a[|a| - 1]))
    ensures ArrayGet(GrownAsWritten(a, len), |a| - 1) == (ERROR, None)
    ensures GrownAsWritten(a, len) != Grown(a, len)
  {
    assert GrownAsWritten(a, len)[|a| - 1] == UNSET;
  }

  /** The two grows agree exactly when the last old slot was empty anyway. */
  lemma GrowAsWrittenAgreesOnEmptyLast(a: seq<int>, len: nat)
    requires 1 <= |a| <= len
    ensures GrownAsWritten(a, len) == Grown(a, len) <==> a[|a| - 1] == UNSET
  {
    if a[|a| - 1] == UNSET {
      assert GrownAsWritten(a, len) == Grown(a, len) by {
        assert forall i :: 0 <= i < len ==> GrownAsWritten(a, len)[i] == Grown(a, len)[i];
      }
    } else {
      assert GrownAsWritten(a, len)[|a| - 1] != Grown(a, len)[|a| - 1];
    }
  }

  /** The initial array: ten empty slots. */
  function InitArray(): (r: seq<int>)
    ensures |r| == ARRAY_INIT_LEN && forall i :: 0 <= i < |r| ==> r[i] == UNSET
  {
    Repeat(UNSET, ARRAY_INIT_LEN)
  }

  /**
   * The write that is lost: after storing 5 in slot 9 of a fresh array,
   * writing slot 10 grows the array, and with the as-written grow slot 9
   * reads as empty again; with the corrected grow it still reads 5.
   */
  lemma LostWriteExample()
    ensures var a := ArraySet(InitArray(), 9, 5);
      a.0 == OK &&
      ArraySetAsWritten(a.1, 10, 7).0 == OK &&
      ArrayGet(ArraySetAsWritten(a.1, 10, 7).1, 9) == (ERROR, None) &&
      ArraySet(a.1, 10, 7).0 == OK &&
      ArrayGet(ArraySet(a.1, 10, 7).1, 9) == (OK, Some(5))
  {
    var a := ArraySet(InitArray(), 9, 5).1;
    assert a[9] == 5;
    GrowAsWrittenLosesLastSlot(a, 20);
    assert GrownAsWritten(a, 20)[10] == UNSET;
    GrowKeepsValues(a, 20);
  }

  /**
   * With the corrected grow: a set succeeds exactly on an empty slot (one
   * past the end always is) with a non-negative value; it then reads back
   * and no other slot changes, and a second write to the slot fails.
   */
  lemma SetThenGet(a: seq<int>, index: nat, val: int)
    requires index < 2 * |a|
    ensures var (st, a') := ArraySet(a, index, val);
      (st == OK <==> (index >= |a| || a[index] == UNSET) && val >= 0) &&
      (st == OK ==> ArrayGet(a', index) == (OK, Some(val))) &&
      (forall j :: 0 <= j < |a| && j != index ==> ArrayGet(a', j) == ArrayGet(a, j)) &&
      (st == OK ==> ArraySet(a', index, val) == (ERROR, a'))
  {
  }

  /** `GlacierArray`. */
  class Array {
    var data: seq<int>

    /** `glacierArrayInit`: ten empty slots. */
    constructor ()
      ensures data == InitArray()
    {
      data := Repeat(0, ARRAY_INIT_LEN);
      new;
      var i := 0;
      while i < |data|
        invariant 0 <= i <= |data| == ARRAY_INIT_LEN
        invariant forall j :: 0 <= j < i ==> data[j] == UNSET
      {
        data := data[i := UNSET];
        i := i + 1;
      }
    }

    /** `glacierArrayGrow` as written: the fill loop starts at `oldLen - 1`. */
    method GrowAsWritten(len: nat)
      requires 1 <= |data| <= len
      modifies this
      ensures data == GrownAsWritten(old(data), len)
    {
      var oldLen := |data|;
      data := data + Repeat(0, len - oldLen);
      var i := oldLen - 1;
      while i < len
        invariant oldLen - 1 <= i <= len == |data|
        invariant data[..oldLen - 1] == old(data)[..oldLen - 1]
        invariant forall j :: oldLen - 1 <= j < i ==> data[j] == UNSET
      {
        data := data[i := UNSET];
        i := i + 1;
      }
    }

    /** `glacierArrayGrow` with the fill starting at `oldLen`. */
    method Grow(len: nat)
      requires |data| <= len
      modifies this
      ensures data == Grown(old(data), len)
    {
      var oldLen := |data|;
      data := data + Repeat(0, len - oldLen);
      var i := oldLen;
      while i < len
        invariant oldLen <= i <= len == |data|
        invariant data[..oldLen] == old(data)
        invariant forall j :: oldLen <= j < i ==> data[j] == UNSET
      {
        data := data[i := UNSET];
        i := i + 1;
      }
    }

    /** `glacierArraySet`, growing with the corrected `Grow`. */
    method Set(index: nat, val: int) returns (status: Status)
      requires index < 2 * |data|
      modifies this
      ensures (status, data) == ArraySet(old(data), index, val)
    {
      if index >= |data| {
        Grow(|data| * 2);
      }
      if data[index] != UNSET || val < 0 {
        return ERROR;
      }
      data := data[index := val];
      status := OK;
    }

    /** `glacierArrayGet`. */
    method Get(index: nat) returns (status: Status, val: Option<int>)
      ensures (status, val) == ArrayGet(data, index)
    {
      if index >= |data| {
        return OUT_OF_BUFFER, None;
      }
      var value := data[index];
      if value == UNSET {
        return ERROR, None;
      }
      status, val := OK, Some(value);
    }
  }
}
