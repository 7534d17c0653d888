/**
 * `GlacierTable` (vm/Table.c): a growable table of non-negative ints in
 * which -1 marks an empty slot and every slot is written at most once. The
 * VM keeps its function offsets and its struct member counts in two of them.
 * The C struct's `len` is the length of `data` here.
 */
module VmTable {
  import opened Wrappers
  import opened VmStatus

  /** The mark of an empty slot. */
  const UNSET: int := -1

  /** GLC_TABLE_INIT_LEN. */
  const TABLE_INIT_LEN: nat := 2

  /** The length a `Set` past the end grows to: twice the length, or just enough for the index. */
  function GrownLen(len: nat, index: nat): (r: nat)
    requires index >= len
    ensures r > index && r >= 2 * len
    ensures r == 2 * len || r == index + 1
  {
    if 2 * len < index + 1 then index + 1 else 2 * len
  }

  /** `glacierTableGrow`: the old slots, then empty ones up to the new length. */
  function Grown(t: seq<int>, len: nat): (r: seq<int>)
    requires len >= |t|
  {
    t + Repeat(UNSET, len - |t|)
  }

  /** `glacierTableSet`: grow if the index is past the end, then write an empty slot with a non-negative value. */
  function TableSet(t: seq<int>, index: nat, val: int): (Status, seq<int>)
  {
    var g := if index >= |t| then Grown(t, GrownLen(|t|, index)) else t;
    if g[index] != UNSET || val < 0 then (ERROR, g) else (OK, g[index := val])
  }

  /** `glacierTableGet`. */
  function TableGet(t: seq<int>, index: nat): (Status, Option<int>)
  {
    if index >= |t| then (OUT_OF_BUFFER, None)
    else if t[index] == UNSET then (ERROR, None)
    else (OK, Some(t[index]))
  }

  /** Whether every slot is either empty or holds a non-negative value. */
  predicate WellFormed(t: seq<int>)
  {
    forall i :: 0 <= i < |t| ==> t[i] >= UNSET
  }

  /**
   * A set succeeds exactly when the slot is empty (a slot past the end
   * always is) and the value is non-negative. Afterwards the slot reads
   * back as the value, every other old slot is as before, and the slots
   * added by growing read as empty.
   */
  lemma SetThenGet(t: seq<int>, index: nat, val: int)
    ensures var (st, t') := TableSet(t, index, val);
      (st == OK <==> (index >= |t| || t[index] == UNSET) && val >= 0) &&
      |t'| >= |t| && |t'| > index &&
      (st == OK ==> TableGet(t', index) == (OK, Some(val))) &&
      (forall j :: 0 <= j < |t| && j != index ==> t'[j] == t[j]) &&
      (forall j :: |t| <= j < |t'| && j != index ==> TableGet(t', j) == (ERROR, None))
  {
  }

  /** Once a slot is written, every later write to it fails and changes nothing. */
  lemma {:induction false} WriteOnce(t: seq<int>, index: nat, val: int, val2: int)
    requires TableSet(t, index, val).0 == OK
    ensures var t' := TableSet(t, index, val).1;
      TableSet(t', index, val2) == (ERROR, t') &&
      TableGet(TableSet(t', index, val2).1, index) == (OK, Some(val))
  {
    var t' := TableSet(t, index, val).1;
    assert t'[index] == val >= 0;
  }

  /** A set past the end grows the table even when it then fails on a negative value. */
  lemma GrowsEvenWhenSetFails(t: seq<int>, index: nat, val: int)
    requires index >= |t| && val < 0
    ensures TableSet(t, index, val).0 == ERROR
    ensures |TableSet(t, index, val).1| == GrownLen(|t|, index) > |t|
  {
  }

  /** Get fails past the end with OUT_OF_BUFFER and on an empty slot with ERROR; a value it returns is never -1. */
  lemma GetSpec(t: seq<int>, index: nat)
    requires WellFormed(t)
    ensures var (st, v) := TableGet(t, index);
      (st == OUT_OF_BUFFER <==> index >= |t|) &&
      (st == ERROR <==> index < |t| && t[index] == UNSET) &&
      (st == OK ==> v.Some? && v.value >= 0 && v.value == t[index])
  {
  }

  /** Setting keeps every slot empty or non-negative. */
  lemma SetKeepsWellFormed(t: seq<int>, index: nat, val: int)
    requires WellFormed(t)
    ensures WellFormed(TableSet(t, index, val).1)
  {
  }

  /** `GlacierTable`. */
  class Table {
    var data: seq<int>

    /** `glacierTableInit`: two empty slots. */
    constructor ()
      ensures data == Repeat(UNSET, TABLE_INIT_LEN)
    {
      data := Repeat(0, TABLE_INIT_LEN);
      new;
      var i := 0;
      while i < |data|
        invariant 0 <= i <= |data| == TABLE_INIT_LEN
        invariant forall j :: 0 <= j < i ==> data[j] == UNSET
      {
        data := data[i := UNSET];
        i := i + 1;
      }
    }

    /** `glacierTableGrow`: reallocate to `len` slots and mark the new ones empty. */
    method Grow(len: nat)
      requires len >= |data|
      modifies this
      ensures data == Grown(old(data), len)
    {
      var oldLen := |data|;
      data := data + Repeat(0, len - oldLen);
      var i := oldLen;
      while i < len
        invariant oldLen <= i <= len == |data|
        invariant data[..oldLen] == old(data)
        invariant forall j :: oldLen <= j < i ==> data[j] == UNSET
      {
        data := data[i := UNSET];
        i := i + 1;
      }
    }

    /** `glacierTableSet`. */
    method Set(index: nat, val: int) returns (status: Status)
      modifies this
      ensures (status, data) == TableSet(old(data), index, val)
    {
      if index >= |data| {
        var newLen := |data| * 2;
        if newLen < index + 1 {
          newLen := index + 1;
        }
        Grow(newLen);
      }
      if data[index] != UNSET || val < 0 {
        return ERROR;
      }
      data := data[index := val];
      status := OK;
    }

    /** `glacierTableGet`. */
    method Get(index: nat) returns (status: Status, val: Option<int>)
      ensures (status, val) == TableGet(data, index)
    {
      if index >= |data| {
        return OUT_OF_BUFFER, None;
      }
      var value := data[index];
      if value == UNSET {
        return ERROR, None;
      }
      status, val := OK, Some(value);
    }

    /** `glacierTableDestroy`: no slots left. */
    method Destroy()
      modifies this
      ensures data == []
    {
      data := [];
    }
  }
}
