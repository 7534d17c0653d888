/**
 * `GlacierFunctionTable` (vm/FunctionTable.c): a fixed array of 1024
 * function offsets indexed by function id, -1 marking an id with no
 * function, each slot written at most once.
 */
module VmFunctionTable {
  import opened Wrappers
  import opened VmStatus

  /** MAX_FUNCTION_NUMBER. */
  const MAX_FUNCTION_NUMBER: nat := 1024

  /** The mark of an id with no function. */
  const UNSET: int := -1

  /** `glacierFunctionTableSet` on the slot contents. */
  function FtSet(d: seq<int>, functionId: int, offset: int): (Status, seq<int>)
    requires |d| == MAX_FUNCTION_NUMBER
  {
    if functionId < 0 || functionId >= MAX_FUNCTION_NUMBER then (OUT_OF_BUFFER, d)
    else if d[functionId] != UNSET || offset < 0 then (ERROR, d)
    else (OK, d[functionId := offset])
  }

  /** `glacierFunctionTableGet` on the slot contents. */
  function FtGet(d: seq<int>, functionId: int): (Status, Option<int>)
    requires |d| == MAX_FUNCTION_NUMBER
  {
    if functionId < 0 || functionId >= MAX_FUNCTION_NUMBER then (OUT_OF_BUFFER, None)
    else if d[functionId] == UNSET then (ERROR, None)
    else (OK, Some(d[functionId]))
  }

  /**
   * A set fails with OUT_OF_BUFFER for an id outside [0, 1024) and with
   * ERROR on a taken slot or a negative offset, changing nothing; otherwise
   * the id reads back as the offset and every other id is as before.
   */
  lemma SetThenGet(d: seq<int>, functionId: int, offset: int)
    requires |d| == MAX_FUNCTION_NUMBER
    ensures var (st, d') := FtSet(d, functionId, offset);
      |d'| == MAX_FUNCTION_NUMBER &&
      (st == OUT_OF_BUFFER <==> functionId < 0 || functionId >= MAX_FUNCTION_NUMBER) &&
      (st == OK <==> 0 <= functionId < MAX_FUNCTION_NUMBER && d[functionId] == UNSET && offset >= 0) &&
      (st != OK ==> d' == d) &&
      (st == OK ==> FtGet(d', functionId) == (OK, Some(offset))) &&
      (forall j :: j != functionId ==> FtGet(d', j) == FtGet(d, j))
  {
  }

  /** Once an id has an offset, later sets of it fail and it keeps that offset for good. */
  lemma {:induction false} OffsetIsPermanent(d: seq<int>, functionId: int, offset: int, sets: seq<(int, int)>)
    requires |d| == MAX_FUNCTION_NUMBER && FtSet(d, functionId, offset).0 == OK
    ensures FtGet(Sets(FtSet(d, functionId, offset).1, sets), functionId) == (OK, Some(offset))
  {
    Stays(FtSet(d, functionId, offset).1, functionId, offset, sets);
  }

  /** The slots after a sequence of sets, successful or not, in order. */
  function Sets(d: seq<int>, sets: seq<(int, int)>): (r: seq<int>)
    requires |d| == MAX_FUNCTION_NUMBER
    ensures |r| == MAX_FUNCTION_NUMBER
    decreases |sets|
  {
    if sets == [] then d else Sets(FtSet(d, sets[0].0, sets[0].1).1, sets[1..])
  }

  lemma {:induction false} Stays(d: seq<int>, functionId: int, offset: int, sets: seq<(int, int)>)
    requires |d| == MAX_FUNCTION_NUMBER && 0 <= functionId < MAX_FUNCTION_NUMBER && d[functionId] == offset >= 0
    ensures FtGet(Sets(d, sets), functionId) == (OK, Some(offset))
    decreases |sets|
  {
    if sets != [] {
      Stays(FtSet(d, sets[0].0, sets[0].1).1, functionId, offset, sets[1..]);
    }
  }

  /** `GlacierFunctionTable`. */
  class FunctionTable {
    const data: array<int>

    ghost predicate Valid()
      reads this
    {
      data.Length == MAX_FUNCTION_NUMBER
    }

    function Slots(): seq<int>
      reads this, data
    {
      data[..]
    }

    /** Allocates the table's storage. */
    constructor ()
      ensures Valid() && fresh(data)
    {
      data := new int[MAX_FUNCTION_NUMBER];
    }

    /** `glacierFunctionTableInit`: every id without a function. */
    method Init()
      requires Valid()
      modifies data
      ensures Slots() == Repeat(UNSET, MAX_FUNCTION_NUMBER)
    {
      forall i | 0 <= i < data.Length {
        data[i] := UNSET;
      }
    }

    /** `glacierFunctionTableSet`. */
    method Set(functionId: int, offset: int) returns (status: Status)
      requires Valid()
      modifies data
      ensures (status, Slots()) == FtSet(old(Slots()), functionId, offset)
    {
      if functionId < 0 || functionId >= MAX_FUNCTION_NUMBER {
        return OUT_OF_BUFFER;
      }
      if data[functionId] != UNSET || offset < 0 {
        return ERROR;
      }
      data[functionId] := offset;
      status := OK;
    }

    /** `glacierFunctionTableGet`. */
    method Get(functionId: int) returns (status: Status, offset: Option<int>)
      requires Valid()
      ensures (status, offset) == FtGet(Slots(), functionId)
    {
      if functionId < 0 || functionId >= MAX_FUNCTION_NUMBER {
        return OUT_OF_BUFFER, None;
      }
      var value := data[functionId];
      if value == UNSET {
        return ERROR, None;
      }
      status, offset := OK, Some(value);
    }
  }
}
