/**
 * The disassembler's byte cursor (disassembler/bytecode_reader.py): a
 * position into a fixed byte string that `read_op` advances one byte at a
 * time until the end, where it answers `None`.
 */
module Disassembler {
  import opened Wrappers

  /** `MalformedByteCodeError`, the one exception of the reader. */
  datatype ReadError = MalformedByteCodeError

  /** One `read_op` from position i: the byte there and the next position, or nothing at the end. */
  function ReadStep(bc: seq<Byte>, i: nat): (r: (Option<Byte>, nat))
    ensures r.0.None? <==> i >= |bc|
    ensures r.0.Some? ==> r.0.value == bc[i] && r.1 == i + 1
    ensures r.0.None? ==> r.1 == i
  {
    if i >= |bc| then (None, i) else (Some(bc[i]), i + 1)
  }

  /** k successive `expect_op` calls from position i: the bytes read, or the error at the end of input. */
  function ExpectN(bc: seq<Byte>, i: nat, k: nat): Result<(seq<Byte>, nat), ReadError>
    decreases k
  {
    if k == 0 then Ok(([], i))
    else
      match ReadStep(bc, i).0
      case None => Err(MalformedByteCodeError)
      case Some(b) =>
        var (rest, j) :- ExpectN(bc, i + 1, k - 1);
        Ok(([b] + rest, j))
  }

  /**
   * Reading k bytes from a position within the buffer succeeds exactly
   * when k bytes remain; it then yields the next k bytes in order and stops
   * right after them.
   */
  lemma {:induction false} ExpectNReadsSlice(bc: seq<Byte>, i: nat, k: nat)
    requires i <= |bc|
    ensures ExpectN(bc, i, k).Ok? <==> i + k <= |bc|
    ensures i + k <= |bc| ==> ExpectN(bc, i, k) == Ok((bc[i..i + k], i + k))
    decreases k
  {
    if k > 0 && i < |bc| {
      ExpectNReadsSlice(bc, i + 1, k - 1);
      if i + k <= |bc| {
        assert bc[i..i + k] == [bc[i]] + bc[i + 1..i + k];
      }
    } else if k == 0 {
      assert bc[i..i] == [];
    }
  }

  /** Reading the whole buffer from the start gives back the buffer; one more read fails. */
  lemma ReadsWholeBuffer(bc: seq<Byte>)
    ensures ExpectN(bc, 0, |bc|) == Ok((bc, |bc|))
    ensures ExpectN(bc, 0, |bc| + 1) == Err(MalformedByteCodeError)
  {
    ExpectNReadsSlice(bc, 0, |bc|);
    ExpectNReadsSlice(bc, 0, |bc| + 1);
    assert bc[0..|bc|] == bc;
    ExpectNFailsAtEnd(bc, 0, |bc| + 1);
  }

  /** Every failure of the reader is the end-of-input error. */
  lemma {:induction false} ExpectNFailsAtEnd(bc: seq<Byte>, i: nat, k: nat)
    requires ExpectN(bc, i, k).Err?
    ensures ExpectN(bc, i, k).error == MalformedByteCodeError
    decreases k
  {
    if ReadStep(bc, i).0.Some? {
      ExpectNFailsAtEnd(bc, i + 1, k - 1);
    }
  }

  class ByteCodeReader {
    const bc: seq<Byte>
    var index: nat

    /** The cursor never passes the end. */
    ghost predicate Valid()
      reads this
    {
      index <= |bc|
    }

    /** `__init__`: the cursor at the first byte. */
    constructor (bc: seq<Byte>)
      ensures Valid() && this.bc == bc && index == 0
    {
      this.bc := bc;
      index := 0;
    }

    /** `read_op`: `None` at the end with the cursor left alone, else the byte and one step on. */
    method ReadOp() returns (op: Option<Byte>)
      requires Valid()
      modifies this
      ensures Valid()
      ensures (op, index) == ReadStep(bc, old(index))
    {
      if index >= |bc| {
        return None;
      }
      op := Some(bc[index]);
      index := index + 1;
    }

    /** `expect_op`: as `read_op`, but the end of input raises MalformedByteCodeError. */
    method ExpectOp() returns (r: Result<Byte, ReadError>)
      requires Valid()
      modifies this
      ensures Valid()
      ensures ExpectN(bc, old(index), 1) == (if r.Ok? then Ok(([r.value], index)) else Err(r.error))
      ensures r.Err? ==> index == old(index)
    {
      var op := ReadOp();
      if op.None? {
        return Err(MalformedByteCodeError);
      }
      assert ExpectN(bc, index, 0) == Ok(([], index));
      assert [op.value] + [] == [op.value];
      r := Ok(op.value);
    }
  }
}
