/**
 * The two-region byte buffer the compiler writes into (compiler/bytecode.py;
 * glacier/bytecode.py holds the same class over the older opcode table).
 * Header records and the function bodies go to separate bytearrays; `edit_op`
 * patches body bytes in place; `construct` joins the regions around a
 * HEADER_END marker.
 */
module Emitter {
  import opened Wrappers
  import opened Opcodes

  /** Which opcode enum the buffer's ops come from. */
  datatype Table = CompilerTable | LegacyTable

  function CodeIn(t: Table, op: Op): Option<Byte>
  {
    match t
    case CompilerTable => Some(VmCode(op))
    case LegacyTable => LegacyCode(op)
  }

  /** Python's reading of a sequence index: a negative index counts from the end. */
  function PyIndex(i: int, n: nat): (r: Option<nat>)
    ensures r.Some? <==> 0 <= i + n && i < n
    ensures r.Some? ==> r.value < n && (if i < 0 then r.value == i + n else r.value == i)
  {
    if 0 <= i < n then Some(i) else if 0 <= i + n && i < 0 then Some(i + n) else None
  }

  /**
   * `buf[pos] = v` on a bytearray. When both the index and the value are
   * wrong, the index is reported, as CPython did before the fix for
   * gh-91153; later releases report the value. Code generation never
   * stores such a pair.
   */
  function SetByte(buf: seq<Byte>, pos: int, v: int): Result<seq<Byte>, PyError>
  {
    match PyIndex(pos, |buf|)
    case None => Err(IndexError)
    case Some(k) => if IsByte(v) then Ok(buf[k := v]) else Err(ValueError)
  }

  /**
   * The loop of `edit_op` from argument i on: argument i goes to position
   * offset + i + 1. The first failing store stops the loop and raises; the
   * stores before it stay done.
   */
  function EditArgs(buf: seq<Byte>, offset: int, args: seq<int>, i: nat): (r: (seq<Byte>, Option<PyError>))
    requires i <= |args|
    ensures |r.0| == |buf|
    decreases |args| - i
  {
    if i == |args| then (buf, None)
    else match SetByte(buf, offset + i + 1, args[i])
      case Err(e) => (buf, Some(e))
      case Ok(b) => EditArgs(b, offset, args, i + 1)
  }

  /** `edit_op(offset, op, args)`: the opcode byte first, then the loop over the args. */
  function EditBytes(buf: seq<Byte>, offset: int, code: Byte, args: seq<int>): (r: (seq<Byte>, Option<PyError>))
    ensures |r.0| == |buf|
  {
    match SetByte(buf, offset, code)
    case Err(e) => (buf, Some(e))
    case Ok(b) => EditArgs(b, offset, args, 0)
  }

  /**
   * What `write_op` or `write_header` leaves in a region when the pass goes
   * on: the opcode byte and the args, or ValueError when an arg is not a
   * byte (which stops the pass).
   */
  function Appended(region: seq<Byte>, code: Byte, args: seq<int>): Result<seq<Byte>, PyError>
  {
    if AllBytes(args) then Ok(region + [code] + args) else Err(ValueError)
  }

  /** The bytes `edit_op` writes when it succeeds: the opcode, then the args. */
  function Patched(buf: seq<Byte>, offset: nat, code: Byte, args: seq<Byte>): seq<Byte>
    requires offset + |args| < |buf|
  {
    buf[..offset] + [code] + args + buf[offset + |args| + 1..]
  }

  lemma {:induction false} EditArgsInRange(buf: seq<Byte>, offset: nat, args: seq<int>, i: nat)
    requires i <= |args| && offset + |args| < |buf| && AllBytes(args)
    ensures EditArgs(buf, offset, args, i).1 == None
    ensures var b := EditArgs(buf, offset, args, i).0;
      (forall k :: 0 <= k < |buf| && !(offset + i + 1 <= k <= offset + |args|) ==> b[k] == buf[k]) &&
      (forall k :: i <= k < |args| ==> b[offset + k + 1] == args[k])
    decreases |args| - i
  {
    if i < |args| {
      var b := buf[offset + i + 1 := args[i]];
      assert SetByte(buf, offset + i + 1, args[i]) == Ok(b);
      EditArgsInRange(b, offset, args, i + 1);
    }
  }

  /**
   * In range and with byte-sized args, `edit_op` succeeds, overwrites exactly
   * positions offset..offset+len(args) with the opcode and the args, and keeps
   * every other byte and the length.
   */
  lemma EditOpInRange(buf: seq<Byte>, offset: nat, code: Byte, args: seq<int>)
    requires offset + |args| < |buf| && AllBytes(args)
    ensures EditBytes(buf, offset, code, args).1 == None
    ensures EditBytes(buf, offset, code, args).0 == Patched(buf, offset, code, args)
  {
    var b := buf[offset := code];
    assert SetByte(buf, offset, code) == Ok(b);
    EditArgsInRange(b, offset, args, 0);
    var r := EditBytes(buf, offset, code, args).0;
    var p := Patched(buf, offset, code, args);
    assert |r| == |p|;
    forall k | 0 <= k < |r| ensures r[k] == p[k] {
      if k < offset {
      } else if k == offset {
      } else if k <= offset + |args| {
        assert r[offset + (k - offset - 1) + 1] == args[k - offset - 1];
      } else {
      }
    }
  }

  lemma {:induction false} EditArgsPastEnd(buf: seq<Byte>, offset: nat, args: seq<int>, i: nat)
    requires i <= |args| && |buf| <= offset + |args| && offset + i < |buf| && AllBytes(args)
    ensures EditArgs(buf, offset, args, i).1 == Some(IndexError)
    decreases |args| - i
  {
    if offset + i + 1 < |buf| {
      EditArgsPastEnd(buf[offset + i + 1 := args[i]], offset, args, i + 1);
    }
  }

  /**
   * A patch that starts inside the body but runs past its end raises
   * IndexError, after writing the bytes that fit.
   */
  lemma EditOpPastEnd(buf: seq<Byte>, offset: nat, code: Byte, args: seq<int>)
    requires offset < |buf| <= offset + |args| && AllBytes(args)
    ensures EditBytes(buf, offset, code, args).1 == Some(IndexError)
  {
    EditArgsPastEnd(buf[offset := code], offset, args, 0);
  }

  class ByteCode {
    const table: Table
    var header: seq<Byte>
    var buf: seq<Byte>

    /** `__init__`: both regions empty. */
    constructor (t: Table)
      ensures table == t && header == [] && buf == []
    {
      table := t;
      header := [];
      buf := [];
    }

    function Code(op: Op): Byte
      requires CodeIn(table, op).Some?
    {
      CodeIn(table, op).value
    }

    /**
     * `write_header`: the opcode byte is appended to the header; the args follow
     * only if all of them are bytes (bytearray.extend is all-or-nothing),
     * otherwise ValueError. The body is untouched.
     */
    method WriteHeader(op: Op, args: seq<int>) returns (err: Option<PyError>)
      requires CodeIn(table, op).Some?
      modifies this
      ensures buf == old(buf)
      ensures err.None? <==> AllBytes(args)
      ensures err.Some? ==> err.value == ValueError && header == old(header) + [Code(op)]
      ensures err.None? ==> header == old(header) + [Code(op)] + args
    {
      header := header + [Code(op)];
      if AllBytes(args) {
        header := header + args;
        err := None;
      } else {
        err := Some(ValueError);
      }
    }

    /** `write_op`: as `write_header`, on the body; the header is untouched. */
    method WriteOp(op: Op, args: seq<int>) returns (err: Option<PyError>)
      requires CodeIn(table, op).Some?
      modifies this
      ensures header == old(header)
      ensures err.None? <==> AllBytes(args)
      ensures err.Some? ==> err.value == ValueError && buf == old(buf) + [Code(op)]
      ensures err.None? ==> buf == old(buf) + [Code(op)] + args
      ensures err.None? ==> |buf| == |old(buf)| + 1 + |args|
    {
      buf := buf + [Code(op)];
      if AllBytes(args) {
        buf := buf + args;
        err := None;
      } else {
        err := Some(ValueError);
      }
    }

    /** `edit_op`: overwrites body bytes in place, one store per loop turn. */
    method EditOp(offset: int, op: Op, args: seq<int>) returns (err: Option<PyError>)
      requires CodeIn(table, op).Some?
      modifies this
      ensures header == old(header)
      ensures (buf, err) == EditBytes(old(buf), offset, Code(op), args)
    {
      var first := SetByte(buf, offset, Code(op));
      if first.Err? {
        return Some(first.error);
      }
      buf := first.value;
      ghost var goal := EditArgs(buf, offset, args, 0);
      var i := 1;
      err := None;
      while i < |args| + 1
        invariant 1 <= i <= |args| + 1
        invariant header == old(header)
        invariant EditArgs(buf, offset, args, i - 1) == goal
      {
        var step := SetByte(buf, offset + i, args[i - 1]);
        if step.Err? {
          return Some(step.error);
        }
        buf := step.value;
        i := i + 1;
      }
    }

    /** `current_offset`: the body length, which is where the next op lands. */
    method CurrentOffset() returns (n: nat)
      ensures n == |buf|
    {
      n := |buf|;
    }

    /** `construct`: header records, the table's HEADER_END byte, then the body. */
    method Construct() returns (out: seq<Byte>)
      requires CodeIn(table, HEADER_END).Some?
      ensures |out| == |header| + 1 + |buf|
      ensures out[..|header|] == header
      ensures out[|header|] == Code(HEADER_END)
      ensures out[|header| + 1..] == buf
    {
      out := header + [Code(HEADER_END)] + buf;
    }
  }
}
