/**
 * The VM's bytecode cursor (vm/ByteCode.c): a buffer, the number of bytes
 * in it that count, and a read offset. Reads are bounds-checked, a jump
 * moves the offset, and trimming drops everything before the offset so
 * that later offsets count from there.
 */
module VmByteCode {
  import opened Wrappers
  import opened VmStatus

  /** The cursor's fields: `buf`, `len` and `offset`. */
  datatype Cursor = Cursor(buf: seq<Byte>, len: nat, offset: nat)

  /** The buffer holds at least `len` bytes and the offset never passes `len`. */
  predicate Sound(c: Cursor)
  {
    c.offset <= c.len <= |c.buf|
  }

  /**
   * The number the bytes stand for when read as one unsigned integer, least
   * significant byte first. The C code casts the buffer to a wider
   * integer pointer, which reads in the host's byte order; this model fixes
   * that order as little-endian.
   */
  function LittleEndian(bs: seq<Byte>): nat
  {
    if bs == [] then 0 else bs[0] + 256 * LittleEndian(bs[1..])
  }

  /** The outcome of one read: the status, the value read (0 when nothing is) and the cursor after. */
  datatype ReadResult = ReadResult(status: Status, value: nat, cur: Cursor)

  /** `glacierByteCodeRead8/16/32` for a width of 1, 2 or 4 bytes. */
  function Read(c: Cursor, width: nat): ReadResult
    requires Sound(c)
  {
    if c.offset + width > c.len then ReadResult(OUT_OF_BUFFER, 0, c)
    else ReadResult(OK, LittleEndian(c.buf[c.offset..c.offset + width]), c.(offset := c.offset + width))
  }

  /** `glacierByteCodeRead8`: one byte, as the byte it is. */
  function ReadByte(c: Cursor): (Status, Byte, Cursor)
    requires Sound(c)
  {
    if c.offset + 1 > c.len then (OUT_OF_BUFFER, 0, c) else (OK, c.buf[c.offset], c.(offset := c.offset + 1))
  }

  /** Reading one byte is the one-byte case of the general read. */
  lemma ReadByteIsRead(c: Cursor)
    requires Sound(c)
    ensures var (st, b, d) := ReadByte(c); Read(c, 1) == ReadResult(st, b, d) && Sound(d)
  {
    if c.offset + 1 <= c.len {
      LittleEndianOne(c.buf[c.offset..c.offset + 1]);
    }
  }

  /** `glacierByteCodeRead64` as written: it gives up when 8 or fewer bytes remain. */
  function Read64AsWritten(c: Cursor): ReadResult
    requires Sound(c)
  {
    if c.offset + 8 >= c.len then ReadResult(OUT_OF_BUFFER, 0, c)
    else ReadResult(OK, LittleEndian(c.buf[c.offset..c.offset + 8]), c.(offset := c.offset + 8))
  }

  /**
   * A read fails exactly when fewer than `width` bytes remain, and then
   * leaves the cursor alone; otherwise it returns those bytes (for one
   * byte, the byte itself) and advances by the width, never past `len`.
   */
  lemma ReadSpec(c: Cursor, width: nat)
    requires Sound(c)
    ensures var r := Read(c, width);
      Sound(r.cur) && r.cur.buf == c.buf && r.cur.len == c.len &&
      (r.status == OK <==> c.offset + width <= c.len) &&
      (r.status != OK ==> r.status == OUT_OF_BUFFER && r.cur == c) &&
      (r.status == OK ==> r.cur.offset == c.offset + width) &&
      (r.status == OK && width == 1 ==> r.value == c.buf[c.offset])
  {
    if c.offset + width <= c.len && width == 1 {
      LittleEndianOne(c.buf[c.offset..c.offset + 1]);
    }
  }

  /** One byte reads as itself. */
  lemma LittleEndianOne(bs: seq<Byte>)
    requires |bs| == 1
    ensures LittleEndian(bs) == bs[0]
  {
    assert bs[1..] == [];
  }

  /** w bytes read as a number below 256^w, so Read8/16/32 fit their uint8_t/uint16_t/uint32_t. */
  lemma {:induction false} LittleEndianBound(bs: seq<Byte>)
    ensures LittleEndian(bs) < Pow256(|bs|)
    decreases |bs|
  {
    if bs != [] {
      LittleEndianBound(bs[1..]);
    }
  }

  function Pow256(n: nat): (r: nat)
    ensures r >= 1
  {
    if n == 0 then 1 else 256 * Pow256(n - 1)
  }

  /**
   * Read64 as written refuses a read that fits exactly: with 8 bytes left
   * it reports OUT_OF_BUFFER, where the other widths' `>` test (and so
   * `Read(c, 8)`) reads them.
   */
  lemma Read64RefusesExactFit(c: Cursor)
    requires Sound(c) && c.len - c.offset == 8
    ensures Read64AsWritten(c).status == OUT_OF_BUFFER
    ensures Read(c, 8).status == OK && Read(c, 8).cur.offset == c.len
  {
  }

  /** Where the two agree: Read64 as written equals the corrected read except on an exact fit. */
  lemma Read64AgreesOtherwise(c: Cursor)
    requires Sound(c) && c.len - c.offset != 8
    ensures Read64AsWritten(c) == Read(c, 8)
  {
  }

  /** `glacierByteCodeJump`: a target at or past `len` (a negative one becomes a huge size_t) fails. */
  function Jumped(c: Cursor, target: int): (Status, Cursor)
  {
    if target < 0 || target >= c.len then (OUT_OF_BUFFER, c) else (OK, c.(offset := target))
  }

  /** `glacierByteCodeTrim`: the bytes from the offset on become the whole buffer. */
  function Trimmed(c: Cursor): (Status, Cursor)
    requires Sound(c)
  {
    if c.offset >= c.len then (OUT_OF_BUFFER, c) else (OK, Cursor(c.buf[c.offset..], c.len - c.offset, 0))
  }

  /**
   * Trimming fails exactly when nothing is left to read; otherwise the new
   * byte i is the old byte offset + i, the length shrinks by the offset and
   * reading starts again at 0.
   */
  lemma TrimSpec(c: Cursor)
    requires Sound(c)
    ensures var (st, d) := Trimmed(c);
      (st == OK <==> c.offset < c.len) && (st != OK ==> d == c) &&
      (st == OK ==> Sound(d) && d.offset == 0 && d.len == c.len - c.offset) &&
      (st == OK ==> forall i :: 0 <= i < d.len ==> d.buf[i] == c.buf[c.offset + i])
  {
  }

  /**
   * After a trim, jumping to an offset lands where jumping to that offset
   * plus the old offset landed before: offsets count from the trim point.
   */
  lemma JumpAfterTrim(c: Cursor, target: int)
    requires Sound(c) && Trimmed(c).0 == OK && 0 <= target
    ensures var d := Trimmed(c).1;
      Jumped(d, target).0 == Jumped(c, c.offset + target).0 &&
      (Jumped(d, target).0 == OK ==> Jumped(d, target).1.buf[Jumped(d, target).1.offset..d.len] == c.buf[c.offset + target..c.len])
  {
    var d := Trimmed(c).1;
    if target < d.len {
      assert d.buf[target..d.len] == c.buf[c.offset..][target..c.len - c.offset];
    }
  }

  /** `GlacierByteCode` and its operations. */
  class ByteCode {
    var buf: seq<Byte>
    var len: nat
    var offset: nat

    function St(): Cursor
      reads this
    {
      Cursor(buf, len, offset)
    }

    ghost predicate Valid()
      reads this
    {
      Sound(St())
    }

    /** `glacierByteCodeInit`: the first `len` bytes of `buf`, read from 0. */
    constructor (buf: seq<Byte>, len: nat)
      requires len <= |buf|
      ensures Valid() && St() == Cursor(buf, len, 0)
    {
      this.buf := buf;
      this.len := len;
      offset := 0;
    }

    /** The shared body of the reads: the width check, then the bytes. */
    method ReadWidth(width: nat) returns (status: Status, val: nat)
      requires Valid()
      modifies this
      ensures Valid()
      ensures ReadResult(status, val, St()) == Read(old(St()), width)
    {
      if offset + width > len {
        return OUT_OF_BUFFER, 0;
      }
      val := LittleEndian(buf[offset..offset + width]);
      offset := offset + width;
      status := OK;
    }

    /** `glacierByteCodeRead8`. */
    method Read8() returns (status: Status, val: Byte)
      requires Valid()
      modifies this
      ensures Valid()
      ensures (status, val, St()) == ReadByte(old(St()))
    {
      if offset + 1 > len {
        return OUT_OF_BUFFER, 0;
      }
      val := buf[offset];
      offset := offset + 1;
      status := OK;
    }

    /** `glacierByteCodeRead16`. */
    method Read16() returns (status: Status, val: nat)
      requires Valid()
      modifies this
      ensures Valid()
      ensures ReadResult(status, val, St()) == Read(old(St()), 2)
    {
      status, val := ReadWidth(2);
    }

    /** `glacierByteCodeRead32`. */
    method Read32() returns (status: Status, val: nat)
      requires Valid()
      modifies this
      ensures Valid()
      ensures ReadResult(status, val, St()) == Read(old(St()), 4)
    {
      status, val := ReadWidth(4);
    }

    /** `glacierByteCodeRead64` as written, with `>=`. */
    method Read64AsWrittenMethod() returns (status: Status, val: nat)
      requires Valid()
      modifies this
      ensures Valid()
      ensures ReadResult(status, val, St()) == Read64AsWritten(old(St()))
    {
      if offset + 8 >= len {
        return OUT_OF_BUFFER, 0;
      }
      status, val := ReadWidth(8);
    }

    /** `glacierByteCodeRead64` with the `>` test of the other widths. */
    method Read64() returns (status: Status, val: nat)
      requires Valid()
      modifies this
      ensures Valid()
      ensures ReadResult(status, val, St()) == Read(old(St()), 8)
    {
      status, val := ReadWidth(8);
    }

    /** `glacierByteCodeJump`. */
    method Jump(target: int) returns (status: Status)
      requires Valid()
      modifies this
      ensures Valid()
      ensures (status, St()) == Jumped(old(St()), target)
    {
      if target < 0 || target >= len {
        return OUT_OF_BUFFER;
      }
      offset := target;
      status := OK;
    }

    /** `glacierByteCodeEnd`. */
    method End() returns (b: bool)
      requires Valid()
      ensures b <==> offset == len
    {
      b := offset >= len;
    }

    /** `glacierByteCodeTrim`. */
    method Trim() returns (status: Status)
      requires Valid()
      modifies this
      ensures Valid()
      ensures (status, St()) == Trimmed(old(St()))
    {
      if offset >= len {
        return OUT_OF_BUFFER;
      }
      len := len - offset;
      buf := buf[offset..];
      offset := 0;
      status := OK;
    }
  }
}
