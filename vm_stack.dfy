/**
 * The VM's two stacks (vm/Stack.c): the operand stack of values and the
 * call stack of frames, each a fixed array of MAX_STACK_SIZE entries with
 * a stack pointer.
 */
module VmStack {
  import opened Wrappers
  import opened VmStatus
  import opened VmValue

  const MAX_STACK_SIZE: nat := 1024

  /**
   * Bindings per frame. vm/Stack.c uses MAX_FRAME_BINDINGS without the
   * shown headers defining it; this model fixes it at 256, one per value a
   * one-byte variable id can take.
   */
  const MAX_FRAME_BINDINGS: nat := 256

  /** `glacierStackPush` on the values held: full at MAX_STACK_SIZE. */
  function Pushed(s: seq<Value>, v: Value): (Status, seq<Value>)
  {
    if |s| >= MAX_STACK_SIZE then (STACK_OVERFLOW, s) else (OK, s + [v])
  }

  /** `glacierStackTop`: the last value pushed, or STACK_OVERFLOW when empty. */
  function Topped(s: seq<Value>): (Status, Option<Value>)
  {
    if s == [] then (STACK_OVERFLOW, None) else (OK, Some(s[|s| - 1]))
  }

  /** `glacierStackPop`: the last value pushed and the stack without it. */
  function Popped(s: seq<Value>): (Status, Option<Value>, seq<Value>)
  {
    if s == [] then (STACK_OVERFLOW, None, s) else (OK, Some(s[|s| - 1]), s[..|s| - 1])
  }

  /**
   * Last in, first out: a push that succeeds is undone by the next pop,
   * which returns the value pushed; a push fails only on a full stack and
   * then changes nothing.
   */
  lemma PushThenPop(s: seq<Value>, v: Value)
    requires |s| <= MAX_STACK_SIZE
    ensures Pushed(s, v).0 == OK <==> |s| < MAX_STACK_SIZE
    ensures Pushed(s, v).0 == OK ==> Popped(Pushed(s, v).1) == (OK, Some(v), s)
    ensures Pushed(s, v).0 != OK ==> Pushed(s, v) == (STACK_OVERFLOW, s)
  {
    assert (s + [v])[..|s|] == s;
  }

  /** Top reads what Pop would return and changes nothing; both fail exactly on an empty stack. */
  lemma TopIsPopWithoutRemoval(s: seq<Value>)
    ensures Topped(s) == (Popped(s).0, Popped(s).1)
    ensures Popped(s).0 == OK <==> s != []
    ensures Popped(s).0 == OK ==> Popped(s).2 + [Popped(s).1.value] == s
  {
  }

  /** Values popped one by one come off in reverse push order. */
  function PopN(s: seq<Value>, n: nat): (r: (Status, seq<Value>, seq<Value>))
    ensures |r.2| <= |s|
  {
    if n == 0 then (OK, [], s)
    else
      var (st, v, rest) := Popped(s);
      if st != OK then (st, [], s)
      else
        var (st2, vs, rest2) := PopN(rest, n - 1);
        (st2, [v.value] + vs, rest2)
  }

  /**
   * PopN as a loop sees it: with `popped` taken so far and `k` pops to go,
   * one more pop either fails, which ends the whole at what was taken, or
   * moves its value to the end of `popped`.
   */
  lemma PopNOneMore(whole: (Status, seq<Value>, seq<Value>), popped: seq<Value>, s: seq<Value>, k: nat)
    requires k > 0 && whole == (PopN(s, k).0, popped + PopN(s, k).1, PopN(s, k).2)
    ensures Popped(s).0 != OK ==> whole == (Popped(s).0, popped, s)
    ensures Popped(s).0 == OK ==>
      var p := PopN(Popped(s).2, k - 1);
      whole == (p.0, (popped + [Popped(s).1.value]) + p.1, p.2)
  {
    if Popped(s).0 == OK {
      var p := PopN(Popped(s).2, k - 1);
      assert popped + ([Popped(s).1.value] + p.1) == (popped + [Popped(s).1.value]) + p.1;
    } else {
      assert popped + [] == popped;
    }
  }

  /** With no pops to go, the whole is what was taken. */
  lemma PopNNoMore(whole: (Status, seq<Value>, seq<Value>), popped: seq<Value>, s: seq<Value>)
    requires whole == (PopN(s, 0).0, popped + PopN(s, 0).1, PopN(s, 0).2)
    ensures whole == (OK, popped, s)
  {
    assert popped + [] == popped;
  }

  /** n pops from a stack of at least n values return its top n values newest first, and leave the rest. */
  lemma {:induction false} PopNSpec(s: seq<Value>, n: nat)
    requires n <= |s|
    ensures PopN(s, n) == (OK, Reverse(s[|s| - n..]), s[..|s| - n])
    decreases n
  {
    if n > 0 {
      var t := s[..|s| - 1];
      assert Popped(s) == (OK, Some(s[|s| - 1]), t);
      PopNSpec(t, n - 1);
      assert t[..|t| - (n - 1)] == s[..|s| - n];
      assert s[|s| - n..] == t[|t| - (n - 1)..] + [s[|s| - 1]];
      ReverseSnoc(t[|t| - (n - 1)..], s[|s| - 1]);
      assert PopN(s, n) == (OK, [s[|s| - 1]] + PopN(t, n - 1).1, PopN(t, n - 1).2);
      assert [s[|s| - 1]] + Reverse(t[|t| - (n - 1)..]) == Reverse(s[|s| - n..]);
    } else {
      assert s[|s|..] == [] && Reverse<Value>([]) == [];
      assert PopN(s, 0) == (OK, [], s);
      assert s[..|s|] == s;
    }
  }

  /** `GlacierStack`: `data[MAX_STACK_SIZE]` and `stackPointer`. */
  class OperandStack {
    const data: array<Value>
    var stackPointer: nat

    ghost predicate Valid()
      reads this
    {
      data.Length == MAX_STACK_SIZE && stackPointer <= MAX_STACK_SIZE
    }

    /** The values held, bottom first. */
    function Contents(): seq<Value>
      reads this, data
      requires Valid()
    {
      data[..stackPointer]
    }

    /** The storage and `glacierStackInit`: an empty stack. */
    constructor ()
      ensures Valid() && Contents() == [] && fresh(data)
    {
      data := new Value[MAX_STACK_SIZE](_ => IntVal(0));
      stackPointer := 0;
    }

    /** `glacierStackPush`. */
    method Push(v: Value) returns (status: Status)
      requires Valid()
      modifies this, data
      ensures Valid()
      ensures (status, Contents()) == Pushed(old(Contents()), v)
    {
      if stackPointer >= MAX_STACK_SIZE {
        return STACK_OVERFLOW;
      }
      data[stackPointer] := v;
      stackPointer := stackPointer + 1;
      assert data[..stackPointer] == old(data[..stackPointer]) + [v];
      status := OK;
    }

    /** `glacierStackTop`. */
    method Top() returns (status: Status, v: Option<Value>)
      requires Valid()
      ensures (status, v) == Topped(Contents())
    {
      if stackPointer == 0 {
        return STACK_OVERFLOW, None;
      }
      v := Some(data[stackPointer - 1]);
      status := OK;
    }

    /** `glacierStackPop`, always asking for the value. */
    method Pop() returns (status: Status, v: Option<Value>)
      requires Valid()
      modifies this
      ensures Valid()
      ensures (status, v, Contents()) == Popped(old(Contents()))
    {
      if stackPointer == 0 {
        return STACK_OVERFLOW, None;
      }
      status, v := Top();
      assert data[..stackPointer - 1] == data[..stackPointer][..stackPointer - 1];
      stackPointer := stackPointer - 1;
    }
  }

  /** `GlacierCallStackFrame`: the offset to return to and the bindings. */
  datatype Frame<T> = Frame(bcOffset: int, numBindings: int, bindings: seq<T>)

  /** `glacierCallStackFrameInit`: every binding unset. */
  function FreshFrame<T>(bcOffset: int, unset: T): Frame<T>
  {
    Frame(bcOffset, 0, Repeat(unset, MAX_FRAME_BINDINGS))
  }

  /** Every frame has its MAX_FRAME_BINDINGS slots. */
  predicate FramesSound<T>(fs: seq<Frame<T>>)
  {
    forall k :: 0 <= k < |fs| ==> |fs[k].bindings| == MAX_FRAME_BINDINGS
  }

  /** `glacierCallStackPush` on the frames in use. */
  function CsPushed<T>(fs: seq<Frame<T>>, bcOffset: int, unset: T): (Status, seq<Frame<T>>)
  {
    if |fs| >= MAX_STACK_SIZE then (STACK_OVERFLOW, fs) else (OK, fs + [FreshFrame(bcOffset, unset)])
  }

  /** `glacierCallStackPop`: only the pointer moves. */
  function CsPopped<T>(fs: seq<Frame<T>>): (Status, seq<Frame<T>>)
  {
    if fs == [] then (STACK_OVERFLOW, fs) else (OK, fs[..|fs| - 1])
  }

  /** `glacierCallStackGetByteCodeOffset`: the top frame's return offset. */
  function CsOffset<T>(fs: seq<Frame<T>>): (Status, int)
  {
    if fs == [] then (STACK_OVERFLOW, 0) else (OK, fs[|fs| - 1].bcOffset)
  }

  /** `glacierCallStackGet`: a binding of the top frame; an unset one is ERROR. */
  function CsGot<T(==)>(fs: seq<Frame<T>>, id: int, unset: T): (Status, Option<T>)
    requires FramesSound(fs)
  {
    if fs == [] then (STACK_OVERFLOW, None)
    else if id < 0 || id >= MAX_FRAME_BINDINGS then (OUT_OF_BUFFER, None)
    else if fs[|fs| - 1].bindings[id] == unset then (ERROR, None)
    else (OK, Some(fs[|fs| - 1].bindings[id]))
  }

  /** `glacierCallStackSet`: a binding of the top frame. */
  function CsSet<T>(fs: seq<Frame<T>>, id: int, v: T): (Status, seq<Frame<T>>)
    requires FramesSound(fs)
  {
    if fs == [] then (STACK_OVERFLOW, fs)
    else if id < 0 || id >= MAX_FRAME_BINDINGS then (OUT_OF_BUFFER, fs)
    else
      var top := fs[|fs| - 1];
      (OK, fs[|fs| - 1 := top.(bindings := top.bindings[id := v])])
  }

  /**
   * Bindings belong to the top frame: after a Set that succeeds, Get of that
   * id returns the value (unless it is the unset marker), every other id and
   * every frame below keep theirs, and the return offsets do not change.
   */
  lemma SetThenGet<T>(fs: seq<Frame<T>>, id: int, v: T, other: int, unset: T)
    requires FramesSound(fs) && CsSet(fs, id, v).0 == OK
    ensures var fs' := CsSet(fs, id, v).1;
      FramesSound(fs') && |fs'| == |fs| && fs'[..|fs| - 1] == fs[..|fs| - 1] &&
      CsOffset(fs') == CsOffset(fs) &&
      (v != unset ==> CsGot(fs', id, unset) == (OK, Some(v))) &&
      (other != id ==> CsGot(fs', other, unset) == CsGot(fs, other, unset))
  {
  }

  /**
   * A pushed frame has every binding unset and the given return offset,
   * and popping it gives back the frames below.
   */
  lemma PushedFrameIsFresh<T>(fs: seq<Frame<T>>, bcOffset: int, id: int, unset: T)
    requires FramesSound(fs) && CsPushed(fs, bcOffset, unset).0 == OK && 0 <= id < MAX_FRAME_BINDINGS
    ensures var fs' := CsPushed(fs, bcOffset, unset).1;
      FramesSound(fs') && CsGot(fs', id, unset) == (ERROR, None) &&
      CsOffset(fs') == (OK, bcOffset) && CsPopped(fs') == (OK, fs)
  {
    assert (fs + [FreshFrame(bcOffset, unset)])[..|fs|] == fs;
  }

  /**
   * `GlacierCallStack`: `frames[MAX_STACK_SIZE]` and `stackPointer`. The
   * bindings are generic (vm/VM.c stores values in them where vm/Stack.c
   * declares `int`); `unset` is the marker an unset binding holds, -1 in
   * the C code.
   */
  class CallStack<T(==)> {
    const frames: array<Frame<T>>
    var stackPointer: nat
    const unset: T

    ghost predicate Valid()
      reads this, frames
    {
      frames.Length == MAX_STACK_SIZE && stackPointer <= MAX_STACK_SIZE && FramesSound(frames[..])
    }

    /** The frames in use, oldest first. */
    function Frames(): seq<Frame<T>>
      reads this, frames
      requires Valid()
    {
      frames[..stackPointer]
    }

    /** The storage and `glacierCallStackInit`: no frame in use, every frame initialised with offset -1. */
    constructor (unset: T)
      ensures Valid() && Frames() == [] && this.unset == unset && fresh(frames)
      ensures forall k :: 0 <= k < MAX_STACK_SIZE ==> frames[k] == FreshFrame(-1, unset)
    {
      this.unset := unset;
      frames := new Frame<T>[MAX_STACK_SIZE](_ => Frame(0, 0, Repeat(unset, MAX_FRAME_BINDINGS)));
      stackPointer := 0;
      new;
      var i := 0;
      while i < MAX_STACK_SIZE
        invariant 0 <= i <= MAX_STACK_SIZE && Valid() && stackPointer == 0
        invariant forall k :: 0 <= k < i ==> frames[k] == FreshFrame(-1, unset)
      {
        FrameInit(i, -1);
        i := i + 1;
      }
    }

    /** `glacierCallStackFrameInit` on frame k: the offset, no bindings counted, every binding unset. */
    method FrameInit(k: nat, bcOffset: int)
      requires Valid() && k < MAX_STACK_SIZE
      modifies frames
      ensures Valid() && frames[k] == FreshFrame(bcOffset, unset)
      ensures forall j :: 0 <= j < MAX_STACK_SIZE && j != k ==> frames[j] == old(frames[j])
    {
      frames[k] := frames[k].(bcOffset := bcOffset, numBindings := 0);
      var i := 0;
      while i < MAX_FRAME_BINDINGS
        invariant 0 <= i <= MAX_FRAME_BINDINGS && Valid()
        invariant frames[k].bcOffset == bcOffset && frames[k].numBindings == 0
        invariant forall b :: 0 <= b < i ==> frames[k].bindings[b] == unset
        invariant forall j :: 0 <= j < MAX_STACK_SIZE && j != k ==> frames[j] == old(frames[j])
      {
        frames[k] := frames[k].(bindings := frames[k].bindings[i := unset]);
        i := i + 1;
      }
      assert frames[k].bindings == Repeat(unset, MAX_FRAME_BINDINGS);
    }

    /** `glacierCallStackPush`. */
    method Push(bcOffset: int) returns (status: Status)
      requires Valid()
      modifies this, frames
      ensures Valid()
      ensures (status, Frames()) == CsPushed(old(Frames()), bcOffset, unset)
    {
      if stackPointer >= MAX_STACK_SIZE {
        return STACK_OVERFLOW;
      }
      FrameInit(stackPointer, bcOffset);
      stackPointer := stackPointer + 1;
      assert frames[..stackPointer] == old(frames[..stackPointer]) + [FreshFrame(bcOffset, unset)];
      status := OK;
    }

    /** `glacierCallStackPop`. */
    method Pop() returns (status: Status)
      requires Valid()
      modifies this
      ensures Valid()
      ensures (status, Frames()) == CsPopped(old(Frames()))
    {
      if stackPointer == 0 {
        return STACK_OVERFLOW;
      }
      assert frames[..stackPointer - 1] == frames[..stackPointer][..stackPointer - 1];
      stackPointer := stackPointer - 1;
      status := OK;
    }

    /** `glacierCallStackGet`. */
    method Get(id: int) returns (status: Status, v: Option<T>)
      requires Valid()
      ensures (status, v) == CsGot(Frames(), id, unset)
    {
      if stackPointer == 0 {
        return STACK_OVERFLOW, None;
      }
      if id < 0 || id >= MAX_FRAME_BINDINGS {
        return OUT_OF_BUFFER, None;
      }
      var temp := frames[stackPointer - 1].bindings[id];
      if temp == unset {
        return ERROR, None;
      }
      v := Some(temp);
      status := OK;
    }

    /** `glacierCallStackGetByteCodeOffset`. */
    method GetByteCodeOffset() returns (status: Status, bcOffset: int)
      requires Valid()
      ensures (status, bcOffset) == CsOffset(Frames())
    {
      if stackPointer == 0 {
        return STACK_OVERFLOW, 0;
      }
      bcOffset := frames[stackPointer - 1].bcOffset;
      status := OK;
    }

    /** `glacierCallStackSet`. */
    method Set(id: int, v: T) returns (status: Status)
      requires Valid()
      modifies frames
      ensures Valid()
      ensures (status, Frames()) == CsSet(old(Frames()), id, v)
    {
      if stackPointer == 0 {
        return STACK_OVERFLOW;
      }
      if id < 0 || id >= MAX_FRAME_BINDINGS {
        return OUT_OF_BUFFER;
      }
      var top := frames[stackPointer - 1];
      frames[stackPointer - 1] := top.(bindings := top.bindings[id := v]);
      assert frames[..stackPointer] == old(frames[..stackPointer])[stackPointer - 1 := top.(bindings := top.bindings[id := v])];
      status := OK;
    }
  }
}
