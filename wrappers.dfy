/** Small shared vocabulary: optional values, results, and bytes. */
module Wrappers {

  datatype Option<+T> = None | Some(value: T)

  datatype Result<+T, +E> = Ok(value: T) | Err(error: E) {
    predicate IsFailure() { Err? }

    function PropagateFailure<U>(): Result<U, E>
      requires Err?
    {
      Err(error)
    }

    function Extract(): T
      requires Ok?
    {
      value
    }
  }

  /**
   * The exceptions the compiler's passes raise or run into: a bytearray
   * value outside 0..255 (ValueError) or index out of range (IndexError),
   * the passes' own TypeError and RuntimeError, a failed `assert`, a
   * missing attribute or a call of a non-callable (AttributeError), and a
   * missing dict key (KeyError), and a walk nested deeper than the
   * interpreter's recursion limit (RecursionError).
   */
  datatype PyError = ValueError | IndexError | TypeError | RuntimeError | AssertionError | AttributeError | KeyError | RecursionError

  /** A byte as Python's bytearray and C's uint8_t hold it. */
  type Byte = b: int | 0 <= b < 256

  predicate IsByte(x: int) { 0 <= x < 256 }

  predicate AllBytes(xs: seq<int>) { forall i :: 0 <= i < |xs| ==> IsByte(xs[i]) }

  function Repeat<T>(x: T, n: nat): (r: seq<T>)
    ensures |r| == n && forall i :: 0 <= i < n ==> r[i] == x
  {
    if n == 0 then [] else Repeat(x, n - 1) + [x]
  }

  function Reverse<T>(s: seq<T>): (r: seq<T>)
    ensures |r| == |s|
    ensures forall i :: 0 <= i < |s| ==> r[i] == s[|s| - 1 - i]
  {
    if s == [] then [] else Reverse(s[1..]) + [s[0]]
  }

  /** Reversing puts a last element first. */
  lemma ReverseSnoc<T>(x: seq<T>, y: T)
    ensures Reverse(x + [y]) == [y] + Reverse(x)
  {
    assert forall i :: 0 < i <= |x| ==> ([y] + Reverse(x))[i] == x[|x| - i];
  }

  /** Reversing puts the last element first, then the front reversed. */
  lemma {:induction false} ReverseLast<T>(s: seq<T>)
    requires s != []
    ensures Reverse(s) == [s[|s| - 1]] + Reverse(s[..|s| - 1])
    decreases |s|
  {
    if |s| > 1 {
      var front := s[..|s| - 1];
      ReverseLast(s[1..]);
      assert s[1..][..|s| - 2] == front[1..];
      assert Reverse(front) == Reverse(front[1..]) + [s[0]];
    }
  }

  /** Reversing twice gives the sequence back. */
  lemma ReverseReverse<T>(s: seq<T>)
    ensures Reverse(Reverse(s)) == s
  {
    assert forall i :: 0 <= i < |s| ==> Reverse(Reverse(s))[i] == s[i];
  }

  function Concat<T>(ss: seq<seq<T>>): seq<T>
  {
    if ss == [] then [] else ss[0] + Concat(ss[1..])
  }

  lemma {:induction false} ConcatAppend<T>(ss: seq<seq<T>>, s: seq<T>)
    ensures Concat(ss + [s]) == Concat(ss) + s
  {
    if ss == [] {
      assert ss + [s] == [s];
    } else {
      assert (ss + [s])[1..] == ss[1..] + [s];
      ConcatAppend(ss[1..], s);
    }
  }
}

/**
 * A Python dict whose iteration order matters: the (key, value) pairs in
 * insertion order. Storing under a key already present replaces the value
 * in place and keeps the key's position; a new key goes at the end.
 */
module Dicts {
  import opened Wrappers

  /** The value of the first pair with key k, as `d.get(k)`. */
  function Get<K(==, !new), V>(d: seq<(K, V)>, k: K): Option<V>
  {
    if d == [] then None else if d[0].0 == k then Some(d[0].1) else Get(d[1..], k)
  }

  /** `d[k] = v`. */
  function Put<K(==, !new), V>(d: seq<(K, V)>, k: K, v: V): (r: seq<(K, V)>)
    ensures Get(r, k) == Some(v)
    ensures forall j :: j != k ==> Get(r, j) == Get(d, j)
    ensures |r| == if Get(d, k).Some? then |d| else |d| + 1
    ensures forall i :: 0 <= i < |d| ==> r[i].0 == d[i].0
    ensures Get(d, k).None? ==> r == d + [(k, v)]
  {
    if d == [] then [(k, v)]
    else if d[0].0 == k then [(k, v)] + d[1..]
    else [d[0]] + Put(d[1..], k, v)
  }

  /** No key occurs twice, as in any dict. */
  predicate DistinctKeys<K(==, !new), V>(d: seq<(K, V)>)
  {
    forall i, j :: 0 <= i < j < |d| ==> d[i].0 != d[j].0
  }

  /** Storing keeps the keys distinct. */
  lemma {:induction false} PutKeepsKeysDistinct<K(!new), V>(d: seq<(K, V)>, k: K, v: V)
    requires DistinctKeys(d)
    ensures DistinctKeys(Put(d, k, v))
  {
    if d != [] && d[0].0 != k {
      PutKeepsKeysDistinct(d[1..], k, v);
      var r := Put(d, k, v);
      assert r == [d[0]] + Put(d[1..], k, v);
      forall j | 1 <= j < |r| ensures r[j].0 != d[0].0 {
        GetFindsEveryKey(Put(d[1..], k, v), j - 1);
        if r[j].0 == k {
        } else {
          assert Get(Put(d[1..], k, v), r[j].0) == Get(d[1..], r[j].0);
          GetMissesAbsentKey(d, d[0].0);
        }
      }
    }
  }

  /** Every key stored has a value. */
  lemma {:induction false} GetFindsEveryKey<K(!new), V>(d: seq<(K, V)>, i: nat)
    requires i < |d|
    ensures Get(d, d[i].0).Some?
  {
    if i > 0 && d[0].0 != d[i].0 {
      GetFindsEveryKey(d[1..], i - 1);
    }
  }

  /** With distinct keys, the first key appears nowhere in the rest. */
  lemma GetMissesAbsentKey<K(!new), V>(d: seq<(K, V)>, k: K)
    requires DistinctKeys(d) && d != [] && d[0].0 == k
    ensures Get(d[1..], k).None?
  {
    assert forall i :: 0 <= i < |d[1..]| ==> d[1..][i].0 == d[i + 1].0;
    GetAbsent(d[1..], k);
  }

  /** A key that no pair holds has no value. */
  lemma {:induction false} GetAbsent<K(!new), V>(d: seq<(K, V)>, k: K)
    requires forall i :: 0 <= i < |d| ==> d[i].0 != k
    ensures Get(d, k).None?
  {
    if d != [] {
      GetAbsent(d[1..], k);
    }
  }

}
