/**
 * Python's `collections.deque(maxlen=n)` as used by the EMG receivers: appending
 * to a full deque drops the oldest element, so the deque always holds the newest
 * `maxlen` elements of everything ever appended.
 */
module BoundedDeque {
  /** The newest `n` elements of `s` (all of `s` when it is shorter). */
  function LastN<T>(s: seq<T>, n: nat): (r: seq<T>)
    ensures |r| == if |s| <= n then |s| else n
  {
    if |s| <= n then s else s[|s| - n..]
  }

  /** Appending to the newest `n` keeps the newest `n`: eviction never loses a recent element. */
  lemma LastNAppend<T>(s: seq<T>, n: nat, x: T)
    ensures LastN(LastN(s, n) + [x], n) == LastN(s + [x], n)
  {
    var t := LastN(s, n);
    if |s| + 1 > n && n > 0 {
      assert (s + [x])[|s| + 1 - n..] == s[|s| + 1 - n..] + [x];
      if |s| <= n {
        assert t + [x] == s + [x];
      } else {
        assert (t + [x])[|t| + 1 - n..] == t[1..] + [x];
        assert t[1..] == s[|s| + 1 - n..];
      }
    }
  }

  /** The newest `m` of the newest `n` are the newest `m`, when `m <= n`. */
  lemma LastNLastN<T>(s: seq<T>, n: nat, m: nat)
    requires m <= n
    ensures LastN(LastN(s, n), m) == LastN(s, m)
  {
  }

  class Deque<T> {
    /** The `maxlen` the deque was created with. */
    const maxlen: nat
    /** The elements held, oldest first. */
    var items: seq<T>
    /** Every element ever appended, oldest first. */
    ghost var history: seq<T>

    ghost predicate Valid()
      reads this
    {
      items == LastN(history, maxlen)
    }

    constructor (maxlen: nat)
      ensures Valid()
      ensures this.maxlen == maxlen && items == [] && history == []
    {
      this.maxlen := maxlen;
      items := [];
      history := [];
    }

    /** `deque.append(x)`: add `x` at the right end, dropping the leftmost element when full. */
    method Append(x: T)
      requires Valid()
      modifies this
      ensures Valid()
      ensures history == old(history) + [x]
      ensures items == if |old(items)| < maxlen then old(items) + [x] else (old(items) + [x])[1..]
    {
      LastNAppend(history, maxlen, x);
      if |items| < maxlen {
        items := items + [x];
      } else {
        items := (items + [x])[1..];
      }
      history := history + [x];
    }
  }

  /** A valid deque never holds more than `maxlen` elements, and holds everything while not full. */
  lemma DequeBounds<T>(d: Deque<T>)
    requires d.Valid()
    ensures |d.items| <= d.maxlen
    ensures |d.history| <= d.maxlen ==> d.items == d.history
    ensures |d.history| >= d.maxlen ==> |d.items| == d.maxlen
  {
  }
}
