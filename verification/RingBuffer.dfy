/** ringBuf of internal/agent/agent.go: the tail of everything a process wrote to stderr. */
module RingBuffer {
  function Last<T>(s: seq<T>, n: nat): (r: seq<T>) {
    if |s| <= n then s else s[|s| - n..]
  }

  /** Only the tail of the past matters for the tail of the future. */
  lemma LastOfLast<T>(s: seq<T>, more: seq<T>, n: nat)
    ensures Last(Last(s, n) + more, n) == Last(s + more, n)
  {
    if |s| > n {
      assert s + more == s[..|s| - n] + (s[|s| - n..] + more);
    }
  }

  class RingBuf {
    var data: seq<char>
    const cap: nat
    /** Everything ever written. */
    ghost var written: seq<char>

    ghost predicate Valid()
      reads this
    {
      data == Last(written, cap)
    }

    constructor (capacity: nat)
      ensures Valid() && cap == capacity && written == []
    {
      cap, data, written := capacity, [], [];
    }

    method Write(p: seq<char>) returns (n: nat)
      requires Valid()
      modifies this
      ensures Valid() && written == old(written) + p && n == |p|
    {
      LastOfLast(written, p, cap);
      data := data + p;
      if |data| > cap {
        data := data[|data| - cap..];
      }
      written := written + p;
      n := |p|;
    }
  }

  /** The tail is the end of what was written, as much of it as fits. */
  lemma LastIs<T>(s: seq<T>, n: nat)
    ensures |Last(s, n)| == (if |s| < n then |s| else n) && s[|s| - |Last(s, n)|..] == Last(s, n)
  {
  }
}
