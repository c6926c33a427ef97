/** Bytes, flattening of chunk lists and bounded tails: the vocabulary every other module shares. */
module Bytes {
  type Byte = x: int | 0 <= x < 256

  /** Go's `int` and `int64` on a 64-bit machine. */
  type Int64 = x: int | -0x8000_0000_0000_0000 <= x < 0x8000_0000_0000_0000

  /** The concatenation of a list of parts, defined from the end because every log here grows at the end. */
  function Flatten<T>(parts: seq<seq<T>>): (all: seq<T>)
  {
    if parts == [] then [] else Flatten(parts[..|parts| - 1]) + parts[|parts| - 1]
  }

  lemma FlattenSnoc<T>(parts: seq<seq<T>>, last: seq<T>)
    ensures Flatten(parts + [last]) == Flatten(parts) + last
  {
    assert (parts + [last])[..|parts|] == parts;
  }

  lemma {:induction false} FlattenAppend<T>(a: seq<seq<T>>, b: seq<seq<T>>)
    ensures Flatten(a + b) == Flatten(a) + Flatten(b)
  {
    if b == [] {
      assert a + b == a;
    } else {
      var b0, last := b[..|b| - 1], b[|b| - 1];
      assert b == b0 + [last] && a + b == (a + b0) + [last];
      FlattenSnoc(a + b0, last);
      FlattenAppend(a, b0);
    }
  }

  /** The last `n` elements of `s`, or all of it when there are fewer. */
  function Tail<T>(s: seq<T>, n: nat): (t: seq<T>)
    ensures |t| == if |s| <= n then |s| else n
    ensures t == s[|s| - |t|..]
  {
    if |s| <= n then s else s[|s| - n..]
  }

  lemma TailAbsorbs<T>(a: seq<T>, b: seq<T>, n: nat)
    ensures Tail(Tail(a, n) + b, n) == Tail(a + b, n)
  {
    var t := Tail(a, n);
    assert (a + b)[|a| - |t|..] == t + b;
  }
}
