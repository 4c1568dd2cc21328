/** Facts about slicing and concatenating sequences, proved once in a small
    context so that the proofs that use them need not prove sequence
    equalities among their own quantified facts. */
module Seqs {
  lemma TakeDropAppend<T>(a: seq<T>, n: nat, b: seq<T>)
    requires n <= |a|
    ensures a[..n] + (a[n..] + b) == a + b
  {
    assert a[..n] + a[n..] == a;
  }

  lemma SliceOfAppend<T>(a: seq<T>, n: nat, b: seq<T>)
    requires n <= |a|
    ensures (a + b)[..n] == a[..n]
    ensures (a + b)[n..] == a[n..] + b
  {
  }

  lemma ConsTail<T>(s: seq<T>)
    requires s != []
    ensures [s[0]] + s[1..] == s
  {
  }

  lemma TailOfAppend<T>(a: seq<T>, b: seq<T>)
    requires a != []
    ensures (a + b)[1..] == a[1..] + b
    ensures (a + b)[0] == a[0]
  {
  }

  lemma LastOfDrop<T>(a: seq<T>, n: nat)
    requires n < |a|
    ensures a[n..][|a[n..]| - 1] == a[|a| - 1]
  {
  }

  lemma AppendAssoc<T>(a: seq<T>, b: seq<T>, c: seq<T>)
    ensures a + (b + c) == (a + b) + c
  {
  }

  lemma SliceCons<T>(s: seq<T>, i: nat, j: nat)
    requires i < j <= |s|
    ensures s[i..j] == [s[i]] + s[i + 1..j]
  {
  }

  lemma DropCons<T>(s: seq<T>, i: nat)
    requires i < |s|
    ensures s[i..][0] == s[i] && s[i..][1..] == s[i + 1..]
  {
  }

  lemma DropSlices<T>(s: seq<T>, i: nat, n: nat)
    requires i + n <= |s|
    ensures s[i..][..n] == s[i..i + n] && s[i..][n..] == s[i + n..]
  {
  }

  lemma ConsAppend<T>(c: T, x: seq<T>)
    ensures ([c] + x)[0] == c && ([c] + x)[1..] == x
  {
  }

  lemma TakeAll<T>(a: seq<T>)
    ensures a[..|a|] == a && a + [] == a
  {
  }

  lemma ConsEq<T>(a: T, x: seq<T>, b: T, y: seq<T>)
    ensures [a] + x == [b] + y <==> a == b && x == y
  {
    if [a] + x == [b] + y {
      ConsAppend(a, x);
      ConsAppend(b, y);
    }
  }

  lemma TakeDrop<T>(s: seq<T>, n: nat)
    requires n <= |s|
    ensures s[..n] + s[n..] == s
  {
  }

  /** A suffix of `s` is the same suffix of `s` without its last element,
      followed by that element. */
  lemma SuffixSnoc<T>(s: seq<T>, k: nat)
    requires 0 < k <= |s|
    ensures s[|s| - k..] == s[..|s| - 1][|s| - k..] + [s[|s| - 1]]
  {
  }

  /** Cutting `k` elements off the end of a suffix of `s`. */
  lemma DropThenCut<T>(s: seq<T>, a: nat, k: nat)
    requires a + k <= |s|
    ensures s[a..][..|s[a..]| - k] == s[a..|s| - k]
    ensures s[a..][|s[a..]| - k..] == s[|s| - k..]
  {
  }
}
