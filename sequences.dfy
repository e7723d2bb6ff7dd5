/** Generic sequence operations behind the storage tube's unloading order and the
    waiting list's `remove`. */
module Sequences {

  /** `s` back to front. */
  function Reverse<T>(s: seq<T>): (r: seq<T>)
    ensures |r| == |s|
  {
    if s == [] then [] else [s[|s| - 1]] + Reverse(s[..|s| - 1])
  }

  lemma {:induction false} ReverseAt<T>(s: seq<T>, i: nat)
    requires i < |s|
    ensures Reverse(s)[i] == s[|s| - 1 - i]
  {
    if i > 0 {
      ReverseAt(s[..|s| - 1], i - 1);
    }
  }

  /** Reversal rearranges and neither adds nor drops elements. */
  lemma {:induction false} ReversePermutes<T>(s: seq<T>)
    ensures multiset(Reverse(s)) == multiset(s)
  {
    if s != [] {
      ReversePermutes(s[..|s| - 1]);
      assert s == s[..|s| - 1] + [s[|s| - 1]];
    }
  }

  /** Position of the first occurrence of `x` in `s`. */
  function IndexOf<T(==)>(s: seq<T>, x: T): (i: nat)
    requires x in s
    ensures i < |s| && s[i] == x && x !in s[..i]
  {
    if s[0] == x then 0
    else
      assert s == [s[0]] + s[1..];
      1 + IndexOf(s[1..], x)
  }

  /** `s` without its first occurrence of `x`, as `java.util.List.remove(Object)` does;
      `s` itself when `x` does not occur. */
  function RemoveFirst<T(==)>(s: seq<T>, x: T): (r: seq<T>)
    ensures |r| == if x in s then |s| - 1 else |s|
  {
    if s == [] then []
    else if s[0] == x then s[1..]
    else
      assert s == [s[0]] + s[1..];
      [s[0]] + RemoveFirst(s[1..], x)
  }

  /** Removing an absent element is a no-op. */
  lemma {:induction false} RemoveFirstAbsent<T>(s: seq<T>, x: T)
    requires x !in s
    ensures RemoveFirst(s, x) == s
  {
    if s != [] {
      assert s == [s[0]] + s[1..];
      RemoveFirstAbsent(s[1..], x);
    }
  }

  /** Removing a present element cuts out exactly its first occurrence; the others keep
      their order (`RemoveAtSlices`). */
  lemma {:induction false} RemoveFirstPresent<T>(s: seq<T>, x: T)
    requires x in s
    ensures RemoveFirst(s, x) == RemoveAt(s, IndexOf(s, x))
  {
    if s[0] != x {
      assert x in s[1..] by {
        assert s == [s[0]] + s[1..];
      }
      RemoveFirstPresent(s[1..], x);
    }
  }

  /** The multiset view: one copy of `x` fewer. */
  lemma {:induction false} RemoveFirstMultiset<T>(s: seq<T>, x: T)
    ensures multiset(RemoveFirst(s, x)) == multiset(s) - multiset{x}
  {
    if s != [] {
      assert s == [s[0]] + s[1..];
      if s[0] != x {
        RemoveFirstMultiset(s[1..], x);
      }
    }
  }

  /** Removing an element just appended, and found nowhere before, restores the sequence. */
  lemma {:induction false} RemoveFirstAfterAppend<T>(s: seq<T>, x: T)
    requires x !in s
    ensures RemoveFirst(s + [x], x) == s
  {
    if s != [] {
      assert (s + [x])[0] == s[0] && (s + [x])[1..] == s[1..] + [x];
      RemoveFirstAfterAppend(s[1..], x);
      assert s == [s[0]] + s[1..];
    } else {
      assert [] + [x] == [x];
    }
  }

  /** `s` without its element at `k`: what `ListIterator.remove` does to the list after
      `next` returned that element. */
  function RemoveAt<T>(s: seq<T>, k: nat): (r: seq<T>)
    requires k < |s|
    ensures |r| == |s| - 1
  {
    if k == 0 then s[1..] else [s[0]] + RemoveAt(s[1..], k - 1)
  }

  lemma {:induction false} RemoveAtAt<T>(s: seq<T>, k: nat, i: nat)
    requires k < |s| && i < |s| - 1
    ensures RemoveAt(s, k)[i] == if i < k then s[i] else s[i + 1]
  {
    if k > 0 && i > 0 {
      RemoveAtAt(s[1..], k - 1, i - 1);
    }
  }

  /** The same as two slices: everything before `k` followed by everything after it. */
  lemma RemoveAtSlices<T>(s: seq<T>, k: nat)
    requires k < |s|
    ensures RemoveAt(s, k) == s[..k] + s[k + 1..]
  {
    forall i | 0 <= i < |s| - 1
      ensures RemoveAt(s, k)[i] == (s[..k] + s[k + 1..])[i]
    {
      RemoveAtAt(s, k, i);
    }
  }

  /** If the tail of `s` splits into `a` and `b`, then `s` splits into `[s[0]] + a` and
      `b`. */
  lemma HeadSplitsLeft<T>(s: seq<T>, a: seq<T>, b: seq<T>)
    requires s != [] && multiset(s[1..]) == multiset(a) + multiset(b)
    ensures multiset(s) == multiset([s[0]] + a) + multiset(b)
  {
    assert s == [s[0]] + s[1..];
    assert multiset([s[0]] + a) == multiset{s[0]} + multiset(a);
  }

  /** If the tail of `s` splits into `a` and `b`, then `s` splits into `a` and
      `[s[0]] + b`. */
  lemma HeadSplitsRight<T>(s: seq<T>, a: seq<T>, b: seq<T>)
    requires s != [] && multiset(s[1..]) == multiset(a) + multiset(b)
    ensures multiset(s) == multiset(a) + multiset([s[0]] + b)
  {
    assert s == [s[0]] + s[1..];
    assert multiset([s[0]] + b) == multiset{s[0]} + multiset(b);
  }

  /** If `s` splits into `a` and `b`, then `s` with `t` splits into `a` and `t + b`. */
  lemma SplitsWithPrefix<T>(s: seq<T>, t: seq<T>, a: seq<T>, b: seq<T>)
    requires multiset(s) == multiset(a) + multiset(b)
    ensures multiset(s) + multiset(t) == multiset(a) + multiset(t + b)
  {
    assert multiset(t + b) == multiset(t) + multiset(b);
  }

  /** Splitting `s` after its first element: the first `j + 1` elements are `s[0]` and
      the first `j` of the tail, and what follows them is the tail from `j` on. */
  lemma TakeCons<T>(s: seq<T>, j: nat)
    requires j < |s|
    ensures s[..j + 1] != [] && s[..j + 1][0] == s[0] && s[..j + 1][1..] == s[1..][..j]
    ensures s[j + 1..] == s[1..][j..]
  {
  }

  lemma ConsAssoc<T>(x: T, a: seq<T>, b: seq<T>)
    ensures ([x] + a) + b == [x] + (a + b)
  {
  }

  /** `a` is `b` with some elements left out and the others in their order. */
  predicate Subsequence<T(==)>(a: seq<T>, b: seq<T>)
    decreases |b|
  {
    a == [] || (b != [] && ((a[0] == b[0] && Subsequence(a[1..], b[1..])) || Subsequence(a, b[1..])))
  }

  lemma {:induction false} SubsequenceRefl<T>(s: seq<T>)
    ensures Subsequence(s, s)
    decreases |s|
  {
    if s != [] {
      SubsequenceRefl(s[1..]);
    }
  }

  /** Keeping the first element of `s` in front of a subsequence of its tail. */
  lemma SubsequenceHead<T>(a: seq<T>, s: seq<T>)
    requires s != [] && Subsequence(a, s[1..])
    ensures Subsequence([s[0]] + a, s)
  {
    assert ([s[0]] + a)[0] == s[0] && ([s[0]] + a)[1..] == a;
  }

  /** Leaving out the first element of `s`. */
  lemma SubsequenceTail<T>(a: seq<T>, s: seq<T>)
    requires s != [] && Subsequence(a, s[1..])
    ensures Subsequence(a, s)
  {
  }

  lemma SubsequenceCons<T>(x: T, a: seq<T>, b: seq<T>)
    requires Subsequence(a, b)
    ensures Subsequence([x] + a, [x] + b)
  {
    assert ([x] + a)[0] == x && ([x] + a)[1..] == a && ([x] + b)[1..] == b;
  }

  lemma SubsequenceDrop<T>(x: T, a: seq<T>, b: seq<T>)
    requires Subsequence(a, b)
    ensures Subsequence(a, [x] + b)
  {
    assert ([x] + b)[1..] == b;
  }

  lemma {:induction false} SubsequenceTransitive<T>(a: seq<T>, b: seq<T>, c: seq<T>)
    requires Subsequence(a, b) && Subsequence(b, c)
    ensures Subsequence(a, c)
    decreases |c|
  {
    if a != [] {
      if b[0] == c[0] && Subsequence(b[1..], c[1..]) {
        if a[0] == b[0] && Subsequence(a[1..], b[1..]) {
          SubsequenceTransitive(a[1..], b[1..], c[1..]);
        } else {
          SubsequenceTransitive(a, b[1..], c[1..]);
        }
      } else {
        SubsequenceTransitive(a, b, c[1..]);
      }
    }
  }

  /** The first `n` elements of `s`, or all of `s` when it is shorter. */
  function Prefix<T>(s: seq<T>, n: nat): (r: seq<T>)
    ensures |r| == if n < |s| then n else |s|
  {
    if n < |s| then s[..n] else s
  }
}
