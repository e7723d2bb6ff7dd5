/** The order of the pending pool: sorted by the item comparator, with items of equal key
    kept in arrival order. `Sort` is the stable sort the pool applies after every intake. */
module Ordering {
  import opened Items
  import opened Sequences

  /** Every item may stand before every later item. */
  predicate Sorted(s: seq<Item>) {
    forall i, j :: 0 <= i < j < |s| ==> Precedes(s[i], s[j])
  }

  /** The items of `s` whose key equals that of `k`, in the order of `s`. */
  function KeyFilter(s: seq<Item>, k: Item): (r: seq<Item>)
    ensures |r| <= |s|
  {
    if s == [] then []
    else if SameKey(s[0], k) then [s[0]] + KeyFilter(s[1..], k)
    else KeyFilter(s[1..], k)
  }

  /** Inserts `x` after the leading items that `x` does not outrank. On a sorted pool this
      places `x` after every item not ranked below it. */
  function Insert(s: seq<Item>, x: Item): (r: seq<Item>)
    ensures multiset(r) == multiset(s) + multiset{x}
  {
    if s == [] then [x]
    else if Compare(x, s[0]) < 0 then [x] + s
    else
      assert s == [s[0]] + s[1..];
      [s[0]] + Insert(s[1..], x)
  }

  /** Stable insertion sort by `Compare`: the result of `List.sort` with the item comparator. */
  function Sort(s: seq<Item>): (r: seq<Item>)
    ensures multiset(r) == multiset(s)
  {
    if s == [] then []
    else
      assert s == s[..|s| - 1] + [s[|s| - 1]];
      Insert(Sort(s[..|s| - 1]), s[|s| - 1])
  }

  lemma SortedCons(x: Item, t: seq<Item>)
    ensures Sorted([x] + t) <==> (forall y :: y in t ==> Precedes(x, y)) && Sorted(t)
  {
    var s := [x] + t;
    if Sorted(s) {
      forall y | y in t
        ensures Precedes(x, y)
      {
        var j :| 0 <= j < |t| && t[j] == y;
        assert s[0] == x && s[j + 1] == y;
      }
      forall i, j | 0 <= i < j < |t|
        ensures Precedes(t[i], t[j])
      {
        assert s[i + 1] == t[i] && s[j + 1] == t[j];
      }
    }
    if (forall y :: y in t ==> Precedes(x, y)) && Sorted(t) {
      forall i, j | 0 <= i < j < |s|
        ensures Precedes(s[i], s[j])
      {
        assert s[j] == t[j - 1];
        if i > 0 {
          assert s[i] == t[i - 1];
        }
      }
    }
  }

  lemma KeyFilterConcat(a: seq<Item>, b: seq<Item>, k: Item)
    ensures KeyFilter(a + b, k) == KeyFilter(a, k) + KeyFilter(b, k)
  {
    if a != [] {
      assert (a + b)[0] == a[0] && (a + b)[1..] == a[1..] + b;
      KeyFilterConcat(a[1..], b, k);
    } else {
      assert a + b == b;
    }
  }

  lemma KeyFilterMember(s: seq<Item>, k: Item, y: Item)
    requires y in KeyFilter(s, k)
    ensures y in s && SameKey(y, k)
  {
    if s != [] && y != s[0] {
      KeyFilterMember(s[1..], k, y);
    }
  }

  lemma KeyFilterNone(s: seq<Item>, k: Item)
    requires forall y :: y in s ==> !SameKey(y, k)
    ensures KeyFilter(s, k) == []
  {
    if s != [] {
      assert s[0] in s;
      KeyFilterNone(s[1..], k);
    }
  }

  /** Inserting into a sorted pool keeps it sorted. */
  lemma {:induction false} InsertSorted(s: seq<Item>, x: Item)
    requires Sorted(s)
    ensures Sorted(Insert(s, x))
  {
    if s == [] {
    } else if Compare(x, s[0]) < 0 {
      SortedCons(s[0], s[1..]);
      assert s == [s[0]] + s[1..];
      forall y | y in s
        ensures Precedes(x, y)
      {
        if y != s[0] {
          PrecedesTransitive(x, s[0], y);
        }
      }
      SortedCons(x, s);
    } else {
      assert s == [s[0]] + s[1..];
      SortedCons(s[0], s[1..]);
      InsertSorted(s[1..], x);
      var t := Insert(s[1..], x);
      forall y | y in t
        ensures Precedes(s[0], y)
      {
        assert y in multiset(t);
        if y != x {
          assert y in s[1..];
        } else {
          CompareAntisymmetric(x, s[0]);
        }
      }
      SortedCons(s[0], t);
    }
  }

  /** Inserting into a sorted pool keeps the arrival order within each key, with the new
      item last among the items of its key. */
  lemma {:induction false} InsertStable(s: seq<Item>, x: Item, k: Item)
    requires Sorted(s)
    ensures KeyFilter(Insert(s, x), k) == KeyFilter(s, k) + (if SameKey(x, k) then [x] else [])
  {
    if s == [] {
    } else if Compare(x, s[0]) < 0 {
      assert s == [s[0]] + s[1..];
      SortedCons(s[0], s[1..]);
      if SameKey(x, k) {
        forall y | y in s
          ensures !SameKey(y, k)
        {
          if y != s[0] {
            PrecedesTransitive(x, s[0], y);
          }
        }
        KeyFilterNone(s, k);
      }
      KeyFilterConcat([x], s, k);
    } else {
      assert s == [s[0]] + s[1..];
      SortedCons(s[0], s[1..]);
      InsertStable(s[1..], x, k);
    }
  }

  /** An item that no item of `s` ranks below goes to the end. */
  lemma InsertAtEnd(s: seq<Item>, x: Item)
    requires forall y :: y in s ==> Precedes(y, x)
    ensures Insert(s, x) == s + [x]
  {
    if s != [] {
      assert s[0] in s;
      CompareAntisymmetric(x, s[0]);
      InsertAtEnd(s[1..], x);
      assert s == [s[0]] + s[1..];
    }
  }

  /** The stable sort produces a sorted sequence. */
  lemma {:induction false} SortSorted(s: seq<Item>)
    ensures Sorted(Sort(s))
  {
    if s != [] {
      SortSorted(s[..|s| - 1]);
      InsertSorted(Sort(s[..|s| - 1]), s[|s| - 1]);
    }
  }

  /** The stable sort keeps the arrival order of the items of each key. */
  lemma {:induction false} SortStable(s: seq<Item>, k: Item)
    ensures KeyFilter(Sort(s), k) == KeyFilter(s, k)
  {
    if s != [] {
      var init, last := s[..|s| - 1], s[|s| - 1];
      assert Sort(s) == Insert(Sort(init), last);
      SortStable(init, k);
      SortSorted(init);
      InsertStable(Sort(init), last, k);
      assert s == init + [last];
      KeyFilterConcat(init, [last], k);
      assert [last][1..] == [];
      assert KeyFilter([last], k) == if SameKey(last, k) then [last] else [];
    }
  }

  /** A sorted sequence is its sorted front followed by an item no item of the front
      ranks below. */
  lemma SortedSnoc(s: seq<Item>)
    requires Sorted(s) && s != []
    ensures var init := s[..|s| - 1];
      && s == init + [s[|s| - 1]]
      && Sorted(init)
      && forall y :: y in init ==> Precedes(y, s[|s| - 1])
  {
    var init := s[..|s| - 1];
    forall i, j | 0 <= i < j < |init|
      ensures Precedes(init[i], init[j])
    {
      assert init[i] == s[i] && init[j] == s[j];
    }
    forall y | y in init
      ensures Precedes(y, s[|s| - 1])
    {
      var j :| 0 <= j < |init| && init[j] == y;
      assert s[j] == y;
    }
  }

  /** Sorting a sorted sequence changes nothing. */
  lemma {:induction false} SortOfSorted(s: seq<Item>)
    requires Sorted(s)
    ensures Sort(s) == s
  {
    if s != [] {
      var init, last := s[..|s| - 1], s[|s| - 1];
      SortedSnoc(s);
      SortOfSorted(init);
      InsertAtEnd(init, last);
    }
  }

  /** Appending to a sorted pool and sorting is inserting after every item not ranked
      below the new one. */
  lemma SortAfterAppend(s: seq<Item>, x: Item)
    requires Sorted(s)
    ensures Sort(s + [x]) == Insert(s, x)
  {
    assert (s + [x])[..|s|] == s;
    SortOfSorted(s);
  }

  /** A sorted sequence is determined by its per-key subsequences: every stable sort of a
      sequence yields `Sort` of it. */
  lemma {:induction false} SortedUnique(a: seq<Item>, b: seq<Item>)
    requires Sorted(a) && Sorted(b)
    requires forall k :: KeyFilter(a, k) == KeyFilter(b, k)
    ensures a == b
  {
    if a == [] || b == [] {
      if a != [] {
        assert KeyFilter(a, a[0]) != KeyFilter(b, a[0]);
      } else if b != [] {
        assert KeyFilter(a, b[0]) != KeyFilter(b, b[0]);
      }
    } else {
      var x, y := a[0], b[0];
      assert a == [x] + a[1..] && b == [y] + b[1..];
      SortedCons(x, a[1..]);
      SortedCons(y, b[1..]);
      assert y in KeyFilter(a, y) by {
        assert KeyFilter(b, y) == [y] + KeyFilter(b[1..], y);
      }
      KeyFilterMember(a, y, y);
      assert x in KeyFilter(b, x) by {
        assert KeyFilter(a, x) == [x] + KeyFilter(a[1..], x);
      }
      KeyFilterMember(b, x, x);
      assert Precedes(x, y) && Precedes(y, x) by {
        if y != x {
          assert y in a[1..];
          assert x in b[1..];
        } else {
          CompareReflexive(x);
        }
      }
      CompareAntisymmetric(x, y);
      assert SameKey(x, y);
      assert SameKey(y, x);
      assert x == y by {
        var fa, fb := KeyFilter(a, x), KeyFilter(b, x);
        assert fa == [x] + KeyFilter(a[1..], x);
        assert fb == [y] + KeyFilter(b[1..], x);
        assert fa == fb;
        assert fa[0] == x && fb[0] == y;
      }
      forall k
        ensures KeyFilter(a[1..], k) == KeyFilter(b[1..], k)
      {
        assert KeyFilter(a, k) == KeyFilter(b, k);
        if SameKey(x, k) {
          var fa, fb := KeyFilter(a, k), KeyFilter(b, k);
          assert fa == [x] + KeyFilter(a[1..], k);
          assert fb == [x] + KeyFilter(b[1..], k);
          assert fa[1..] == KeyFilter(a[1..], k) && fb[1..] == KeyFilter(b[1..], k);
        } else {
          assert KeyFilter(a, k) == KeyFilter(a[1..], k);
          assert KeyFilter(b, k) == KeyFilter(b[1..], k);
        }
      }
      SortedUnique(a[1..], b[1..]);
    }
  }

  /** Leaving items out of a pool keeps the arrival order within every key. */
  lemma {:induction false} SubsequenceKeyFilter(a: seq<Item>, b: seq<Item>, k: Item)
    requires Subsequence(a, b)
    ensures Subsequence(KeyFilter(a, k), KeyFilter(b, k))
    decreases |b|
  {
    if a == [] {
    } else if a[0] == b[0] && Subsequence(a[1..], b[1..]) {
      SubsequenceKeyFilter(a[1..], b[1..], k);
      if SameKey(a[0], k) {
        SubsequenceCons(a[0], KeyFilter(a[1..], k), KeyFilter(b[1..], k));
      }
    } else {
      SubsequenceKeyFilter(a, b[1..], k);
      if SameKey(b[0], k) {
        SubsequenceDrop(b[0], KeyFilter(a, k), KeyFilter(b[1..], k));
      }
    }
  }

  /** Two items of one key, arriving in either order: sorting keeps that order. A worked
      instance of the stability that `SortStable` states in general. */
  lemma StableOnEqualKeys(p: Item, q: Item)
    requires SameKey(p, q)
    ensures Sort([p, q]) == [p, q] && Sort([q, p]) == [q, p]
  {
    SortPair(p, q);
    SortPair(q, p);
  }

  lemma SortPair(p: Item, q: Item)
    requires !Outranks(q, p)
    ensures Sort([p, q]) == [p, q]
  {
    assert [p, q][..1] == [p] && [p][..0] == [];
    assert Sort([p]) == [p];
    assert Insert([p], q) == [p] + Insert([], q);
  }

  /** Three mail items arriving lowest first are served as priority 3 to floor 5, priority
      3 to floor 2, then priority 1 to floor 9. */
  lemma IntakeOrderExample(a: Item, b: Item, c: Item)
    requires a.priority == 3 && a.destination == 5
    requires b.priority == 3 && b.destination == 2
    requires c.priority == 1 && c.destination == 9
    ensures Sort([c, b, a]) == [a, b, c]
  {
    assert [c, b, a][..2] == [c, b] && [c, b][..1] == [c];
    assert Sort([c]) == [c];
    assert Insert([c], b) == [b, c];
    assert Sort([c, b]) == [b, c];
    assert [b, c][1..] == [c];
    assert Insert([b, c], a) == [a, b, c];
  }
}
