/** What one call of the pool's `fillStorageTube` does to the pending pool, stated on
    values: the careful robot's fragile pass, the strong or weak bulk pass, and the batch
    that is committed to the robot's tube. */
module Matching {
  import opened Items
  import opened Ordering
  import opened Sequences

  /** Number of light (not heavy) items. */
  function LightCount(s: seq<Item>): (n: nat)
    ensures n <= |s|
  {
    if s == [] then 0 else (if s[0].heavy then 0 else 1) + LightCount(s[1..])
  }

  function Fragiles(s: seq<Item>): seq<Item> {
    if s == [] then [] else (if s[0].fragile then [s[0]] else []) + Fragiles(s[1..])
  }

  function NonFragiles(s: seq<Item>): seq<Item> {
    if s == [] then [] else (if s[0].fragile then [] else [s[0]]) + NonFragiles(s[1..])
  }

  /** What the bulk pass may hand a robot: never a fragile item, and a heavy one only to a
      strong robot. */
  predicate Eligible(it: Item, strong: bool) {
    !it.fragile && (strong || !it.heavy)
  }

  function Eligibles(s: seq<Item>, strong: bool): seq<Item> {
    if s == [] then [] else (if Eligible(s[0], strong) then [s[0]] else []) + Eligibles(s[1..], strong)
  }

  function NonEligibles(s: seq<Item>, strong: bool): seq<Item> {
    if s == [] then [] else (if Eligible(s[0], strong) then [] else [s[0]]) + NonEligibles(s[1..], strong)
  }

  /** The mail items a sequence of descriptors stands for. */
  function Payloads(s: seq<Item>): (r: seq<MailItem>)
    ensures |r| == |s|
  {
    if s == [] then [] else [s[0].mailItem] + Payloads(s[1..])
  }

  /** Outcome of the fragile pass: the pool left behind, the items staged, and whether the
      staging tube rejected an item (a `TubeFullException`). */
  datatype CarefulResult = CarefulResult(kept: seq<Item>, taken: seq<Item>, full: bool)

  /** The fragile pass over `s` with `room` free places in the staging tube. Its loop is
      guarded by the robot's real tube, which the pass never changes, so it runs over the
      whole pool and stages every fragile item; the first fragile item that finds no room
      aborts the pass and stays in the pool. */
  function CarefulScan(s: seq<Item>, room: nat): (r: CarefulResult)
    ensures |r.taken| <= room
    ensures r.full ==> |r.taken| == room
  {
    if s == [] then CarefulResult([], [], false)
    else if !s[0].fragile then
      var r := CarefulScan(s[1..], room);
      CarefulResult([s[0]] + r.kept, r.taken, r.full)
    else if room == 0 then CarefulResult(s, [], true)
    else
      var r := CarefulScan(s[1..], room - 1);
      CarefulResult(r.kept, [s[0]] + r.taken, r.full)
  }

  /** Outcome of a bulk pass: the pool left behind and the items staged. */
  datatype ScanResult = ScanResult(kept: seq<Item>, taken: seq<Item>)

  /** The bulk pass over `s` with `room` free places: stage eligible items in pool order
      until the staging tube is full or the pool is exhausted. */
  function BulkScan(s: seq<Item>, strong: bool, room: nat): (r: ScanResult)
    ensures |r.taken| <= room
  {
    if room == 0 || s == [] then ScanResult(s, [])
    else if Eligible(s[0], strong) then
      var r := BulkScan(s[1..], strong, room - 1);
      ScanResult(r.kept, [s[0]] + r.taken)
    else
      var r := BulkScan(s[1..], strong, room);
      ScanResult([s[0]] + r.kept, r.taken)
  }

  /** Outcome of `fillStorageTube` for a robot whose tube is empty: the new pool, the items
      staged in order, and whether the pass ended in a `TubeFullException`, in which case
      the staged items are dropped. */
  datatype FillResult = FillResult(pool: seq<Item>, staged: seq<Item>, failed: bool)

  function Fill(p: seq<Item>, strong: bool, careful: bool, cap: nat): (r: FillResult)
    ensures |r.staged| <= cap
  {
    var c := if careful then CarefulScan(p, cap) else CarefulResult(p, [], false);
    if c.full then FillResult(c.kept, c.taken, true)
    else
      var b := BulkScan(c.kept, strong, cap - |c.taken|);
      FillResult(b.kept, c.taken + b.taken, false)
  }

  lemma FillUnfold(p: seq<Item>, strong: bool, careful: bool, cap: nat)
    ensures var c := if careful then CarefulScan(p, cap) else CarefulResult(p, [], false);
      var b := BulkScan(c.kept, strong, cap - |c.taken|);
      Fill(p, strong, careful, cap) ==
        if c.full then FillResult(c.kept, c.taken, true) else FillResult(b.kept, c.taken + b.taken, false)
  {
  }

  /** The robot is dispatched exactly when the staged batch is committed and non-empty. */
  predicate Dispatches(r: FillResult) {
    !r.failed && r.staged != []
  }

  // ---------------------------------------------------------------------------------
  // Counting and sequence facts

  lemma {:induction false} LightCountConcat(a: seq<Item>, b: seq<Item>)
    ensures LightCount(a + b) == LightCount(a) + LightCount(b)
  {
    if a == [] {
      assert a + b == b;
    } else {
      assert (a + b)[0] == a[0] && (a + b)[1..] == a[1..] + b;
      LightCountConcat(a[1..], b);
    }
  }

  lemma LightCountCons(x: Item, s: seq<Item>)
    ensures LightCount([x] + s) == (if x.heavy then 0 else 1) + LightCount(s)
  {
    assert ([x] + s)[0] == x && ([x] + s)[1..] == s;
  }

  /** Removing the item at `k` lowers the light count by one exactly when it is light. */
  lemma {:induction false} LightCountRemove(s: seq<Item>, k: nat)
    requires k < |s|
    ensures LightCount(s) == LightCount(RemoveAt(s, k)) + (if s[k].heavy then 0 else 1)
  {
    if k > 0 {
      LightCountRemove(s[1..], k - 1);
      LightCountCons(s[0], RemoveAt(s[1..], k - 1));
    }
  }

  /** Intake into the sorted pool raises the light count by one exactly for a light item. */
  lemma {:induction false} InsertLightCount(s: seq<Item>, x: Item)
    ensures LightCount(Insert(s, x)) == LightCount(s) + (if x.heavy then 0 else 1)
  {
    if s == [] {
    } else if Compare(x, s[0]) < 0 {
      assert ([x] + s)[1..] == s;
    } else {
      InsertLightCount(s[1..], x);
      assert ([s[0]] + Insert(s[1..], x))[1..] == Insert(s[1..], x);
    }
  }

  lemma {:induction false} PayloadsConcat(a: seq<Item>, b: seq<Item>)
    ensures Payloads(a + b) == Payloads(a) + Payloads(b)
  {
    if a == [] {
      assert a + b == b;
    } else {
      assert (a + b)[0] == a[0] && (a + b)[1..] == a[1..] + b;
      PayloadsConcat(a[1..], b);
    }
  }

  /** Staging one more item appends its mail item to what the staging tube holds. */
  lemma PayloadsSnoc(taken: seq<Item>, item: Item)
    ensures Payloads(taken + [item]) == Payloads(taken) + [item.mailItem]
  {
    PayloadsConcat(taken, [item]);
    assert Payloads([item]) == [item.mailItem];
  }

  /** The same, for a staging tube that already held `t0`. */
  lemma PayloadsSnocAfter(t0: seq<MailItem>, taken: seq<Item>, item: Item)
    ensures t0 + Payloads(taken + [item]) == (t0 + Payloads(taken)) + [item.mailItem]
  {
    PayloadsSnoc(taken, item);
  }

  lemma {:induction false} PayloadsMember(s: seq<Item>, m: MailItem)
    requires m in Payloads(s)
    ensures exists it :: it in s && it.mailItem == m
  {
    if s[0].mailItem != m {
      assert m in Payloads(s[1..]);
      PayloadsMember(s[1..], m);
      var it :| it in s[1..] && it.mailItem == m;
      assert it in s;
    } else {
      assert s[0] in s;
    }
  }

  /** A bulk-eligible item is never fragile, so filtering fragile items first changes
      nothing for the bulk pass. */
  lemma {:induction false} EligiblesOfNonFragiles(s: seq<Item>, strong: bool)
    ensures Eligibles(NonFragiles(s), strong) == Eligibles(s, strong)
  {
    if s != [] {
      EligiblesOfNonFragiles(s[1..], strong);
      var t := NonFragiles(s[1..]);
      if !s[0].fragile {
        assert ([s[0]] + t)[0] == s[0] && ([s[0]] + t)[1..] == t;
      } else {
        assert [] + t == t;
      }
    }
  }

  // ---------------------------------------------------------------------------------
  // The fragile pass

  /** Every item the fragile pass removes is staged, exactly once. */
  lemma {:induction false} CarefulScanConserves(s: seq<Item>, room: nat)
    ensures var r := CarefulScan(s, room);
      multiset(s) == multiset(r.kept) + multiset(r.taken)
  {
    if s != [] {
      if !s[0].fragile {
        var r := CarefulScan(s[1..], room);
        CarefulScanConserves(s[1..], room);
        HeadSplitsLeft(s, r.kept, r.taken);
      } else if room > 0 {
        var r := CarefulScan(s[1..], room - 1);
        CarefulScanConserves(s[1..], room - 1);
        HeadSplitsRight(s, r.kept, r.taken);
      }
    }
  }

  /** The light counter drops by the light items the fragile pass stages. */
  lemma {:induction false} CarefulScanLightCount(s: seq<Item>, room: nat)
    ensures var r := CarefulScan(s, room);
      LightCount(s) == LightCount(r.kept) + LightCount(r.taken)
  {
    if s != [] {
      var l := if s[0].heavy then 0 else 1;
      if !s[0].fragile {
        var r := CarefulScan(s[1..], room);
        CarefulScanLightCount(s[1..], room);
        assert ([s[0]] + r.kept)[0] == s[0] && ([s[0]] + r.kept)[1..] == r.kept;
        assert LightCount([s[0]] + r.kept) == l + LightCount(r.kept);
      } else if room > 0 {
        var r := CarefulScan(s[1..], room - 1);
        CarefulScanLightCount(s[1..], room - 1);
        assert ([s[0]] + r.taken)[0] == s[0] && ([s[0]] + r.taken)[1..] == r.taken;
        assert LightCount([s[0]] + r.taken) == l + LightCount(r.taken);
      }
    }
  }

  /** The fragile pass moves only fragile items and scans the whole pool: it stages every
      fragile item when they all fit, leaving the other items in their order; otherwise it
      stages the first `room` of them and the rest, starting with the one that did not fit,
      stay in the pool. */
  lemma {:induction false} CarefulScanExact(s: seq<Item>, room: nat)
    ensures var r := CarefulScan(s, room);
      && (r.full <==> |Fragiles(s)| > room)
      && (!r.full ==> r.kept == NonFragiles(s) && r.taken == Fragiles(s))
      && (r.full ==> r.taken == Fragiles(s)[..room] && Fragiles(r.kept) == Fragiles(s)[room..])
  {
    if s != [] {
      var f := Fragiles(s[1..]);
      if !s[0].fragile {
        CarefulScanExact(s[1..], room);
        var r := CarefulScan(s[1..], room);
        assert Fragiles(s) == f;
        assert ([s[0]] + r.kept)[1..] == r.kept;
      } else if room == 0 {
        assert Fragiles(s) == [s[0]] + f;
      } else {
        CarefulScanExact(s[1..], room - 1);
        var r := CarefulScan(s[1..], room - 1);
        assert Fragiles(s) == [s[0]] + f;
        assert NonFragiles(s) == NonFragiles(s[1..]);
        if r.full {
          assert ([s[0]] + f)[..room] == [s[0]] + f[..room - 1];
          assert ([s[0]] + f)[room..] == f[room - 1..];
        }
      }
    }
  }

  /** The fragile pass stops at a position `j`: it has staged the fragile items before
      `j`, and the pool keeps the other items before `j`, in their order, followed by every
      item from `j` on. It stops at the end of the pool, or, when the tube is full, at the
      fragile item that did not fit. */
  lemma CarefulScanKept(s: seq<Item>, room: nat)
    ensures var r := CarefulScan(s, room);
      exists j :: 0 <= j <= |s| && r.kept == NonFragiles(s[..j]) + s[j..] && r.taken == Fragiles(s[..j])
        && (r.full ==> j < |s| && s[j].fragile) && (!r.full ==> j == |s|)
  {
    var j := CarefulScanStop(s, room);
  }

  /** The position `CarefulScanKept` speaks of. */
  lemma {:induction false} CarefulScanStop(s: seq<Item>, room: nat) returns (j: nat)
    ensures var r := CarefulScan(s, room);
      && j <= |s| && r.kept == NonFragiles(s[..j]) + s[j..] && r.taken == Fragiles(s[..j])
      && (r.full ==> j < |s| && s[j].fragile) && (!r.full ==> j == |s|)
  {
    if s == [] || (s[0].fragile && room == 0) {
      j := 0;
      assert s[..0] == [] && s[0..] == s;
    } else {
      var room' := if s[0].fragile then room - 1 else room;
      var r' := CarefulScan(s[1..], room');
      var j' := CarefulScanStop(s[1..], room');
      j := j' + 1;
      FragilesStep(s, j');
      if s[0].fragile {
        assert CarefulScan(s, room) == CarefulResult(r'.kept, [s[0]] + r'.taken, r'.full);
      } else {
        assert CarefulScan(s, room) == CarefulResult([s[0]] + r'.kept, r'.taken, r'.full);
        ConsAssoc(s[0], NonFragiles(s[1..][..j']), s[j..]);
      }
    }
  }

  lemma FragilesStep(s: seq<Item>, j: nat)
    requires j < |s|
    ensures NonFragiles(s[..j + 1]) == (if s[0].fragile then [] else [s[0]]) + NonFragiles(s[1..][..j])
    ensures Fragiles(s[..j + 1]) == (if s[0].fragile then [s[0]] else []) + Fragiles(s[1..][..j])
    ensures s[j + 1..] == s[1..][j..]
  {
    TakeCons(s, j);
  }

  /** The pool the fragile pass leaves is the old pool with items left out. */
  lemma {:induction false} CarefulScanSubsequence(s: seq<Item>, room: nat)
    ensures Subsequence(CarefulScan(s, room).kept, s)
  {
    if s != [] {
      if !s[0].fragile {
        CarefulScanSubsequence(s[1..], room);
        SubsequenceHead(CarefulScan(s[1..], room).kept, s);
      } else if room == 0 {
        SubsequenceRefl(s);
      } else {
        CarefulScanSubsequence(s[1..], room - 1);
        SubsequenceTail(CarefulScan(s[1..], room - 1).kept, s);
      }
    }
  }

  /** The fragile pass leaves a sorted pool sorted. */
  lemma {:induction false} CarefulScanSorted(s: seq<Item>, room: nat)
    requires Sorted(s)
    ensures Sorted(CarefulScan(s, room).kept)
  {
    if s != [] {
      assert s == [s[0]] + s[1..];
      SortedCons(s[0], s[1..]);
      if !s[0].fragile {
        var r := CarefulScan(s[1..], room);
        CarefulScanSorted(s[1..], room);
        CarefulScanConserves(s[1..], room);
        forall y | y in r.kept
          ensures Precedes(s[0], y)
        {
          assert y in multiset(r.kept);
          assert y in multiset(s[1..]);
        }
        SortedCons(s[0], r.kept);
      } else if room > 0 {
        CarefulScanSorted(s[1..], room - 1);
      }
    }
  }

  // ---------------------------------------------------------------------------------
  // The bulk pass

  /** Every item the bulk pass removes is staged, exactly once. */
  lemma {:induction false} BulkScanConserves(s: seq<Item>, strong: bool, room: nat)
    ensures var r := BulkScan(s, strong, room);
      multiset(s) == multiset(r.kept) + multiset(r.taken)
  {
    if room > 0 && s != [] {
      if Eligible(s[0], strong) {
        var r := BulkScan(s[1..], strong, room - 1);
        BulkScanConserves(s[1..], strong, room - 1);
        HeadSplitsRight(s, r.kept, r.taken);
      } else {
        var r := BulkScan(s[1..], strong, room);
        BulkScanConserves(s[1..], strong, room);
        HeadSplitsLeft(s, r.kept, r.taken);
      }
    }
  }

  /** The light counter drops by the light items the bulk pass stages. */
  lemma {:induction false} BulkScanLightCount(s: seq<Item>, strong: bool, room: nat)
    ensures var r := BulkScan(s, strong, room);
      LightCount(s) == LightCount(r.kept) + LightCount(r.taken)
  {
    if room > 0 && s != [] {
      var l := if s[0].heavy then 0 else 1;
      if Eligible(s[0], strong) {
        var r := BulkScan(s[1..], strong, room - 1);
        assert BulkScan(s, strong, room) == ScanResult(r.kept, [s[0]] + r.taken);
        BulkScanLightCount(s[1..], strong, room - 1);
        assert ([s[0]] + r.taken)[0] == s[0] && ([s[0]] + r.taken)[1..] == r.taken;
        assert LightCount([s[0]] + r.taken) == l + LightCount(r.taken);
      } else {
        var r := BulkScan(s[1..], strong, room);
        assert BulkScan(s, strong, room) == ScanResult([s[0]] + r.kept, r.taken);
        BulkScanLightCount(s[1..], strong, room);
        assert ([s[0]] + r.kept)[0] == s[0] && ([s[0]] + r.kept)[1..] == r.kept;
        assert LightCount([s[0]] + r.kept) == l + LightCount(r.kept);
      }
    }
  }

  /** The bulk pass stages the first eligible items of the pool, as many as fit. */
  lemma {:induction false} BulkScanTaken(s: seq<Item>, strong: bool, room: nat)
    ensures BulkScan(s, strong, room).taken == Prefix(Eligibles(s, strong), room)
  {
    if room > 0 && s != [] {
      var e := Eligibles(s[1..], strong);
      if Eligible(s[0], strong) {
        BulkScanTaken(s[1..], strong, room - 1);
        assert Eligibles(s, strong) == [s[0]] + e;
        if room - 1 < |e| {
          assert ([s[0]] + e)[..room] == [s[0]] + e[..room - 1];
        }
      } else {
        BulkScanTaken(s[1..], strong, room);
        assert Eligibles(s, strong) == e;
      }
    }
  }

  /** A bulk pass stops at a position `j`: it has staged the eligible items before `j`,
      and the pool keeps the other items before `j`, in their order, followed by every item
      from `j` on. */
  lemma BulkScanKept(s: seq<Item>, strong: bool, room: nat)
    ensures var r := BulkScan(s, strong, room);
      exists j :: 0 <= j <= |s| && r.kept == NonEligibles(s[..j], strong) + s[j..]
        && r.taken == Eligibles(s[..j], strong)
  {
    var j := BulkScanStop(s, strong, room);
  }

  /** The position `BulkScanKept` speaks of. */
  lemma {:induction false} BulkScanStop(s: seq<Item>, strong: bool, room: nat) returns (j: nat)
    ensures var r := BulkScan(s, strong, room);
      && j <= |s| && r.kept == NonEligibles(s[..j], strong) + s[j..]
      && r.taken == Eligibles(s[..j], strong)
  {
    if room == 0 || s == [] {
      j := 0;
      assert s[..0] == [] && s[0..] == s;
    } else {
      var room' := if Eligible(s[0], strong) then room - 1 else room;
      var r' := BulkScan(s[1..], strong, room');
      var j' := BulkScanStop(s[1..], strong, room');
      j := j' + 1;
      EligiblesStep(s, strong, j');
      if Eligible(s[0], strong) {
        assert BulkScan(s, strong, room) == ScanResult(r'.kept, [s[0]] + r'.taken);
      } else {
        assert BulkScan(s, strong, room) == ScanResult([s[0]] + r'.kept, r'.taken);
        ConsAssoc(s[0], NonEligibles(s[1..][..j'], strong), s[j..]);
      }
    }
  }

  lemma EligiblesStep(s: seq<Item>, strong: bool, j: nat)
    requires j < |s|
    ensures NonEligibles(s[..j + 1], strong) ==
      (if Eligible(s[0], strong) then [] else [s[0]]) + NonEligibles(s[1..][..j], strong)
    ensures Eligibles(s[..j + 1], strong) ==
      (if Eligible(s[0], strong) then [s[0]] else []) + Eligibles(s[1..][..j], strong)
    ensures s[j + 1..] == s[1..][j..]
  {
    TakeCons(s, j);
  }

  /** The pool a bulk pass leaves is the old pool with items left out. */
  lemma {:induction false} BulkScanSubsequence(s: seq<Item>, strong: bool, room: nat)
    ensures Subsequence(BulkScan(s, strong, room).kept, s)
  {
    if room == 0 || s == [] {
      SubsequenceRefl(s);
    } else if Eligible(s[0], strong) {
      BulkScanSubsequence(s[1..], strong, room - 1);
      SubsequenceTail(BulkScan(s[1..], strong, room - 1).kept, s);
    } else {
      BulkScanSubsequence(s[1..], strong, room);
      SubsequenceHead(BulkScan(s[1..], strong, room).kept, s);
    }
  }

  lemma {:induction false} BulkScanSorted(s: seq<Item>, strong: bool, room: nat)
    requires Sorted(s)
    ensures Sorted(BulkScan(s, strong, room).kept)
  {
    if room > 0 && s != [] {
      assert s == [s[0]] + s[1..];
      SortedCons(s[0], s[1..]);
      if Eligible(s[0], strong) {
        BulkScanSorted(s[1..], strong, room - 1);
      } else {
        var r := BulkScan(s[1..], strong, room);
        BulkScanSorted(s[1..], strong, room);
        BulkScanConserves(s[1..], strong, room);
        forall y | y in r.kept
          ensures Precedes(s[0], y)
        {
          assert y in multiset(r.kept);
          assert y in multiset(s[1..]);
        }
        SortedCons(s[0], r.kept);
      }
    }
  }

  /** With no light item left, a weak robot's bulk pass stages nothing: stopping the weak
      pass when the light counter reaches zero only saves the scan of the heavy tail. */
  lemma {:induction false} BulkScanNoLight(s: seq<Item>, room: nat)
    requires LightCount(s) == 0
    ensures BulkScan(s, false, room) == ScanResult(s, [])
  {
    if room > 0 && s != [] {
      assert s == [s[0]] + s[1..];
      BulkScanNoLight(s[1..], room);
    }
  }

  // ---------------------------------------------------------------------------------
  // The whole fill

  /** No item is duplicated or invented: the pool before is the pool after plus the
      staged items. */
  lemma FillConserves(p: seq<Item>, strong: bool, careful: bool, cap: nat)
    ensures var r := Fill(p, strong, careful, cap);
      multiset(p) == multiset(r.pool) + multiset(r.staged)
  {
    var c := if careful then CarefulScan(p, cap) else CarefulResult(p, [], false);
    assert multiset(p) == multiset(c.kept) + multiset(c.taken) by {
      if careful {
        CarefulScanConserves(p, cap);
      }
    }
    FillUnfold(p, strong, careful, cap);
    if !c.full {
      var b := BulkScan(c.kept, strong, cap - |c.taken|);
      assert Fill(p, strong, careful, cap) == FillResult(b.kept, c.taken + b.taken, false);
      BulkAfterCarefulConserves(c, strong, cap);
    } else {
      assert Fill(p, strong, careful, cap) == FillResult(c.kept, c.taken, true);
    }
  }

  lemma BulkAfterCarefulConserves(c: CarefulResult, strong: bool, cap: nat)
    requires |c.taken| <= cap
    ensures var b := BulkScan(c.kept, strong, cap - |c.taken|);
      multiset(c.kept) + multiset(c.taken) == multiset(b.kept) + multiset(c.taken + b.taken)
  {
    var b := BulkScan(c.kept, strong, cap - |c.taken|);
    BulkScanConserves(c.kept, strong, cap - |c.taken|);
    SplitsWithPrefix(c.kept, c.taken, b.kept, b.taken);
  }

  /** The light counter accounts for exactly the staged light items. */
  lemma FillLightCount(p: seq<Item>, strong: bool, careful: bool, cap: nat)
    ensures var r := Fill(p, strong, careful, cap);
      LightCount(p) == LightCount(r.pool) + LightCount(r.staged)
  {
    var c := if careful then CarefulScan(p, cap) else CarefulResult(p, [], false);
    if careful {
      CarefulScanLightCount(p, cap);
    }
    if !c.full {
      var b := BulkScan(c.kept, strong, cap - |c.taken|);
      BulkScanLightCount(c.kept, strong, cap - |c.taken|);
      LightCountConcat(c.taken, b.taken);
    }
  }

  /** The pool left behind is still sorted. */
  lemma FillSorted(p: seq<Item>, strong: bool, careful: bool, cap: nat)
    requires Sorted(p)
    ensures Sorted(Fill(p, strong, careful, cap).pool)
  {
    var c := if careful then CarefulScan(p, cap) else CarefulResult(p, [], false);
    if careful {
      CarefulScanSorted(p, cap);
    }
    if !c.full {
      BulkScanSorted(c.kept, strong, cap - |c.taken|);
    }
  }

  /** The pool a fill leaves is the old pool with the staged items left out, so every
      key's items stay in arrival order (`SubsequenceKeyFilter`). */
  lemma FillKeepsOrder(p: seq<Item>, strong: bool, careful: bool, cap: nat)
    ensures Subsequence(Fill(p, strong, careful, cap).pool, p)
  {
    var c := if careful then CarefulScan(p, cap) else CarefulResult(p, [], false);
    if careful {
      CarefulScanSubsequence(p, cap);
    } else {
      SubsequenceRefl(p);
    }
    if !c.full {
      BulkScanSubsequence(c.kept, strong, cap - |c.taken|);
      SubsequenceTransitive(BulkScan(c.kept, strong, cap - |c.taken|).kept, c.kept, p);
    }
  }

  /** A robot that is not careful gets exactly the bulk pass: the first eligible items of
      the pool, as many as its tube holds, never fragile and heavy only if it is strong. */
  lemma FillNotCareful(p: seq<Item>, strong: bool, cap: nat)
    ensures var r := Fill(p, strong, false, cap);
      && !r.failed
      && r.staged == Prefix(Eligibles(p, strong), cap)
      && (forall it :: it in r.staged ==> Eligible(it, strong))
  {
    BulkScanTaken(p, strong, cap);
    EligiblesOnly(p, strong, cap);
  }

  /** A careful robot first takes every fragile item, of any weight, and then, if it did
      not run out of room, tops the batch up with the bulk pass; it fails exactly when the
      pool holds more fragile items than its tube is large, and then the batch is the first
      `cap` fragile items. */
  lemma FillCareful(p: seq<Item>, strong: bool, cap: nat)
    ensures var r := Fill(p, strong, true, cap);
      var f := Fragiles(p);
      && (r.failed <==> |f| > cap)
      && (!r.failed ==> r.staged == f + Prefix(Eligibles(p, strong), cap - |f|))
      && (r.failed ==> r.staged == f[..cap])
      && (forall it :: it in r.staged ==> it.fragile || Eligible(it, strong))
  {
    CarefulScanExact(p, cap);
    var c := CarefulScan(p, cap);
    FragilesOnly(p);
    if !c.full {
      BulkScanTaken(c.kept, strong, cap - |c.taken|);
      EligiblesOfNonFragiles(p, strong);
      EligiblesOnly(c.kept, strong, cap - |c.taken|);
    }
  }

  lemma {:induction false} FragilesOnly(s: seq<Item>)
    ensures forall it :: it in Fragiles(s) ==> it.fragile
  {
    if s != [] {
      FragilesOnly(s[1..]);
    }
  }

  lemma {:induction false} EligiblesOnly(s: seq<Item>, strong: bool, n: nat)
    ensures forall it :: it in Prefix(Eligibles(s, strong), n) ==> Eligible(it, strong)
  {
    if s != [] {
      EligiblesOnly(s[1..], strong, |Eligibles(s[1..], strong)|);
      var e := Eligibles(s, strong);
      forall it | it in Prefix(e, n)
        ensures Eligible(it, strong)
      {
        var i :| 0 <= i < |Prefix(e, n)| && Prefix(e, n)[i] == it;
        assert e[i] == it;
        if !Eligible(s[0], strong) || i > 0 {
          assert it in Eligibles(s[1..], strong);
        }
      }
    }
  }

  // ---------------------------------------------------------------------------------
  // Loop states: a pass that has kept `p[..k]`, staged `t` and has `room` left finishes
  // as the scan of `p[k..]` does

  function CarefulAfter(p: seq<Item>, k: nat, t: seq<Item>, room: nat): CarefulResult
    requires k <= |p|
  {
    var c := CarefulScan(p[k..], room);
    CarefulResult(p[..k] + c.kept, t + c.taken, c.full)
  }

  lemma CarefulAfterStart(p: seq<Item>, room: nat)
    ensures CarefulAfter(p, 0, [], room) == CarefulScan(p, room)
  {
    assert p[0..] == p && p[..0] == [];
    var c := CarefulScan(p, room);
    assert [] + c.kept == c.kept && [] + c.taken == c.taken;
  }

  lemma CarefulAfterSkip(p: seq<Item>, k: nat, t: seq<Item>, room: nat)
    requires k < |p| && !p[k].fragile
    ensures CarefulAfter(p, k, t, room) == CarefulAfter(p, k + 1, t, room)
  {
    assert p[k..][1..] == p[k + 1..];
    assert p[..k + 1] == p[..k] + [p[k]];
    var c := CarefulScan(p[k + 1..], room);
    assert p[..k] + ([p[k]] + c.kept) == p[..k + 1] + c.kept;
  }

  lemma CarefulAfterTake(p: seq<Item>, k: nat, t: seq<Item>, room: nat)
    requires k < |p| && p[k].fragile && room > 0
    ensures CarefulAfter(p, k, t, room) == CarefulAfter(RemoveAt(p, k), k, t + [p[k]], room - 1)
  {
    RemoveAtSlices(p, k);
    var q := p[..k] + p[k + 1..];
    assert p[k..][1..] == p[k + 1..] == q[k..];
    assert q[..k] == p[..k];
    var c := CarefulScan(p[k + 1..], room - 1);
    assert t + ([p[k]] + c.taken) == (t + [p[k]]) + c.taken;
  }

  lemma CarefulAfterFull(p: seq<Item>, k: nat, t: seq<Item>)
    requires k < |p| && p[k].fragile
    ensures CarefulAfter(p, k, t, 0) == CarefulResult(p, t, true)
  {
    assert p[..k] + p[k..] == p;
    assert t + [] == t;
  }

  lemma CarefulAfterEnd(p: seq<Item>, t: seq<Item>, room: nat)
    ensures CarefulAfter(p, |p|, t, room) == CarefulResult(p, t, false)
  {
    assert p[|p|..] == [] && p[..|p|] == p;
    assert p + [] == p && t + [] == t;
  }

  function BulkAfter(p: seq<Item>, strong: bool, k: nat, t: seq<Item>, room: nat): ScanResult
    requires k <= |p|
  {
    var b := BulkScan(p[k..], strong, room);
    ScanResult(p[..k] + b.kept, t + b.taken)
  }

  lemma BulkAfterStart(p: seq<Item>, strong: bool, room: nat)
    ensures BulkAfter(p, strong, 0, [], room) == BulkScan(p, strong, room)
  {
    assert p[0..] == p && p[..0] == [];
    var b := BulkScan(p, strong, room);
    assert [] + b.kept == b.kept && [] + b.taken == b.taken;
  }

  lemma BulkAfterSkip(p: seq<Item>, strong: bool, k: nat, t: seq<Item>, room: nat)
    requires k < |p| && !Eligible(p[k], strong) && room > 0
    ensures BulkAfter(p, strong, k, t, room) == BulkAfter(p, strong, k + 1, t, room)
  {
    assert p[k..][1..] == p[k + 1..];
    assert p[..k + 1] == p[..k] + [p[k]];
    var b := BulkScan(p[k + 1..], strong, room);
    assert p[..k] + ([p[k]] + b.kept) == p[..k + 1] + b.kept;
  }

  lemma BulkAfterTake(p: seq<Item>, strong: bool, k: nat, t: seq<Item>, room: nat)
    requires k < |p| && Eligible(p[k], strong) && room > 0
    ensures BulkAfter(p, strong, k, t, room) == BulkAfter(RemoveAt(p, k), strong, k, t + [p[k]], room - 1)
  {
    RemoveAtSlices(p, k);
    var q := p[..k] + p[k + 1..];
    assert p[k..][1..] == p[k + 1..] == q[k..];
    assert q[..k] == p[..k];
    var b := BulkScan(p[k + 1..], strong, room - 1);
    assert t + ([p[k]] + b.taken) == (t + [p[k]]) + b.taken;
  }

  /** A pass stops with the scan finished when there is no room or no item left. */
  lemma BulkAfterStop(p: seq<Item>, strong: bool, k: nat, t: seq<Item>, room: nat)
    requires k <= |p| && (room == 0 || k == |p|)
    ensures BulkAfter(p, strong, k, t, room) == ScanResult(p, t)
  {
    assert p[..k] + p[k..] == p;
    assert t + [] == t;
  }

  /** The weak pass may also stop when no light item is left. */
  lemma BulkAfterNoLight(p: seq<Item>, k: nat, t: seq<Item>, room: nat)
    requires k <= |p| && LightCount(p) == 0
    ensures BulkAfter(p, false, k, t, room) == ScanResult(p, t)
  {
    assert p == p[..k] + p[k..];
    LightCountConcat(p[..k], p[k..]);
    BulkScanNoLight(p[k..], room);
    assert t + [] == t;
  }

  // ---------------------------------------------------------------------------------
  // The passes as their loops run them: `k` is the iterator's position in the current
  // pool, `t` the items staged so far, `room` the places left in the staging tube. An
  // item the pass takes is removed at the cursor, which stays where it is.

  /** The fragile pass, one iterator step at a time. */
  function CarefulRun(p: seq<Item>, k: nat, t: seq<Item>, room: nat): (r: CarefulResult)
    requires k <= |p|
    decreases |p| - k
  {
    if k == |p| then CarefulResult(p, t, false)
    else if !p[k].fragile then CarefulRun(p, k + 1, t, room)
    else if room == 0 then CarefulResult(p, t, true)
    else CarefulRun(RemoveAt(p, k), k, t + [p[k]], room - 1)
  }

  /** The iterator's run of the fragile pass finishes as `CarefulScan` of the rest does. */
  lemma {:induction false} CarefulRunIsScan(p: seq<Item>, k: nat, t: seq<Item>, room: nat)
    requires k <= |p|
    ensures CarefulRun(p, k, t, room) == CarefulAfter(p, k, t, room)
    decreases |p| - k
  {
    if k == |p| {
      CarefulAfterEnd(p, t, room);
    } else if !p[k].fragile {
      CarefulAfterSkip(p, k, t, room);
      CarefulRunIsScan(p, k + 1, t, room);
    } else if room == 0 {
      CarefulAfterFull(p, k, t);
    } else {
      CarefulAfterTake(p, k, t, room);
      CarefulRunIsScan(RemoveAt(p, k), k, t + [p[k]], room - 1);
    }
  }

  /** Run from the start of the pool, the loop computes `CarefulScan`. */
  lemma CarefulRunStart(p: seq<Item>, room: nat)
    ensures CarefulRun(p, 0, [], room) == CarefulScan(p, room)
  {
    CarefulRunIsScan(p, 0, [], room);
    CarefulAfterStart(p, room);
  }

  /** A bulk pass, one iterator step at a time. */
  function BulkRun(p: seq<Item>, strong: bool, k: nat, t: seq<Item>, room: nat): (r: ScanResult)
    requires k <= |p|
    decreases |p| - k
  {
    if room == 0 || k == |p| then ScanResult(p, t)
    else if Eligible(p[k], strong) then BulkRun(RemoveAt(p, k), strong, k, t + [p[k]], room - 1)
    else BulkRun(p, strong, k + 1, t, room)
  }

  /** The iterator's run of a bulk pass finishes as `BulkScan` of the rest does. */
  lemma {:induction false} BulkRunIsScan(p: seq<Item>, strong: bool, k: nat, t: seq<Item>, room: nat)
    requires k <= |p|
    ensures BulkRun(p, strong, k, t, room) == BulkAfter(p, strong, k, t, room)
    decreases |p| - k
  {
    if room == 0 || k == |p| {
      BulkAfterStop(p, strong, k, t, room);
    } else if Eligible(p[k], strong) {
      BulkAfterTake(p, strong, k, t, room);
      BulkRunIsScan(RemoveAt(p, k), strong, k, t + [p[k]], room - 1);
    } else {
      BulkAfterSkip(p, strong, k, t, room);
      BulkRunIsScan(p, strong, k + 1, t, room);
    }
  }

  /** Run from the start of the pool, the loop computes `BulkScan`. */
  lemma BulkRunStart(p: seq<Item>, strong: bool, room: nat)
    ensures BulkRun(p, strong, 0, [], room) == BulkScan(p, strong, room)
  {
    BulkRunIsScan(p, strong, 0, [], room);
    BulkAfterStart(p, strong, room);
  }

  /** With no light item left, the rest of a weak pass stages nothing. */
  lemma BulkRunNoLight(p: seq<Item>, k: nat, t: seq<Item>, room: nat)
    requires k <= |p| && LightCount(p) == 0
    ensures BulkRun(p, false, k, t, room) == ScanResult(p, t)
  {
    BulkRunIsScan(p, false, k, t, room);
    BulkAfterNoLight(p, k, t, room);
  }

  // ---------------------------------------------------------------------------------
  // Behaviour of the code as written, on small pools

  /** A careful robot with room for two takes both fragile items of the pool, not one. */
  lemma CarefulTakesEveryFragileItem(f1: Item, f2: Item)
    requires f1.fragile && f2.fragile
    ensures Fill([f1, f2], true, true, 2) == FillResult([], [f1, f2], false)
  {
    assert [f1, f2][1..] == [f2] && [f2][1..] == [];
    assert CarefulScan([f2], 1) == CarefulResult([], [f2], false);
    assert CarefulScan([f1, f2], 2) == CarefulResult([], [f1, f2], false);
    assert [f1, f2] + [] == [f1, f2];
  }

  /** A careful robot that is not strong is handed a heavy fragile item. */
  lemma WeakCarefulTakesHeavyFragile(h: Item)
    requires h.fragile && h.heavy
    ensures var r := Fill([h], false, true, 1);
      Dispatches(r) && r.staged == [h] && !Eligible(h, false)
  {
    assert [h][1..] == [];
    assert CarefulScan([h], 1) == CarefulResult([], [h], false);
    assert [h] + [] == [h];
  }

  /** More fragile items than room: the tube-full failure drops the staged item, which is
      already gone from the pool, and the item that did not fit stays. */
  lemma FragileOverflowDropsStaged(f1: Item, f2: Item)
    requires f1.fragile && f2.fragile
    ensures var r := Fill([f1, f2], true, true, 1);
      r == FillResult([f2], [f1], true) && !Dispatches(r)
  {
    assert [f1, f2][1..] == [f2];
    assert CarefulScan([f2], 0) == CarefulResult([f2], [], true);
    assert CarefulScan([f1, f2], 1) == CarefulResult([f2], [f1], true);
  }

  /** A strong robot that is not careful, tube of two, pool of one fragile and one heavy
      item: it takes the heavy item and the fragile one stays. */
  lemma StrongRobotSkipsFragile(f: Item, h: Item)
    requires f.fragile && !h.fragile && h.heavy
    ensures Fill([f, h], true, false, 2) == FillResult([f], [h], false)
  {
    assert [f, h][1..] == [h] && [h][1..] == [];
    assert BulkScan([h], true, 2) == ScanResult([], [h]);
    assert BulkScan([f, h], true, 2) == ScanResult([f], [h]);
    assert [] + [h] == [h];
  }

  /** A weak robot facing only heavy items gets nothing and is not dispatched. */
  lemma WeakRobotLeavesHeavyItems(p: seq<Item>, cap: nat)
    requires forall it :: it in p ==> it.heavy
    ensures Fill(p, false, false, cap) == FillResult(p, [], false)
  {
    NoLightCount(p);
    BulkScanNoLight(p, cap);
  }

  lemma {:induction false} NoLightCount(p: seq<Item>)
    requires forall it :: it in p ==> it.heavy
    ensures LightCount(p) == 0
  {
    if p != [] {
      assert p[0] in p;
      NoLightCount(p[1..]);
    }
  }
}
