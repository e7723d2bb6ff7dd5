/** The allocation engine: the pool of pending item descriptors kept sorted, the counter
    of light items in it, the list of robots waiting for work, and the procedure that
    fills a waiting robot's storage tube from the pool. */
module MailPool {
  import opened Items
  import opened Ordering
  import opened Sequences
  import opened Matching
  import opened Automail

  predicate NoHeavy(s: seq<MailItem>) {
    forall m :: m in s ==> m.weight < HEAVY_WEIGHT
  }

  predicate NoFragile(s: seq<MailItem>) {
    forall m :: m in s ==> !m.fragile
  }

  /** What a tick may have loaded into a robot whose tube was empty: a robot that is not
      careful gets no fragile item and, if it is not strong either, no heavy item; a robot
      that holds anything has been dispatched. */
  ghost predicate LoadedWithinCapability(r: Robot)
    reads r, r.tube
  {
    && (!r.careful ==> NoFragile(r.tube.items) && (!r.strong ==> NoHeavy(r.tube.items)))
    && (r.tube.items != [] ==> r.receivedDispatch)
  }

  /** The batch a robot that is not careful receives respects its capability. */
  lemma BulkBatchWithinCapability(staged: seq<Item>, strong: bool)
    requires forall it :: it in staged ==> Derived(it) && Eligible(it, strong)
    ensures NoFragile(Reverse(Payloads(staged)))
    ensures !strong ==> NoHeavy(Reverse(Payloads(staged)))
  {
    var loaded := Reverse(Payloads(staged));
    ReversePermutes(Payloads(staged));
    forall m | m in loaded
      ensures !m.fragile && (!strong ==> m.weight < HEAVY_WEIGHT)
    {
      assert m in multiset(Payloads(staged));
      PayloadsMember(staged, m);
    }
  }

  /** What the fill hands a robot stays within its capability, and the pool only loses
      items. */
  lemma FillWithinCapability(p: seq<Item>, strong: bool, careful: bool, cap: nat)
    requires forall it :: it in p ==> Derived(it)
    ensures var r := Fill(p, strong, careful, cap);
      && multiset(r.pool) <= multiset(p)
      && (!careful ==> NoFragile(Reverse(Payloads(r.staged))))
      && (!careful && !strong ==> NoHeavy(Reverse(Payloads(r.staged))))
  {
    var r := Fill(p, strong, careful, cap);
    FillConserves(p, strong, careful, cap);
    if !careful {
      FillNotCareful(p, strong, cap);
      forall it | it in r.staged
        ensures Derived(it) && Eligible(it, strong)
      {
        assert it in multiset(p);
      }
      BulkBatchWithinCapability(r.staged, strong);
    }
  }

  lemma InsertDerived(s: seq<Item>, x: Item)
    requires forall it :: it in s ==> Derived(it)
    requires Derived(x)
    ensures forall it :: it in Insert(s, x) ==> Derived(it)
  {
    forall it | it in Insert(s, x)
      ensures Derived(it)
    {
      assert it in multiset(Insert(s, x));
    }
  }

  /** What `FillStorageTube` needs of `Fill` to restore the pool's invariant. */
  lemma FillKeepsValid(p: seq<Item>, strong: bool, careful: bool, cap: nat)
    requires Sorted(p) && forall it :: it in p ==> Derived(it)
    ensures var r := Fill(p, strong, careful, cap);
      && Sorted(r.pool)
      && (forall it :: it in r.pool ==> Derived(it))
      && LightCount(p) == LightCount(r.pool) + LightCount(r.staged)
  {
    var r := Fill(p, strong, careful, cap);
    FillSorted(p, strong, careful, cap);
    FillConserves(p, strong, careful, cap);
    FillLightCount(p, strong, careful, cap);
    forall it | it in r.pool
      ensures Derived(it)
    {
      assert it in multiset(p);
    }
  }

  /** Unloads the staging tube into the robot's tube: `while (!temp.isEmpty())
      tube.addItem(temp.pop())`. The tube receives the batch in reverse staging order. */
  method CommitBatch(temp: StorageTube, tube: StorageTube)
    requires tube != temp && tube.items == [] && |temp.items| <= tube.capacity
    modifies temp, tube
    ensures tube.items == Reverse(old(temp.items)) && temp.items == []
  {
    while !temp.IsEmpty()
      invariant tube.items + Reverse(temp.items) == Reverse(old(temp.items))
      invariant |tube.items| + |temp.items| <= tube.capacity
      decreases |temp.items|
    {
      ghost var before := temp.items;
      var m := temp.Pop();
      var ok := tube.AddItem(m);
      assert before[..|before| - 1] == temp.items;
    }
  }

  class MyMailPool {
    var pool: seq<Item>
    var maxTake: int
    var robots: seq<Robot>
    var lightCount: int

    /** The pool is sorted, every descriptor is the one derived from its mail item, and the
        counter holds the number of light items in the pool. */
    ghost predicate Valid()
      reads this
    {
      && Sorted(pool)
      && lightCount == LightCount(pool)
      && (forall it :: it in pool ==> Derived(it))
    }

    constructor ()
      ensures Valid() && pool == [] && lightCount == 0 && robots == []
    {
      pool := [];
      maxTake := 0;
      robots := [];
      lightCount := 0;
    }

    /** Intake: append the descriptor, count it if light, and stable-sort the pool. */
    method AddToPool(m: MailItem)
      requires Valid()
      modifies this`pool, this`lightCount
      ensures Valid()
      ensures pool == Sort(old(pool) + [MakeItem(m)])
      ensures pool == Insert(old(pool), MakeItem(m))
      ensures multiset(pool) == multiset(old(pool)) + multiset{MakeItem(m)}
      ensures lightCount == old(lightCount) + (if MakeItem(m).heavy then 0 else 1)
    {
      var item := MakeItem(m);
      ghost var before := pool;
      pool := pool + [item];
      if !item.heavy {
        lightCount := lightCount + 1;
      }
      pool := Sort(pool);
      SortAfterAppend(before, item);
      InsertSorted(before, item);
      InsertLightCount(before, item);
      InsertDerived(before, item);
    }

    /** The careful robot's pass: move fragile items from the pool into `temp` while the
        robot's own `tube` is empty. `full` reports a `TubeFullException` from `temp`. */
    method CarefulPass(tube: StorageTube, temp: StorageTube) returns (full: bool)
      requires lightCount == LightCount(pool)
      requires temp.items == [] && tube != temp
      modifies this`pool, this`lightCount, temp
      ensures lightCount == LightCount(pool)
      ensures tube.items != [] ==> pool == old(pool) && temp.items == [] && !full
      ensures tube.items == [] ==>
        var c := CarefulScan(old(pool), temp.capacity);
        pool == c.kept && temp.items == Payloads(c.taken) && full == c.full
    {
      full := false;
      ghost var taken: seq<Item> := [];
      ghost var cap := temp.capacity;
      ghost var goal := CarefulScan(pool, cap);
      CarefulRunStart(pool, cap);
      var k := 0;
      while tube.IsEmpty() && k < |pool|
        invariant 0 <= k <= |pool|
        invariant lightCount == LightCount(pool)
        invariant |taken| <= cap && temp.items == Payloads(taken)
        invariant tube.items != [] ==> pool == old(pool) && taken == []
        invariant tube.items == [] ==> goal == CarefulRun(pool, k, taken, cap - |taken|)
        decreases |pool| - k
      {
        var item := pool[k];
        if item.fragile {
          var ok := temp.AddItem(item.mailItem);
          if !ok {
            // TubeFullException: the pass ends here and `item` stays in the pool.
            full := true;
            return;
          }
          if !item.heavy {
            lightCount := lightCount - 1;
          }
          LightCountRemove(pool, k);
          PayloadsSnoc(taken, item);
          pool := RemoveAt(pool, k);
          taken := taken + [item];
        } else {
          k := k + 1;
        }
      }
    }

    /** The strong robot's bulk pass: move non-fragile items from the pool into `temp` until
        `temp` holds `maxTake` items or the pool is exhausted. */
    method StrongPass(temp: StorageTube)
      requires lightCount == LightCount(pool)
      requires maxTake == temp.capacity && |temp.items| <= temp.capacity
      modifies this`pool, this`lightCount, temp
      ensures lightCount == LightCount(pool)
      ensures var b := BulkScan(old(pool), true, temp.capacity - |old(temp.items)|);
        pool == b.kept && temp.items == old(temp.items) + Payloads(b.taken)
    {
      ghost var taken: seq<Item> := [];
      ghost var t0 := temp.items;
      ghost var goal := BulkScan(pool, true, temp.capacity - |t0|);
      BulkRunStart(pool, true, temp.capacity - |t0|);
      var k := 0;
      while temp.Size() < maxTake && k < |pool|
        invariant 0 <= k <= |pool|
        invariant lightCount == LightCount(pool)
        invariant temp.items == t0 + Payloads(taken) && |temp.items| <= temp.capacity
        invariant goal == BulkRun(pool, true, k, taken, temp.capacity - |temp.items|)
        decreases |pool| - k
      {
        var item := pool[k];
        if !item.fragile {
          LightCountRemove(pool, k);
          PayloadsSnocAfter(t0, taken, item);
          // Cannot throw: the loop guard keeps `temp` below its capacity.
          var ok := temp.AddItem(item.mailItem);
          if !item.heavy {
            lightCount := lightCount - 1;
          }
          pool := RemoveAt(pool, k);
          taken := taken + [item];
        } else {
          k := k + 1;
        }
      }
    }

    /** The weak robot's bulk pass: move items that are neither heavy nor fragile into
        `temp` until `temp` holds `maxTake` items, no light item is left, or the pool is
        exhausted. */
    method WeakPass(temp: StorageTube)
      requires lightCount == LightCount(pool)
      requires maxTake == temp.capacity && |temp.items| <= temp.capacity
      modifies this`pool, this`lightCount, temp
      ensures lightCount == LightCount(pool)
      ensures var b := BulkScan(old(pool), false, temp.capacity - |old(temp.items)|);
        pool == b.kept && temp.items == old(temp.items) + Payloads(b.taken)
    {
      ghost var taken: seq<Item> := [];
      ghost var t0 := temp.items;
      ghost var goal := BulkScan(pool, false, temp.capacity - |t0|);
      BulkRunStart(pool, false, temp.capacity - |t0|);
      var k := 0;
      while temp.Size() < maxTake && lightCount > 0 && k < |pool|
        invariant 0 <= k <= |pool|
        invariant lightCount == LightCount(pool)
        invariant temp.items == t0 + Payloads(taken) && |temp.items| <= temp.capacity
        invariant goal == BulkRun(pool, false, k, taken, temp.capacity - |temp.items|)
        decreases |pool| - k
      {
        var item := pool[k];
        if !item.heavy && !item.fragile {
          LightCountRemove(pool, k);
          PayloadsSnocAfter(t0, taken, item);
          // Cannot throw: the loop guard keeps `temp` below its capacity.
          var ok := temp.AddItem(item.mailItem);
          pool := RemoveAt(pool, k);
          lightCount := lightCount - 1;
          taken := taken + [item];
        } else {
          k := k + 1;
        }
      }
      if lightCount == 0 {
        BulkRunNoLight(pool, k, taken, temp.capacity - |temp.items|);
      }
    }

    /** The passes of `fillStorageTube` that stage items in `temp`: the fragile pass for a
        careful robot, then, while the robot's tube is still empty, the strong or weak bulk
        pass. `failed` reports the `TubeFullException` that ends the try block. */
    method StageBatch(robot: Robot, temp: StorageTube) returns (failed: bool)
      requires lightCount == LightCount(pool)
      requires temp.items == [] && temp != robot.tube
      requires maxTake == temp.capacity == robot.tube.capacity
      modifies this`pool, this`lightCount, temp
      ensures lightCount == LightCount(pool)
      ensures robot.tube.items != [] ==> pool == old(pool) && temp.items == [] && !failed
      ensures robot.tube.items == [] ==>
        var r := Fill(old(pool), robot.strong, robot.careful, temp.capacity);
        pool == r.pool && temp.items == Payloads(r.staged) && failed == r.failed
    {
      var tube := robot.tube;
      ghost var p0, cap := pool, temp.capacity;
      ghost var c := if robot.careful then CarefulScan(p0, cap) else CarefulResult(p0, [], false);
      ghost var b := BulkScan(c.kept, robot.strong, cap - |c.taken|);
      FillUnfold(p0, robot.strong, robot.careful, cap);
      failed := false;
      if robot.careful {
        failed := CarefulPass(tube, temp);
        if failed {
          return;
        }
      }
      if tube.IsEmpty() {
        if robot.strong {
          StrongPass(temp);
        } else {
          WeakPass(temp);
        }
        PayloadsConcat(c.taken, b.taken);
      }
    }

    /** Fills the tube of a waiting robot from the pool and dispatches it if anything was
        loaded. Nothing happens to a robot whose tube is not empty. */
    method FillStorageTube(robot: Robot)
      requires Valid()
      modifies this, robot, robot.tube
      ensures Valid() && robots == old(robots)
      ensures Subsequence(pool, old(pool))
      ensures maxTake == robot.tube.capacity
      ensures old(robot.tube.items) != [] ==>
        && pool == old(pool) && lightCount == old(lightCount)
        && robot.tube.items == old(robot.tube.items)
        && robot.receivedDispatch == old(robot.receivedDispatch)
      ensures old(robot.tube.items) == [] ==>
        var r := Fill(old(pool), robot.strong, robot.careful, robot.tube.capacity);
        && pool == r.pool
        && lightCount == old(lightCount) - LightCount(r.staged)
        && (Dispatches(r) ==> robot.tube.items == Reverse(Payloads(r.staged)) && robot.receivedDispatch)
        && (!Dispatches(r) ==> robot.tube.items == [] && robot.receivedDispatch == old(robot.receivedDispatch))
    {
      var tube := robot.tube;
      maxTake := tube.capacity;
      var temp := new StorageTube(tube.capacity);
      FillKeepsValid(pool, robot.strong, robot.careful, tube.capacity);
      FillKeepsOrder(pool, robot.strong, robot.careful, tube.capacity);
      SubsequenceRefl(pool);
      var failed := StageBatch(robot, temp);
      // On a TubeFullException, caught and printed, the items staged in `temp` are dropped.
      if !failed && tube.IsEmpty() && temp.Size() > 0 {
        CommitBatch(temp, tube);
        robot.Dispatch();
      }
    }

    /** One scheduling tick: try to fill the tube of every robot waiting at the start of
        the tick, in registration order. Robots must not share a tube. The pool only loses
        items, and keeps the others in their order. */
    method Step()
      requires Valid()
      requires forall a, b :: a in robots && b in robots && a.tube == b.tube ==> a == b
      modifies this, set r | r in robots, set r | r in robots :: r.tube
      ensures Valid() && robots == old(robots)
      ensures multiset(pool) <= multiset(old(pool))
      ensures Subsequence(pool, old(pool))
      ensures forall r :: r in robots && old(r.tube.items) != [] ==>
        r.tube.items == old(r.tube.items) && r.receivedDispatch == old(r.receivedDispatch)
      ensures forall r :: r in robots && old(r.tube.items) == [] ==> LoadedWithinCapability(r)
    {
      var snapshot := robots;
      SubsequenceRefl(pool);
      for i := 0 to |snapshot|
        invariant Valid() && robots == snapshot
        invariant multiset(pool) <= multiset(old(pool))
        invariant Subsequence(pool, old(pool))
        invariant forall r :: r in robots && old(r.tube.items) != [] ==>
          r.tube.items == old(r.tube.items) && r.receivedDispatch == old(r.receivedDispatch)
        invariant forall r :: r in robots && old(r.tube.items) == [] ==> LoadedWithinCapability(r)
      {
        var robot := snapshot[i];
        ghost var before := pool;
        FillWithinCapability(pool, robot.strong, robot.careful, robot.tube.capacity);
        label BeforeFill:
        FillStorageTube(robot);
        SubsequenceTransitive(pool, before, old(pool));
        forall q | q in robots && q != robot
          ensures q.tube.items == old@BeforeFill(q.tube.items)
          ensures q.receivedDispatch == old@BeforeFill(q.receivedDispatch)
        {
          assert q.tube != robot.tube;
        }
      }
    }

    /** Registration appends the robot at the end of the waiting list, whether it is
        strong or not. */
    method RegisterWaiting(robot: Robot)
      modifies this`robots
      ensures robots == old(robots) + [robot]
    {
      if robot.strong {
        robots := robots + [robot];
      } else {
        robots := robots + [robot];
      }
    }

    /** Deregistration removes the first occurrence of the robot, if any. */
    method DeregisterWaiting(robot: Robot)
      modifies this`robots
      ensures robots == RemoveFirst(old(robots), robot)
      ensures robot !in old(robots) ==> robots == old(robots)
    {
      if robot !in robots {
        RemoveFirstAbsent(robots, robot);
      }
      robots := RemoveFirst(robots, robot);
    }
  }
}
