# Automail mail pool: a Dafny model of `MyMailPool`

This project models the allocation engine of the Automail simulation, the class
`strategies.MyMailPool`. The pool holds the mail items that have not been delivered
yet. It keeps them sorted by priority and destination floor, and it counts how many are
light. It also keeps the list of robots waiting for work, and on every tick it fills each
waiting robot's storage tube from the pool and dispatches the robot.

The model is split into modules that follow the class:

- `Items` (`items.dfy`): the raw `MailItem` and the pool's `Item` descriptor, with
  `MakeItem` (the `Item` constructor) and `Compare` (`ItemComparator.compare`).
- `Ordering` (`ordering.dfy`): sortedness, and `Sort`, a stable insertion sort that
  stands for `LinkedList.sort` with the item comparator. `SortedUnique` shows that any
  stable sort gives the same result.
- `Matching` (`matching.dfy`): what `fillStorageTube` does, as functions on values.
  `CarefulScan` is the fragile pass, `BulkScan` the strong or weak bulk pass, and `Fill`
  the whole staging step. The lemmas about them are here.
- `Automail` (`automail.dfy`): the collaborators, reduced to what the pool relies on. A
  `StorageTube` whose `AddItem` fails when the tube is full and whose `Pop` removes the
  top item. A `Robot` with its `strong` and `careful` flags, its own tube and a dispatch
  flag.
- `Sequences` (`sequences.dfy`): `Reverse` (the order the tube is unloaded in),
  `RemoveAt` (`ListIterator.remove`) and `RemoveFirst` (`List.remove(Object)`).
- `MailPool` (`mail_pool.dfy`): the class `MyMailPool`. It has the fields `pool`,
  `lightCount`, `robots` and `maxTake`, and the methods `AddToPool`, `FillStorageTube`
  (its loops are `CarefulPass`, `StrongPass`, `WeakPass` and `CommitBatch`), `Step`,
  `RegisterWaiting` and `DeregisterWaiting`. Its invariant `Valid()` says three things.
  The pool is sorted. Every descriptor is the one derived from its mail item.
  `lightCount` equals the number of light items in the pool.

Each loop method is proved against the matching function. For example, the new pool
after `StrongPass` is `BulkScan(old pool, true, room).kept`, and `temp` has gained that
scan's staged items. The loops' invariants use `CarefulRun` and `BulkRun`. These follow
the iterator one step at a time: the cursor moves past an item that is kept, and an item
that is taken is removed at the cursor, which stays where it is. `CarefulRunIsScan` and
`BulkRunIsScan` connect these step functions to the scans. The properties of the code
are then lemmas about the scan functions. Apart from sortedness, the pool keeps the
arrival order within each key. The sort is stable (`SortStable`). A fill leaves a
subsequence of the old pool (`FillKeepsOrder`, and `Step`'s contract), and a subsequence
keeps every key's order (`SubsequenceKeyFilter`).

## Code versus design

The model follows the code, which differs from the intended design in five places:

- The fragile pass does not stop after one item. Its loop is guarded by the robot's real
  tube, which the loop never changes (`MyMailPool.java:86`). So a careful robot stages
  every fragile item in the pool (`CarefulScanExact`, `CarefulTakesEveryFragileItem`).
- After the fragile pass the bulk pass still runs, because the real tube is still empty
  (`:97`). A careful robot's batch can therefore mix fragile and bulk items (`FillCareful`).
- The fragile pass ignores weight. A careful robot that is not strong can be handed a
  heavy fragile item (`WeakCarefulTakesHeavyFragile`).
- A careful robot can meet more fragile items than its tube holds. The fragile pass does
  not check `temp`'s size, so `temp.addItem` throws `TubeFullException`. The exception is
  caught and printed. The items already staged are then lost: they were removed from the
  pool and uncounted, but they never reach the robot (`FragileOverflowDropsStaged`,
  `FillCareful`). The item that did not fit stays in the pool.
- `registerWaiting` appends every robot at the end. The strong and weak branches do the
  same thing (`:137-141`).

## Model

| member | source | states |
|---|---|---|
| `Items.MakeItem` | swen30006/strategies/MyMailPool.java:25-31 | priority is the priority level of a priority mail item and 1 otherwise; heavy iff weight >= 2000; destination, fragility and the mail item are passed through |
| `Items.Compare` | swen30006/strategies/MyMailPool.java:36-48 | negative iff the first item has higher priority, or equal priority and a higher floor; positive in the mirrored case; zero iff priority and floor are equal; always -1, 0 or 1 |
| `Items.CompareAntisymmetric` | swen30006/strategies/MyMailPool.java:36-48 | compare(a, b) == -compare(b, a) |
| `Items.CompareReflexive` | swen30006/strategies/MyMailPool.java:36-48 | an item compares equal to itself |
| `Items.PrecedesTotal` | swen30006/strategies/MyMailPool.java:36-48 | of any two items, one may stand before the other |
| `Items.PrecedesTransitive` | swen30006/strategies/MyMailPool.java:36-48 | "may stand before" is transitive, and strict if either step is strict |
| `Ordering.Insert` | swen30006/strategies/MyMailPool.java:63-68 | inserting adds exactly one copy of the item (multiset) |
| `Ordering.Sort` | swen30006/strategies/MyMailPool.java:67 | the stable sort is a permutation of its input |
| `Ordering.InsertSorted` | swen30006/strategies/MyMailPool.java:63-68 | inserting into a sorted pool gives a sorted pool |
| `Ordering.InsertStable` | swen30006/strategies/MyMailPool.java:63-68 | inserting keeps every key's items in arrival order, with the new item last among its key |
| `Ordering.SortSorted` | swen30006/strategies/MyMailPool.java:67 | the result of the sort is sorted |
| `Ordering.SortStable` | swen30006/strategies/MyMailPool.java:67 | the sort keeps the arrival order of the items of each key |
| `Ordering.SortOfSorted` | swen30006/strategies/MyMailPool.java:67 | sorting a sorted pool changes nothing |
| `Ordering.SortAfterAppend` | swen30006/strategies/MyMailPool.java:63-68 | appending to a sorted pool and sorting equals inserting after every item not ranked below the new one |
| `Ordering.SortedUnique` | swen30006/strategies/MyMailPool.java:67 | two sorted sequences with the same items of each key in the same order are equal, so every stable sort agrees with `Sort` |
| `Ordering.SubsequenceKeyFilter` | swen30006/strategies/MyMailPool.java:85-123 | taking items out of a pool keeps the arrival order of the remaining items of every key |
| `Ordering.StableOnEqualKeys` | swen30006/strategies/MyMailPool.java:23 | two items of one key keep their arrival order, in either arrival order |
| `Ordering.IntakeOrderExample` | swen30006/strategies/MyMailPool.java:63-68 | P1/F9, P3/F2, P3/F5 arriving in that order are sorted to P3/F5, P3/F2, P1/F9 |
| `Matching.InsertLightCount` | swen30006/strategies/MyMailPool.java:66 | intake raises the light count by one exactly for a light item |
| `Matching.LightCountRemove` | swen30006/strategies/MyMailPool.java:89-91 | removing the item at the cursor lowers the light count by one exactly when the item is light |
| `Matching.CarefulScan` | swen30006/strategies/MyMailPool.java:84-94 | the fragile pass never stages more than the room it has, and a failed pass has used all of it |
| `Matching.CarefulScanConserves` | swen30006/strategies/MyMailPool.java:84-94 | the pool before is the pool after plus the staged items, each staged exactly once |
| `Matching.CarefulScanLightCount` | swen30006/strategies/MyMailPool.java:88-91 | the light count drops by exactly the staged light items |
| `Matching.CarefulScanExact` | swen30006/strategies/MyMailPool.java:84-94 | the pass fails iff there are more fragile items than room; otherwise it stages all fragile items and leaves the other items in order; on failure it stages the first `room` fragile items and the one that did not fit stays |
| `Matching.CarefulScanKept` | swen30006/strategies/MyMailPool.java:84-94 | the fragile pass stops at a position j: it has staged the fragile items before j, and the pool keeps the other items before j in order, followed by every item from j on; j is the end of the pool, or on a full tube the fragile item that did not fit |
| `Matching.CarefulScanSubsequence` | swen30006/strategies/MyMailPool.java:84-94 | the pool after the fragile pass is the old pool with items left out, the rest in their order |
| `Matching.CarefulScanSorted` | swen30006/strategies/MyMailPool.java:84-94 | the fragile pass leaves a sorted pool sorted |
| `Matching.BulkScan` | swen30006/strategies/MyMailPool.java:99-124 | a bulk pass never stages more than the room it has |
| `Matching.BulkScanConserves` | swen30006/strategies/MyMailPool.java:99-124 | the pool before is the pool after plus the staged items |
| `Matching.BulkScanLightCount` | swen30006/strategies/MyMailPool.java:104-122 | the light count drops by exactly the staged light items |
| `Matching.BulkScanTaken` | swen30006/strategies/MyMailPool.java:99-124 | a bulk pass stages the first eligible items in pool order, as many as fit: non-fragile for a strong robot, neither heavy nor fragile for a weak one |
| `Matching.BulkScanKept` | swen30006/strategies/MyMailPool.java:99-124 | a bulk pass stops at a position j: it has staged the eligible items before j, and the pool keeps the other items before j in order, followed by every item from j on |
| `Matching.BulkScanSubsequence` | swen30006/strategies/MyMailPool.java:99-124 | the pool after a bulk pass is the old pool with items left out, the rest in their order |
| `Matching.BulkScanSorted` | swen30006/strategies/MyMailPool.java:99-124 | a bulk pass leaves a sorted pool sorted |
| `Matching.BulkScanNoLight` | swen30006/strategies/MyMailPool.java:115 | with no light item left a weak pass stages nothing, so its `lightCount > 0` guard only shortens the scan |
| `Matching.EligiblesOfNonFragiles` | swen30006/strategies/MyMailPool.java:97-124 | after the fragile pass the bulk pass sees the same eligible items as on the whole pool |
| `Matching.Fill` | swen30006/strategies/MyMailPool.java:82-134 | a robot's batch never exceeds its tube's capacity |
| `Matching.FillConserves` | swen30006/strategies/MyMailPool.java:82-134 | no item is duplicated or invented: old pool = new pool + staged items |
| `Matching.FillLightCount` | swen30006/strategies/MyMailPool.java:89-121 | the light count accounts for exactly the staged light items |
| `Matching.FillSorted` | swen30006/strategies/MyMailPool.java:82-124 | the pool stays sorted |
| `Matching.FillKeepsOrder` | swen30006/strategies/MyMailPool.java:82-124 | the pool after a fill is the old pool with items left out, the rest in their order |
| `Matching.FillNotCareful` | swen30006/strategies/MyMailPool.java:97-124 | a robot that is not careful never fails and gets the first eligible items: never fragile, heavy only if strong |
| `Matching.FillCareful` | swen30006/strategies/MyMailPool.java:84-124 | a careful robot fails iff the pool holds more fragile items than its tube; otherwise it gets all fragile items then the first eligible items that fit; on failure the dropped batch is the first `cap` fragile items |
| `Matching.CarefulRunIsScan` | swen30006/strategies/MyMailPool.java:85-93 | the fragile loop, run from any cursor position with the items staged so far, finishes as `CarefulScan` of the rest of the pool does |
| `Matching.CarefulRunStart` | swen30006/strategies/MyMailPool.java:85-93 | run from the start of the pool, the fragile loop computes `CarefulScan` |
| `Matching.BulkRunIsScan` | swen30006/strategies/MyMailPool.java:100-123 | a bulk loop, run from any cursor position, finishes as `BulkScan` of the rest of the pool does |
| `Matching.BulkRunStart` | swen30006/strategies/MyMailPool.java:100-123 | run from the start of the pool, a bulk loop computes `BulkScan` |
| `Matching.BulkRunNoLight` | swen30006/strategies/MyMailPool.java:115 | once no light item is left, the rest of a weak loop would stage nothing, so stopping there gives the same result |
| `Matching.CarefulTakesEveryFragileItem` | swen30006/strategies/MyMailPool.java:86 | a careful robot with room for two takes both fragile items |
| `Matching.WeakCarefulTakesHeavyFragile` | swen30006/strategies/MyMailPool.java:84-94 | a careful robot that is not strong is dispatched with a heavy fragile item |
| `Matching.FragileOverflowDropsStaged` | swen30006/strategies/MyMailPool.java:82-133 | two fragile items and room for one: the first leaves the pool but is never loaded, the second stays, no dispatch |
| `Matching.StrongRobotSkipsFragile` | swen30006/strategies/MyMailPool.java:99-109 | a strong robot that is not careful takes the heavy item and leaves the fragile one |
| `Matching.WeakRobotLeavesHeavyItems` | swen30006/strategies/MyMailPool.java:112-123 | a weak robot facing only heavy items gets nothing and the pool is unchanged |
| `Sequences.Reverse` | swen30006/strategies/MyMailPool.java:126 | the unloading order has the batch's length |
| `Sequences.ReverseAt` | swen30006/strategies/MyMailPool.java:126 | the item staged last is loaded first, and so on |
| `Sequences.ReversePermutes` | swen30006/strategies/MyMailPool.java:126 | unloading neither adds nor drops an item |
| `Sequences.RemoveAt` | swen30006/strategies/MyMailPool.java:91 | removal at the iterator's cursor shortens the pool by one |
| `Sequences.RemoveAtAt` | swen30006/strategies/MyMailPool.java:91 | the items before the cursor stay where they are and the items after it move up by one |
| `Sequences.RemoveAtSlices` | swen30006/strategies/MyMailPool.java:91 | removal at the cursor is the items before it followed by the items after it |
| `Sequences.RemoveFirst` | swen30006/strategies/MyMailPool.java:146 | removal shortens the list by one iff the robot is in it |
| `Sequences.RemoveFirstAbsent` | swen30006/strategies/MyMailPool.java:146 | removing an absent robot is a no-op |
| `Sequences.RemoveFirstPresent` | swen30006/strategies/MyMailPool.java:146 | removing a present robot removes it at the position of its first occurrence, keeping the others in order |
| `Sequences.RemoveFirstMultiset` | swen30006/strategies/MyMailPool.java:146 | removal takes away exactly one copy |
| `Sequences.RemoveFirstAfterAppend` | swen30006/strategies/MyMailPool.java:136-147 | deregistering a robot just registered, and not waiting before, restores the waiting list |
| `Automail.StorageTube.AddItem` | swen30006/strategies/MyMailPool.java:89 | the item is added on top iff the tube is not full; otherwise nothing changes (`TubeFullException`) |
| `Automail.StorageTube.Pop` | swen30006/strategies/MyMailPool.java:126 | returns and removes the top item |
| `Automail.Robot.Dispatch` | swen30006/strategies/MyMailPool.java:127 | the robot has received its dispatch |
| `MailPool.BulkBatchWithinCapability` | swen30006/strategies/MyMailPool.java:99-124 | a batch of eligible items holds no fragile mail item, and no heavy one for a weak robot |
| `MailPool.FillWithinCapability` | swen30006/strategies/MyMailPool.java:82-124 | a fill only takes items out of the pool, and hands a robot that is not careful no fragile item and, if it is not strong, no heavy one |
| `MailPool.CommitBatch` | swen30006/strategies/MyMailPool.java:126 | the tube receives the whole batch in reverse staging order and `temp` ends empty |
| `MailPool.MyMailPool.constructor` | swen30006/strategies/MyMailPool.java:56-61 | the pool starts empty with a light count of zero and no waiting robot |
| `MailPool.MyMailPool.AddToPool` | swen30006/strategies/MyMailPool.java:63-68 | the new pool is the stable sort of the old pool plus the item, which equals inserting the item after every item not ranked below it; one more copy of the item; the light count grows by one iff the item is light; the invariant is kept |
| `MailPool.MyMailPool.CarefulPass` | swen30006/strategies/MyMailPool.java:84-94 | with a non-empty robot tube nothing changes; otherwise pool, `temp` and the failure flag are those of `CarefulScan`, and the counter stays exact |
| `MailPool.MyMailPool.StrongPass` | swen30006/strategies/MyMailPool.java:99-109 | pool and `temp` are those of the strong `BulkScan` in the room `temp` has left; the counter stays exact |
| `MailPool.MyMailPool.WeakPass` | swen30006/strategies/MyMailPool.java:110-124 | pool and `temp` are those of the weak `BulkScan` in the room left, although the loop may also stop on `lightCount == 0`; the counter stays exact |
| `MailPool.MyMailPool.StageBatch` | swen30006/strategies/MyMailPool.java:82-124 | with a non-empty robot tube nothing is staged; otherwise pool, `temp` and the failure flag are those of `Fill` |
| `MailPool.MyMailPool.FillStorageTube` | swen30006/strategies/MyMailPool.java:75-134 | with a non-empty tube, pool, counter, tube and dispatch are unchanged; otherwise the pool is `Fill`'s, a subsequence of the old pool, the counter drops by the staged light items, and the robot is dispatched iff the batch is committed and non-empty, its tube then holding the batch in reverse; the invariant is kept |
| `MailPool.MyMailPool.Step` | swen30006/strategies/MyMailPool.java:71-73 | over the robots waiting at the start: the invariant is kept, the pool only loses items and keeps the others in their order, robots with a loaded tube are untouched, and a robot whose tube was empty ends within its capability and is dispatched if it holds anything |
| `MailPool.MyMailPool.RegisterWaiting` | swen30006/strategies/MyMailPool.java:136-142 | the robot is appended at the end, strong or not |
| `MailPool.MyMailPool.DeregisterWaiting` | swen30006/strategies/MyMailPool.java:145-147 | the first occurrence of the robot is removed; nothing changes if it is absent |

## Left out

- `StorageTube`, `Robot`, `MailItem` and `PriorityMailItem` are not part of this model.
  They are modelled by what the pool uses. `addItem` fails when the tube is full. `pop`
  removes the last item added; this assumes the tube is a stack, so the loaded order
  (`Reverse`) depends on it, while the loaded items do not. `dispatch` sets a flag on the
  robot. A priority mail item is a mail item whose `priorityLevel` is `Some`.
- `swen30006/automail/BigRobot.java` only gives a robot a tube of capacity 6. Tube
  capacity is a parameter here.
- `FragileItemBrokenException`: `step` and `fillStorageTube` declare it, and the catch
  only takes `TubeFullException`, so a collaborator could throw it out of `step`. The
  modelled tube and robot never throw it, so `Step` has no failure outcome.
- `e.printStackTrace()` and other output. The model keeps only the effect of the caught
  `TubeFullException`: the pass stops and the staged items are dropped.
- `MailPool.MyMailPool.Step` iterates over a snapshot of the waiting list. What
  `robot.dispatch()` would do to the live list during the iteration, including a
  `ConcurrentModificationException`, is not modelled.
- `MailPool.MyMailPool.Step`: it requires that no two waiting robots share a tube. Its
  contract states the invariant, that the pool only loses items and keeps their order,
  and each robot's capability.
  It does not give each robot's batch, because that depends on the other robots served
  earlier in the tick. `FillStorageTube` gives the exact per-robot result.
- Robots are compared by reference, like Java's default `equals`, which is what
  `robots.remove(robot)` uses. Robot ids are not modelled.
- `Ordering.Sort` is an insertion sort, not Java's merge sort. `SortedUnique` shows the
  result is the same for every stable sort.
- Java's 32-bit `int`: `lightCount`, priorities and floors are unbounded integers.
  Priorities and floors are only compared, never computed with. `lightCount` would
  overflow only with more than 2^31 pending items.
- `LinkedList` and `ListIterator` mechanics are modelled by their sequence behaviour: a
  cursor index, with removal at the cursor.
