/** Item descriptors: the summary of a mail item that the pool sorts and matches on,
    and the comparator that orders them. */
module Items {

  datatype Option<T> = None | Some(value: T)

  /** A mail item as the simulation delivers it to the pool. `priorityLevel` is `Some`
      exactly when the item is a priority mail item. The pool only reads it. */
  datatype MailItem = MailItem(id: nat, destFloor: int, weight: int, fragile: bool, priorityLevel: Option<int>)

  /** Items weighing at least this much are heavy. */
  const HEAVY_WEIGHT: int := 2000

  /** Priority of an item that is not a priority mail item. */
  const DEFAULT_PRIORITY: int := 1

  /** The pool's descriptor of a pending mail item. */
  datatype Item = Item(priority: int, destination: int, heavy: bool, fragile: bool, mailItem: MailItem)

  /** Builds the descriptor of a mail item (the `Item` constructor). */
  function MakeItem(m: MailItem): (it: Item)
    ensures it.priority == (if m.priorityLevel.Some? then m.priorityLevel.value else DEFAULT_PRIORITY)
    ensures it.heavy <==> m.weight >= HEAVY_WEIGHT
    ensures it.destination == m.destFloor && it.fragile == m.fragile
    ensures it.mailItem == m
  {
    var priority := match m.priorityLevel
      case Some(level) => level
      case None => DEFAULT_PRIORITY;
    Item(priority, m.destFloor, m.weight >= HEAVY_WEIGHT, m.fragile, m)
  }

  /** A descriptor is well formed when it is the one `MakeItem` derives from its payload. */
  predicate Derived(it: Item) {
    it == MakeItem(it.mailItem)
  }

  /** `a` is served before `b`: higher priority, or equal priority and higher destination. */
  predicate Outranks(a: Item, b: Item) {
    a.priority > b.priority || (a.priority == b.priority && a.destination > b.destination)
  }

  /** `a` and `b` have the same sort key. */
  predicate SameKey(a: Item, b: Item) {
    a.priority == b.priority && a.destination == b.destination
  }

  /** The comparator the pool sorts with: negative when `a` comes first, positive when
      `b` comes first, zero when neither does. */
  function Compare(a: Item, b: Item): (order: int)
    ensures order < 0 <==> Outranks(a, b)
    ensures order > 0 <==> Outranks(b, a)
    ensures order == 0 <==> SameKey(a, b)
    ensures -1 <= order <= 1
  {
    if a.priority < b.priority then 1
    else if a.priority > b.priority then -1
    else if a.destination < b.destination then 1
    else if a.destination > b.destination then -1
    else 0
  }

  /** `a` may stand before `b` in a sorted pool. */
  predicate Precedes(a: Item, b: Item) {
    Compare(a, b) <= 0
  }

  lemma CompareAntisymmetric(a: Item, b: Item)
    ensures Compare(a, b) == -Compare(b, a)
  {
  }

  lemma CompareReflexive(a: Item)
    ensures Compare(a, a) == 0
  {
  }

  lemma PrecedesTotal(a: Item, b: Item)
    ensures Precedes(a, b) || Precedes(b, a)
  {
  }

  lemma PrecedesTransitive(a: Item, b: Item, c: Item)
    requires Precedes(a, b) && Precedes(b, c)
    ensures Precedes(a, c)
    ensures Outranks(a, b) || Outranks(b, c) ==> Outranks(a, c)
  {
  }
}
