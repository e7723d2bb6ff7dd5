/** The collaborators the pool works with, reduced to what the pool relies on: a storage
    tube that holds up to a fixed number of mail items, and a robot with its capabilities,
    its own tube and a dispatch signal. */
module Automail {
  import opened Items

  /** A robot's storage tube. Items are added on top and popped from the top. */
  class StorageTube {
    const capacity: nat
    var items: seq<MailItem>

    constructor (capacity: nat)
      ensures this.capacity == capacity && items == []
    {
      this.capacity := capacity;
      items := [];
    }

    predicate IsEmpty()
      reads this
    {
      items == []
    }

    function Size(): nat
      reads this
    {
      |items|
    }

    /** Adds `m` on top; `ok` is false, and nothing changes, when the tube is full (where
        the tube throws `TubeFullException`). */
    method AddItem(m: MailItem) returns (ok: bool)
      modifies this
      ensures ok <==> |old(items)| < capacity
      ensures items == if ok then old(items) + [m] else old(items)
    {
      ok := |items| < capacity;
      if ok {
        items := items + [m];
      }
    }

    /** Removes and returns the top item. */
    method Pop() returns (m: MailItem)
      requires items != []
      modifies this
      ensures old(items) == items + [m]
    {
      m := items[|items| - 1];
      items := items[..|items| - 1];
    }
  }

  /** A delivery robot as the pool sees it. */
  class Robot {
    const strong: bool
    const careful: bool
    const tube: StorageTube
    var receivedDispatch: bool

    constructor (strong: bool, careful: bool, capacity: nat)
      ensures this.strong == strong && this.careful == careful
      ensures fresh(tube) && tube.capacity == capacity && tube.items == []
      ensures !receivedDispatch
    {
      this.strong := strong;
      this.careful := careful;
      tube := new StorageTube(capacity);
      receivedDispatch := false;
    }

    /** Tells the robot to leave with what its tube holds. */
    method Dispatch()
      modifies this
      ensures receivedDispatch
    {
      receivedDispatch := true;
    }
  }
}
