/** A multiprocessing queue as the workers use it: `put` guarded by `full()`, and the
    `if not q.empty(): q.get()` pattern that never blocks. */
module Channels {
  import opened Types

  class Channel<T> {
    /** The messages waiting, oldest first. */
    var items: seq<T>
    /** The queue's maximum size; None for an unbounded queue such as `mp.Queue()`. As for a
        multiprocessing queue, a maximum size of 0 also means unbounded. */
    const capacity: Option<nat>

    ghost predicate Valid()
      reads this
    {
      capacity.Some? && capacity.value > 0 ==> |items| <= capacity.value
    }

    /** The queue's `full()`: only a bounded queue can be full. */
    predicate Full()
      reads this
    {
      capacity.Some? && capacity.value > 0 && |items| >= capacity.value
    }

    constructor (capacity: Option<nat>)
      ensures Valid() && items == [] && this.capacity == capacity
    {
      items := [];
      this.capacity := capacity;
    }

    /** `if not q.full(): q.put(x)`: on a full queue the new message is dropped and the
        messages already waiting stay retrievable. */
    method TryPut(x: T) returns (sent: bool)
      requires Valid()
      modifies this
      ensures Valid()
      ensures sent <==> !old(Full())
      ensures items == if sent then old(items) + [x] else old(items)
    {
      sent := !Full();
      if sent {
        items := items + [x];
      }
    }

    /** `if not q.empty(): m = q.get()`: the oldest message if one is waiting, else nothing,
        without blocking. */
    method Poll() returns (m: Option<T>)
      requires Valid()
      modifies this
      ensures Valid()
      ensures old(items) == [] ==> m == None && items == []
      ensures old(items) != [] ==> m == Some(old(items)[0]) && items == old(items)[1..]
    {
      if items == [] {
        m := None;
      } else {
        m := Some(items[0]);
        items := items[1..];
      }
    }
  }
}
