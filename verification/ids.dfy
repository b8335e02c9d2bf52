/**
 * The id counters that `Transaction` and `SavingsGoal` keep in a static
 * `nextId` field, made explicit: each is an object owned by the session.
 */
module Ids {

  /**
   * The counter a decoder leaves behind after restoring a record with id
   * `id`: its embedded constructor has already taken `next`, and the counter
   * is then pushed past `id`. The result is ahead of both.
   */
  function CounterAfterRestore(next: int, id: int): (r: int)
    ensures r > id && r > next
    ensures r == next + 1 || r == id + 1
  {
    var bumped := next + 1;
    if id >= bumped then id + 1 else bumped
  }

  class IdCounter {
    /** The id the next new entity receives. */
    var next: int

    /** Counters start at 1 when the program starts. */
    constructor ()
      ensures next == 1
    {
      next := 1;
    }

    /** `nextId++`: hand out the current value and move on by one. */
    method Allocate() returns (id: int)
      modifies this
      ensures id == old(next) && next == old(next) + 1
    {
      id := next;
      next := next + 1;
    }

    /** `if (id >= nextId) nextId = id + 1`: keep the counter ahead of a restored id. */
    method Restore(id: int)
      modifies this
      ensures next == (if id >= old(next) then id + 1 else old(next))
      ensures next > id && next >= old(next)
    {
      if id >= next {
        next := id + 1;
      }
    }
  }
}
