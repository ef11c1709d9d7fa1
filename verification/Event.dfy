/**
 * The event that clones of a client share: an unbounded channel. It is a queue, not a broadcast: each
 * value emitted goes to one waiter, in the order of emission.
 */
module EventQueue {
  import opened Wrappers

  class Event<T> {
    var queue: seq<T>
    /** Everything emitted, and everything some waiter took, from the beginning. */
    ghost var emitted: seq<T>
    ghost var taken: seq<T>

    ghost predicate Valid()
      reads this
    {
      emitted == taken + queue
    }

    constructor ()
      ensures Valid() && emitted == [] && taken == []
    {
      queue, emitted, taken := [], [], [];
    }

    method Emit(value: T)
      requires Valid()
      modifies this
      ensures Valid() && emitted == old(emitted) + [value] && taken == old(taken)
    {
      queue := queue + [value];
      emitted := emitted + [value];
    }

    /** One poll of a waiter: it takes the oldest value, or goes on waiting. */
    method Wait() returns (r: Option<T>)
      requires Valid()
      modifies this
      ensures Valid() && emitted == old(emitted)
      ensures r.None? <==> old(taken) == old(emitted)
      ensures taken == if r.Some? then old(taken) + [r.value] else old(taken)
      ensures r.Some? ==> |old(taken)| < |emitted| && r.value == emitted[|old(taken)|]
    {
      if queue == [] {
        return None;
      }
      r := Some(queue[0]);
      queue := queue[1..];
      taken := taken + [r.value];
    }
  }
}
