/** The ownership lock of an OPFS store: what one acquire does with its grant, its timer and its release. */
module StoreOwnership {

  datatype Settlement = Resolved | TimedOut | ApiFailed

  /** One `acquireStoreOwnership`. `settlements` logs every call of its promise's `resolve` or `reject`. */
  datatype Acquire = Acquire(granted: bool, timer: bool, aborted: bool, released: bool, settlements: seq<Settlement>)

  /** Without a Web Locks API the promise is resolved outright, with nothing to release. */
  const UNLOCKED := Acquire(true, false, false, false, [Resolved])
  const REQUESTED := Acquire(false, true, false, false, [])

  function Fired(a: Acquire): Acquire {
    a.(timer := false, aborted := true)
  }

  function Granted(a: Acquire): Acquire {
    a.(granted := true, timer := false, settlements := a.settlements + [Resolved])
  }

  function Released(a: Acquire): Acquire {
    a.(released := true)
  }

  /** The lock request was rejected: the abort of a wait that ran out, or the API failing. */
  function Rejected(a: Acquire): Acquire {
    a.(timer := false,
       settlements := if a.granted then a.settlements
                      else a.settlements + [if a.aborted then TimedOut else ApiFailed])
  }

  /** The closures of one acquire, over the variables they share. */
  class StoreAcquire {
    var granted: bool
    var timer: bool
    var aborted: bool
    var released: bool
    var settlements: seq<Settlement>
    // How often the lock was handed back.
    var releases: nat

    function View(): Acquire
      reads this
    {
      Acquire(granted, timer, aborted, released, settlements)
    }

    ghost predicate Valid()
      reads this
    {
      releases == (if released then 1 else 0) && (released ==> granted)
    }

    constructor (locks: bool)
      ensures Valid() && View() == if locks then REQUESTED else UNLOCKED
    {
      granted, timer, aborted, released := !locks, locks, false, false;
      settlements := if locks then [] else [Resolved];
      releases := 0;
    }

    method OnTimer()
      requires Valid() && timer
      modifies this
      ensures Valid() && View() == Fired(old(View()))
    {
      timer := false;
      aborted := true;
    }

    method OnGrant()
      requires Valid() && !granted
      modifies this
      ensures Valid() && View() == Granted(old(View()))
    {
      granted := true;
      timer := false;
      settlements := settlements + [Resolved];
    }

    /** Idempotent: the lock is handed back once. */
    method Release()
      requires Valid() && granted
      modifies this
      ensures Valid() && View() == Released(old(View())) && releases == 1
    {
      if released {
        return;
      }
      released := true;
      releases := releases + 1;
    }

    method OnRejected()
      requires Valid()
      modifies this
      ensures Valid() && View() == Rejected(old(View()))
    {
      timer := false;
      if !granted {
        settlements := settlements + [if aborted then TimedOut else ApiFailed];
      }
    }
  }
}
