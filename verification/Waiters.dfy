/** The in-process wakeup registry (ai-queue/waiters.ts). A promise is a number handed out once; waking
    resolves the promise registered for a slot and forgets it. */
module Waiters {
  import opened SlotTable

  type Promise = nat

  datatype Registry = Registry(waiting: map<SlotId, Promise>, resolved: set<Promise>, issued: Promise)

  function Registered(r: Registry, id: SlotId): Registry {
    r.(waiting := r.waiting[id := r.issued], issued := r.issued + 1)
  }

  function Unregistered(r: Registry, id: SlotId): Registry {
    r.(waiting := r.waiting - {id})
  }

  function Woken(r: Registry, id: SlotId): Registry {
    if id in r.waiting then r.(waiting := r.waiting - {id}, resolved := r.resolved + {r.waiting[id]}) else r
  }

  /** A promise is resolved exactly when the slot it is still registered for is woken. */
  lemma RegistrationSurvivesOthers(r: Registry, id: SlotId, other: SlotId)
    requires id in r.waiting && other != id
    ensures var p := r.waiting[id];
            && Woken(Woken(r, other), id).resolved == Woken(r, other).resolved + {p}
            && Woken(Unregistered(r, other), id).resolved == r.resolved + {p}
            && Woken(Registered(r, other), id).resolved == r.resolved + {p}
            && Woken(Registered(r, id), id).resolved == r.resolved + {r.issued}
  {
  }

  class WaiterRegistry {
    var waiters: map<SlotId, Promise>
    var resolved: set<Promise>
    var issued: Promise

    function State(): Registry
      reads this
    {
      Registry(waiters, resolved, issued)
    }

    constructor ()
      ensures State() == Registry(map[], {}, 0)
    {
      waiters, resolved, issued := map[], {}, 0;
    }

    method RegisterWaiter(slotId: SlotId) returns (promise: Promise)
      modifies this
      ensures State() == Registered(old(State()), slotId) && promise == old(issued)
    {
      promise := issued;
      issued := issued + 1;
      waiters := waiters[slotId := promise];
    }

    method UnregisterWaiter(slotId: SlotId)
      modifies this`waiters
      ensures State() == Unregistered(old(State()), slotId)
    {
      waiters := waiters - {slotId};
    }

    method WakeWaiter(slotId: SlotId)
      modifies this`waiters, this`resolved
      ensures State() == Woken(old(State()), slotId)
    {
      if slotId in waiters {
        var resolve := waiters[slotId];
        waiters := waiters - {slotId};
        resolved := resolved + {resolve};
      }
    }
  }
}
