/** The memory semaphore as the object the readers and senders share; each method
    is one locked section. */
module MemSemaphores {
  import M = Memory

  class MemSemaphore {
    const capacity: int
    var cur: int
    var waiters: seq<M.Waiter>
    var closed: set<nat>
    var nextTicket: nat

    ghost predicate Valid()
      reads this
    {
      && cur <= capacity
      && (forall i, j :: 0 <= i < j < |waiters| ==> waiters[i].ticket < waiters[j].ticket)
      && (forall i :: 0 <= i < |waiters| ==> waiters[i].ticket < nextTicket && waiters[i].ticket !in closed)
      && (forall t :: t in closed ==> t < nextTicket)
    }

    ghost function Value(): (m: M.Mem)
      reads this
    {
      M.Mem(capacity, cur, waiters)
    }

    constructor (capacity: nat)
      ensures Valid() && Value() == M.Mem(capacity, 0, []) && closed == {}
    {
      this.capacity := capacity;
      cur, waiters, closed, nextTicket := 0, [], {}, 0;
    }

    method Acquire(n: nat) returns (granted: bool, ticket: nat)
      requires Valid()
      modifies this
      ensures Valid() && closed == old(closed) && ticket == old(nextTicket)
      ensures granted <==> M.Immediate(old(Value()), n)
      ensures Value() == M.Acquire(old(Value()), n, ticket)
    {
      ticket := nextTicket;
      nextTicket := nextTicket + 1;
      if cur + n <= capacity && |waiters| == 0 {
        cur := cur + n;
        granted := true;
      } else {
        waiters := waiters + [M.Waiter(n, ticket)];
        granted := false;
      }
    }

    /** The locked section of a cancelled Acquire: a grant that came first wins. */
    method Cancel(ticket: nat) returns (granted: bool)
      requires Valid()
      modifies this`waiters
      ensures Valid()
      ensures granted <==> ticket in closed
      ensures Value() == if granted then old(Value()) else M.Cancel(old(Value()), ticket)
    {
      granted := ticket in closed;
      if !granted {
        var i := Find(ticket);
        if i < |waiters| {
          ghost var ws := waiters;
          waiters := waiters[..i] + waiters[i + 1..];
          assert forall j :: 0 <= j < |waiters| ==> waiters[j] == ws[if j < i then j else j + 1];
        }
      }
    }

    method Find(ticket: nat) returns (i: nat)
      ensures i <= |waiters|
      ensures M.Drop(waiters, ticket) == if i < |waiters| then waiters[..i] + waiters[i + 1..] else waiters
    {
      assert waiters[0..] == waiters;
      i := 0;
      while i < |waiters| && waiters[i].ticket != ticket
        invariant 0 <= i <= |waiters|
        invariant M.Drop(waiters, ticket) == waiters[..i] + M.Drop(waiters[i..], ticket)
      {
        M.DropPasses(waiters, ticket, i);
        i := i + 1;
      }
    }

    method Release(n: nat)
      requires Valid()
      modifies this
      ensures Valid() && nextTicket == old(nextTicket)
      ensures Value() == M.Release(old(Value()), n) && |waiters| <= |old(waiters)|
      ensures closed == old(closed) + M.FirstTickets(old(waiters), |old(waiters)| - |waiters|)
    {
      cur := cur - n;
      WakeWaiters();
    }

    method WakeWaiters()
      requires Valid()
      modifies this`cur, this`waiters, this`closed
      ensures Valid()
      ensures Value() == M.Wake(old(Value())) && |waiters| <= |old(waiters)|
      ensures closed == old(closed) + M.FirstTickets(old(waiters), |old(waiters)| - |waiters|)
    {
      ghost var k := 0;
      ghost var ws := waiters;
      while |waiters| > 0
        invariant Valid()
        invariant k <= |ws| && waiters == ws[k..]
        invariant M.Wake(Value()) == M.Wake(old(Value()))
        invariant closed == old(closed) + M.FirstTickets(ws, k)
      {
        var w := waiters[0];
        if cur + w.n > capacity {
          break;
        }
        cur := cur + w.n;
        waiters := waiters[1..];
        closed := closed + {w.ticket};
        k := k + 1;
      }
    }
  }
}
