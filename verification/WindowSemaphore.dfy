/** The window semaphore as the object the stages share. Each method is one locked
    section; a blocked `Acquire` is a waiter with a ticket, and the ticket is in
    `closed` once the waiter's channel has been closed. */
module WindowSemaphores {
  import W = Window

  class WindowSemaphore {
    const limit: nat
    const released: array<bool>
    var base: nat
    var inFlight: int
    var waiters: seq<W.Waiter>
    var releaseCh: bool
    var closed: set<nat>
    var nextTicket: nat

    ghost predicate Valid()
      reads this, released
    {
      && 0 < limit == released.Length
      && !released[base % limit]
      && W.Orderly(waiters)
      && (forall x :: x in waiters ==> x.ticket < nextTicket && x.ticket !in closed)
      && (forall t :: t in closed ==> t < nextTicket)
    }

    ghost function Value(): (w: W.Win)
      requires Valid()
      reads this, released
      ensures W.Settled(w.ring)
    {
      W.Win(W.Ring(limit, base, released[..]), inFlight, waiters, releaseCh)
    }

    constructor (maxWindow: nat)
      requires 0 < maxWindow
      ensures Valid() && fresh(released) && limit == 2 * maxWindow
      ensures W.Refines(Value(), {}, {})
      ensures closed == {} && !releaseCh
    {
      limit := 2 * maxWindow;
      released := new bool[2 * maxWindow](_ => false);
      base, inFlight, waiters, releaseCh, closed, nextTicket := 0, 0, [], false, {}, 0;
    }

    /** The first locked section of Acquire: the id is let through, or a waiter is
        queued in id order. */
    method Acquire(reqID: nat) returns (granted: bool, ticket: nat)
      requires Valid()
      modifies this
      ensures Valid() && closed == old(closed)
      ensures ticket == old(nextTicket)
      ensures granted <==> W.Fits(old(Value()).ring, reqID)
      ensures Value() == W.Acquire(old(Value()), reqID, ticket)
    {
      ticket := nextTicket;
      nextTicket := nextTicket + 1;
      if base <= reqID < base + limit {
        inFlight := inFlight + 1;
        granted := true;
      } else {
        InsertWaiter(W.Waiter(reqID, ticket));
        granted := false;
      }
    }

    method InsertWaiter(w: W.Waiter)
      requires W.Orderly(waiters)
      requires forall x :: x in waiters ==> x.ticket != w.ticket
      modifies this`waiters
      ensures waiters == W.Insert(old(waiters), w)
      ensures W.Orderly(waiters)
    {
      W.InsertKeepsOrder(waiters, w);
      var i := 0;
      while i < |waiters| && waiters[i].reqID < w.reqID
        invariant 0 <= i <= |waiters| && forall j :: 0 <= j < i ==> waiters[j].reqID < w.reqID
      {
        i := i + 1;
      }
      W.InsertAt(waiters, w, i);
      waiters := waiters[..i] + [w] + waiters[i..];
    }

    /** The locked section that a cancelled Acquire runs: a grant that came first
        wins the race, otherwise the waiter leaves the queue. */
    method Cancel(ticket: nat) returns (granted: bool)
      requires Valid()
      modifies this`waiters
      ensures Valid()
      ensures granted <==> ticket in closed
      ensures Value() == if granted then old(Value()) else W.Cancel(old(Value()), ticket)
    {
      granted := ticket in closed;
      if !granted {
        RemoveWaiter(ticket);
      }
    }

    method RemoveWaiter(ticket: nat)
      requires W.Orderly(waiters)
      modifies this`waiters
      ensures waiters == W.Drop(old(waiters), ticket)
      ensures W.Orderly(waiters)
    {
      W.DropKeepsOrder(waiters, ticket);
      ghost var goal := W.Drop(waiters, ticket);
      assert waiters[0..] == waiters;
      var i := 0;
      while i < |waiters| && waiters[i].ticket != ticket
        invariant 0 <= i <= |waiters|
        invariant goal == waiters[..i] + W.Drop(waiters[i..], ticket)
      {
        W.DropPasses(waiters, ticket, i);
        i := i + 1;
      }
      if i < |waiters| {
        waiters := waiters[..i] + waiters[i + 1..];
      }
    }

    /** Release of any id: marks the id's slot, moves the base, wakes the waiters
        that now fit and raises the signal; nothing happens if the slot is marked. */
    method Release(reqID: nat)
      requires Valid()
      modifies this, released
      ensures Valid() && nextTicket == old(nextTicket)
      ensures Value() == W.Release(old(Value()), reqID)
      ensures forall x :: x in old(waiters) ==> (x.ticket in closed <==> x !in waiters)
      ensures old(closed) <= closed
    {
      var idx := reqID % limit;
      if released[idx] {
        return;
      }
      ghost var r0 := W.Ring(limit, base, released[..]);
      released[idx] := true;
      inFlight := inFlight - 1;
      assert released[..] == r0.slots[idx := true];
      AdvanceBase();
      WakeWaiters();
      releaseCh := true;
    }

    method AdvanceBase()
      requires 0 < limit == released.Length
      modifies this`base, released
      ensures W.Ring(limit, base, released[..]) == W.Advance(old(W.Ring(limit, base, released[..])))
    {
      ghost var goal := W.Advance(W.Ring(limit, base, released[..]));
      while released[base % limit]
        invariant goal == W.Advance(W.Ring(limit, base, released[..]))
        decreases W.Marks(released[..])
      {
        ghost var s := released[..];
        W.MarksCleared(s, base % limit);
        released[base % limit] := false;
        assert released[..] == s[base % limit := false];
        base := base + 1;
      }
    }

    method WakeWaiters()
      requires W.Orderly(waiters)
      requires forall x :: x in waiters ==> x.ticket !in closed && x.ticket < nextTicket
      modifies this`waiters, this`inFlight, this`closed
      ensures var r := W.Ring(limit, base, released[..]);
              && waiters == W.Asleep(r, old(waiters))
              && inFlight == old(inFlight) + |W.Awake(r, old(waiters))|
      ensures W.Orderly(waiters)
      ensures forall x :: x in waiters ==> x in old(waiters) && x.ticket !in closed
      ensures forall x :: x in old(waiters) ==> (x.ticket in closed <==> x !in waiters)
      ensures old(closed) <= closed
      ensures forall t :: t in closed ==> t in old(closed) || t < nextTicket
    {
      ghost var r := W.Ring(limit, base, released[..]);
      while |waiters| > 0
        invariant W.Asleep(r, waiters) == W.Asleep(r, old(waiters))
        invariant inFlight + |W.Awake(r, waiters)| == old(inFlight) + |W.Awake(r, old(waiters))|
        invariant W.Orderly(waiters)
        invariant forall x :: x in waiters ==> x in old(waiters) && x.ticket !in closed
        invariant forall x :: x in old(waiters) ==> x in waiters || x.ticket in closed
        invariant old(closed) <= closed
        invariant forall t :: t in closed ==> t in old(closed) || t < nextTicket
      {
        assert forall x :: x in waiters ==> x == waiters[0] || x in waiters[1..];
        var front := waiters[0];
        if !(base <= front.reqID < base + limit) {
          break;
        }
        waiters := waiters[1..];
        inFlight := inFlight + 1;
        closed := closed + {front.ticket};
      }
    }

    /** True exactly when every id up to and including `reqID` has been released. */
    method IsReleased(reqID: nat) returns (b: bool)
      requires Valid()
      ensures b <==> forall j: nat :: j <= reqID ==> W.Released(Value().ring, j)
    {
      W.BaseIsLeastUnreleased(Value().ring, reqID);
      b := base > reqID;
    }
  }
}
