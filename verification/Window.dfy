/** The sliding window over request ids: a ring of release marks, a base that
    moves over released ids, and the waiters sorted by id.

    `Ring` and `Win` are the values of the semaphore's fields between two locked
    sections; the functions on them are the locked sections. The class below runs
    the same sections in place. */
module Window {

  datatype Ring = Ring(limit: nat, base: nat, slots: seq<bool>)

  ghost predicate RingOk(r: Ring) {
    r.limit > 0 && |r.slots| == r.limit
  }

  /** Between two locked sections the mark at the base is clear. */
  ghost predicate Settled(r: Ring) {
    RingOk(r) && !r.slots[r.base % r.limit]
  }

  /** The set of released ids that a ring stands for. */
  ghost predicate Released(r: Ring, id: nat)
    requires RingOk(r)
  {
    id < r.base || (id < r.base + r.limit && r.slots[id % r.limit])
  }

  predicate Fits(r: Ring, id: nat) {
    r.base <= id < r.base + r.limit
  }

  const TWO64: nat := 0x1_0000_0000_0000_0000

  /** The source tests `reqID - base < limit` on unsigned 64-bit words. */
  lemma FitsIsTheWrappingTest(r: Ring, id: nat)
    requires id < TWO64 && r.base + r.limit <= TWO64
    ensures (id - r.base) % TWO64 < r.limit <==> Fits(r, id)
  {
    if id < r.base {
      assert (id - r.base) % TWO64 == id - r.base + TWO64;
    }
  }

  // ---- arithmetic on ring indices

  lemma MulAtLeast(m: nat, d: int)
    ensures d >= 1 ==> m * d >= m
    ensures d <= -1 ==> m * d <= 0 - m
  {
    if d >= 1 {
      assert m * d == m + m * (d - 1);
    } else if d <= -1 {
      assert m * d == m * (d + 1) - m;
    }
  }

  lemma ModUnique(x: nat, m: nat, q: nat, r: nat)
    requires m > 0 && x == m * q + r && r < m
    ensures x % m == r && x / m == q
  {
    var d := x / m - q;
    assert m * d == m * (x / m) - m * q;
    assert m * d == r - x % m;
    MulAtLeast(m, d);
  }

  lemma ModShift(a: nat, m: nat)
    requires m > 0
    ensures (a + m) % m == a % m
  {
    assert a + m == m * (a / m + 1) + a % m;
    ModUnique(a + m, m, a / m + 1, a % m);
  }

  /** Two ids less than a ring length apart never share a slot. */
  lemma ModDistinct(a: nat, b: nat, m: nat)
    requires m > 0 && a < b < a + m
    ensures a % m != b % m
  {
    var d := b / m - a / m;
    assert m * d == m * (b / m) - m * (a / m);
    assert b - a == m * d + (b % m - a % m);
    MulAtLeast(m, d);
  }

  // ---- the advance loop

  ghost function Marks(s: seq<bool>): nat {
    if s == [] then 0 else (if s[0] then 1 else 0) + Marks(s[1..])
  }

  lemma MarksCleared(s: seq<bool>, i: nat)
    requires i < |s| && s[i]
    ensures Marks(s[i := false]) + 1 == Marks(s)
  {
    if i == 0 {
      assert s[0 := false][1..] == s[1..];
    } else {
      assert s[i := false][1..] == s[1..][i - 1 := false];
      MarksCleared(s[1..], i - 1);
    }
  }

  /** Moves the base over released ids, clearing their marks. */
  ghost function Advance(r: Ring): (a: Ring)
    requires RingOk(r)
    ensures Settled(a) && a.limit == r.limit && r.base <= a.base
    decreases Marks(r.slots)
  {
    var i := r.base % r.limit;
    if r.slots[i] then
      MarksCleared(r.slots, i);
      Advance(Ring(r.limit, r.base + 1, r.slots[i := false]))
    else r
  }

  lemma StepKeepsReleased(r: Ring, id: nat)
    requires RingOk(r) && r.slots[r.base % r.limit]
    ensures var a := Ring(r.limit, r.base + 1, r.slots[r.base % r.limit := false]);
            Released(a, id) <==> Released(r, id)
  {
    if r.base < id < r.base + r.limit {
      ModDistinct(r.base, id, r.limit);
    } else if id == r.base + r.limit {
      ModShift(r.base, r.limit);
    }
  }

  /** The advance loop changes the representation only. */
  lemma {:induction false} AdvanceKeepsReleased(r: Ring, id: nat)
    requires RingOk(r)
    ensures Released(Advance(r), id) <==> Released(r, id)
    decreases Marks(r.slots)
  {
    var i := r.base % r.limit;
    if r.slots[i] {
      MarksCleared(r.slots, i);
      StepKeepsReleased(r, id);
      AdvanceKeepsReleased(Ring(r.limit, r.base + 1, r.slots[i := false]), id);
    }
  }

  /** The ring part of the release section, for any id whatever. */
  ghost function RingRelease(r: Ring, id: nat): (a: Ring)
    requires Settled(r)
    ensures Settled(a) && a.limit == r.limit && r.base <= a.base
  {
    var i := id % r.limit;
    if r.slots[i] then r else Advance(r.(slots := r.slots[i := true]))
  }

  /** The one id of the window that shares a slot with `id`. */
  ghost function Occupant(r: Ring, id: nat): (o: nat)
    requires RingOk(r)
    ensures Fits(r, o) && o % r.limit == id % r.limit
  {
    var b, i := r.base % r.limit, id % r.limit;
    var d := if i >= b then i - b else i + r.limit - b;
    assert (r.base + d) % r.limit == i by {
      var q := r.base / r.limit;
      assert r.base == r.limit * q + b;
      if i >= b {
        ModUnique(r.base + d, r.limit, q, i);
      } else {
        assert r.base + d == r.limit * (q + 1) + i;
        ModUnique(r.base + d, r.limit, q + 1, i);
      }
    }
    r.base + d
  }

  lemma OccupantUnique(r: Ring, id: nat, o: nat)
    requires RingOk(r) && Fits(r, o) && o % r.limit == id % r.limit
    ensures o == Occupant(r, id)
  {
    var u := Occupant(r, id);
    if o < u { ModDistinct(o, u, r.limit); }
    if u < o { ModDistinct(u, o, r.limit); }
  }

  /** What a release does to the released set, whatever id it is given: it adds
      the occupant of the id's slot, unless that slot is marked already. */
  lemma ReleaseAddsOccupant(r: Ring, id: nat, j: nat)
    requires Settled(r)
    ensures Released(RingRelease(r, id), j) <==> Released(r, j) || j == Occupant(r, id)
  {
    var i := id % r.limit;
    var o := Occupant(r, id);
    if !r.slots[i] {
      var m := r.(slots := r.slots[i := true]);
      AdvanceKeepsReleased(m, j);
      if Fits(r, j) && j % r.limit == i {
        OccupantUnique(r, id, j);
      }
    }
  }

  /** Releasing `id` adds exactly `id` to the released set if and only if the id
      is in the window, or it is already below the base and its slot is marked. */
  lemma ReleaseRefinesSetInsertion(r: Ring, id: nat)
    requires Settled(r)
    ensures (forall j: nat :: Released(RingRelease(r, id), j) <==> Released(r, j) || j == id)
       <==> Fits(r, id) || (id < r.base && r.slots[id % r.limit])
  {
    var o := Occupant(r, id);
    forall j: nat
      ensures Released(RingRelease(r, id), j) <==> Released(r, j) || j == o
    {
      ReleaseAddsOccupant(r, id, j);
    }
    if Fits(r, id) {
      OccupantUnique(r, id, id);
    } else if id < r.base && r.slots[id % r.limit] {
      assert Released(r, o);
      assert forall j: nat :: j == id ==> Released(r, j);
    } else {
      if id < r.base {
        assert !Released(r, o) && Released(RingRelease(r, id), o) && o != id;
      } else {
        assert !Released(r, id) && !Released(RingRelease(r, id), id);
      }
    }
  }

  /** The base is the least id not released, in every settled ring. */
  lemma BaseIsLeastUnreleased(r: Ring, id: nat)
    requires Settled(r)
    ensures !Released(r, r.base)
    ensures id < r.base ==> Released(r, id)
    ensures id < r.base <==> (forall j: nat :: j <= id ==> Released(r, j))
  {
    if r.base <= id {
      assert !Released(r, r.base);
    }
  }

  /** Slot `i` is marked exactly when the one id of the window on it is released. */
  lemma SlotMarkedIffOccupantReleased(r: Ring, i: nat)
    requires Settled(r) && i < r.limit
    ensures r.slots[i] <==> Released(r, Occupant(r, i))
  {
    ModUnique(i, r.limit, 0, i);
  }

  /** A second release of an id that has left the window marks a younger id: with
      a window of four, releasing 0 twice after 0 was reclaimed releases 4. */
  lemma StaleReleaseMarksYoungerId()
    ensures var r0 := Ring(4, 0, [false, false, false, false]);
            var r1 := RingRelease(r0, 0);
            var r2 := RingRelease(r1, 0);
            r1.base == 1 && !Released(r1, 4) && Released(r2, 4)
  {
    var r0 := Ring(4, 0, [false, false, false, false]);
    var m := Ring(4, 0, [true, false, false, false]);
    assert r0.slots[0 := true] == m.slots;
    assert m.slots[0 := false] == r0.slots;
    var r1 := Ring(4, 1, r0.slots);
    assert Advance(r1) == r1;
    assert Advance(m) == r1;
    assert RingRelease(r0, 0) == r1;
    ReleaseAddsOccupant(r1, 0, 4);
    OccupantUnique(r1, 0, 4);
  }

  // ---- the whole semaphore

  datatype Waiter = Waiter(reqID: nat, ticket: nat)

  /** `signal` is the one-slot release channel. */
  datatype Win = Win(ring: Ring, inFlight: int, waiters: seq<Waiter>, signal: bool)

  /** Sorted by id, and every waiter has a ticket of its own. */
  ghost predicate Orderly(ws: seq<Waiter>) {
    ws == [] || ((forall x :: x in ws[1..] ==> ws[0].reqID <= x.reqID && ws[0].ticket != x.ticket)
                 && Orderly(ws[1..]))
  }

  /** A new waiter goes in front of the first waiter with an equal or larger id. */
  ghost function Insert(ws: seq<Waiter>, w: Waiter): (r: seq<Waiter>)
    ensures |r| == |ws| + 1
    ensures forall x :: x in r <==> x == w || x in ws
  {
    if ws == [] || ws[0].reqID >= w.reqID then [w] + ws
    else [ws[0]] + Insert(ws[1..], w)
  }

  /** The place that a scan from the front finds. */
  lemma {:induction false} InsertAt(ws: seq<Waiter>, w: Waiter, i: nat)
    requires i <= |ws| && (forall j :: 0 <= j < i ==> ws[j].reqID < w.reqID)
    requires i < |ws| ==> ws[i].reqID >= w.reqID
    ensures Insert(ws, w) == ws[..i] + [w] + ws[i..]
  {
    if i > 0 {
      InsertAt(ws[1..], w, i - 1);
      assert ws[..i] == [ws[0]] + ws[1..][..i - 1];
    }
  }

  lemma {:induction false} InsertKeepsOrder(ws: seq<Waiter>, w: Waiter)
    requires Orderly(ws)
    requires forall x :: x in ws ==> x.ticket != w.ticket
    ensures Orderly(Insert(ws, w))
  {
    if ws != [] && ws[0].reqID < w.reqID {
      InsertKeepsOrder(ws[1..], w);
      assert Insert(ws, w)[1..] == Insert(ws[1..], w);
    } else {
      assert Insert(ws, w)[1..] == ws;
      assert ws != [] ==> forall x :: x in ws ==> x == ws[0] || x in ws[1..];
    }
  }

  /** The waiters at the front of the list that fit, and the list without them. */
  ghost function Awake(r: Ring, ws: seq<Waiter>): (a: seq<Waiter>) {
    if ws != [] && Fits(r, ws[0].reqID) then [ws[0]] + Awake(r, ws[1..]) else []
  }

  ghost function Asleep(r: Ring, ws: seq<Waiter>): (a: seq<Waiter>) {
    if ws != [] && Fits(r, ws[0].reqID) then Asleep(r, ws[1..]) else ws
  }

  ghost function Wake(w: Win): (v: Win) {
    w.(inFlight := w.inFlight + |Awake(w.ring, w.waiters)|,
       waiters := Asleep(w.ring, w.waiters))
  }

  ghost function Acquire(w: Win, id: nat, ticket: nat): (v: Win) {
    if Fits(w.ring, id) then w.(inFlight := w.inFlight + 1)
    else w.(waiters := Insert(w.waiters, Waiter(id, ticket)))
  }

  ghost function Marked(w: Win, id: nat): (v: Win)
    requires Settled(w.ring)
  {
    w.(ring := RingRelease(w.ring, id), inFlight := w.inFlight - 1)
  }

  ghost function Release(w: Win, id: nat): (v: Win)
    requires Settled(w.ring)
  {
    if w.ring.slots[id % w.ring.limit] then w
    else Wake(Marked(w, id)).(signal := true)
  }

  ghost function Drop(ws: seq<Waiter>, ticket: nat): (r: seq<Waiter>)
    ensures forall w :: w in r ==> w in ws
    ensures forall w :: w in ws && w.ticket != ticket ==> w in r
    ensures |ws| - 1 <= |r| <= |ws|
  {
    if ws == [] then []
    else if ws[0].ticket == ticket then ws[1..]
    else [ws[0]] + Drop(ws[1..], ticket)
  }

  lemma DropPasses(ws: seq<Waiter>, ticket: nat, i: nat)
    requires i < |ws| && ws[i].ticket != ticket
    ensures ws[..i] + Drop(ws[i..], ticket) == ws[..i + 1] + Drop(ws[i + 1..], ticket)
  {
    assert ws[i..][1..] == ws[i + 1..];
    assert ws[..i + 1] == ws[..i] + [ws[i]];
  }

  lemma {:induction false} DropKeepsOrder(ws: seq<Waiter>, ticket: nat)
    requires Orderly(ws)
    ensures Orderly(Drop(ws, ticket))
  {
    if ws != [] && ws[0].ticket != ticket {
      DropKeepsOrder(ws[1..], ticket);
      assert Drop(ws, ticket)[1..] == Drop(ws[1..], ticket);
    }
  }

  ghost function Cancel(w: Win, ticket: nat): (v: Win) {
    w.(waiters := Drop(w.waiters, ticket))
  }

  // ---- use with every id acquired once and released once

  ghost predicate Ascending(ws: seq<Waiter>) {
    ws == [] || ((forall x :: x in ws[1..] ==> ws[0].reqID < x.reqID) && Ascending(ws[1..]))
  }

  ghost function Ids(ws: seq<Waiter>): (s: set<nat>)
    ensures forall x :: x in ws ==> x.reqID in s
  {
    if ws == [] then {} else {ws[0].reqID} + Ids(ws[1..])
  }

  lemma {:induction false} IdsWitness(ws: seq<Waiter>, id: nat) returns (x: Waiter)
    requires id in Ids(ws)
    ensures x in ws && x.reqID == id
  {
    if ws[0].reqID == id {
      x := ws[0];
    } else {
      x := IdsWitness(ws[1..], id);
    }
  }

  /** The semaphore stands for two sets: the ids in flight and the ids released.
      No waiter that fits the window is left asleep. */
  ghost predicate Refines(w: Win, held: set<nat>, rel: set<nat>) {
    && Settled(w.ring)
    && (forall id: nat :: id in rel <==> Released(w.ring, id))
    && (forall id :: id in held ==> Fits(w.ring, id) && id !in rel)
    && w.inFlight == |held|
    && Ascending(w.waiters)
    && (forall x :: x in w.waiters ==> x.reqID >= w.ring.base + w.ring.limit)
  }

  function Range(lo: nat, n: nat): (s: set<nat>)
    ensures forall x :: x in s <==> lo <= x < lo + n
    ensures |s| == n
  {
    if n == 0 then {} else Range(lo, n - 1) + {lo + n - 1}
  }

  lemma SubsetSize(a: set<nat>, b: set<nat>)
    requires a <= b
    ensures |a| <= |b|
    decreases a
  {
    if a != {} {
      var x :| x in a;
      SubsetSize(a - {x}, b - {x});
    }
  }

  lemma InFlightBounded(w: Win, held: set<nat>, rel: set<nat>)
    requires Refines(w, held, rel)
    ensures 0 <= w.inFlight <= w.ring.limit
  {
    SubsetSize(held, Range(w.ring.base, w.ring.limit));
  }

  lemma AcquireRefines(w: Win, held: set<nat>, rel: set<nat>, id: nat, ticket: nat)
    requires Refines(w, held, rel) && id !in held && id !in rel && id !in Ids(w.waiters)
    ensures var v := Acquire(w, id, ticket);
            v.ring == w.ring &&
            if Fits(w.ring, id)
            then Refines(v, held + {id}, rel) && v.waiters == w.waiters
            else Refines(v, held, rel) && Ids(v.waiters) == Ids(w.waiters) + {id}
  {
    BaseIsLeastUnreleased(w.ring, id);
    if !Fits(w.ring, id) {
      var x := Waiter(id, ticket);
      InsertAscending(w.waiters, x);
      InsertIds(w.waiters, x);
    }
  }

  lemma {:induction false} InsertIds(ws: seq<Waiter>, w: Waiter)
    ensures Ids(Insert(ws, w)) == Ids(ws) + {w.reqID}
  {
    if ws != [] && ws[0].reqID < w.reqID {
      InsertIds(ws[1..], w);
      assert Insert(ws, w)[1..] == Insert(ws[1..], w);
    } else {
      assert Insert(ws, w)[1..] == ws;
    }
  }

  lemma {:induction false} InsertAscending(ws: seq<Waiter>, w: Waiter)
    requires Ascending(ws) && w.reqID !in Ids(ws)
    ensures Ascending(Insert(ws, w))
  {
    if ws != [] {
      if ws[0].reqID < w.reqID {
        InsertAscending(ws[1..], w);
        assert Insert(ws, w)[1..] == Insert(ws[1..], w);
      } else {
        assert Insert(ws, w)[1..] == ws;
        assert forall x :: x in ws ==> x == ws[0] || x in ws[1..];
      }
    }
  }

  /** The ids of the waiters that a release lets through. */
  ghost function WokenBy(w: Win, id: nat): (s: set<nat>)
    requires Settled(w.ring)
  {
    if w.ring.slots[id % w.ring.limit] then {} else Ids(Awake(Marked(w, id).ring, w.waiters))
  }

  lemma {:induction false} AwakeFit(r: Ring, ws: seq<Waiter>)
    ensures forall x :: x in Awake(r, ws) ==> x in ws && Fits(r, x.reqID)
  {
    if ws != [] && Fits(r, ws[0].reqID) {
      AwakeFit(r, ws[1..]);
    }
  }

  lemma {:induction false} AsleepSubset(r: Ring, ws: seq<Waiter>)
    ensures forall x :: x in Asleep(r, ws) ==> x in ws
  {
    if ws != [] && Fits(r, ws[0].reqID) {
      AsleepSubset(r, ws[1..]);
    }
  }

  lemma {:induction false} AsleepWait(r: Ring, ws: seq<Waiter>)
    requires Ascending(ws)
    requires forall x :: x in ws ==> r.base <= x.reqID
    ensures Ascending(Asleep(r, ws))
    ensures forall x :: x in Asleep(r, ws) ==> x in ws && x.reqID >= r.base + r.limit
  {
    if ws != [] {
      assert ws[0] in ws;
      if Fits(r, ws[0].reqID) {
        AsleepWait(r, ws[1..]);
      } else {
        assert forall x :: x in ws ==> x == ws[0] || x in ws[1..];
      }
    }
  }

  lemma HeadIdFresh(ws: seq<Waiter>)
    requires ws != [] && Ascending(ws)
    ensures ws[0].reqID !in Ids(ws[1..])
  {
    if ws[0].reqID in Ids(ws[1..]) {
      var x := IdsWitness(ws[1..], ws[0].reqID);
    }
  }

  /** Waking splits the waiting ids into those let through and the rest. */
  lemma {:induction false} WakeSplitsIds(r: Ring, ws: seq<Waiter>)
    requires Ascending(ws)
    ensures Ids(ws) == Ids(Awake(r, ws)) + Ids(Asleep(r, ws))
    ensures Ids(Awake(r, ws)) !! Ids(Asleep(r, ws))
    ensures |Ids(Awake(r, ws))| == |Awake(r, ws)|
  {
    if ws != [] && Fits(r, ws[0].reqID) {
      WakeSplitsIds(r, ws[1..]);
      assert Awake(r, ws)[1..] == Awake(r, ws[1..]);
      HeadIdFresh(ws);
    }
  }

  /** A semaphore whose ring has moved on and whose waiters were not woken yet. */
  ghost predicate Unwoken(w: Win, held: set<nat>, rel: set<nat>) {
    && Settled(w.ring)
    && (forall id: nat :: id in rel <==> Released(w.ring, id))
    && (forall id :: id in held ==> Fits(w.ring, id) && id !in rel)
    && w.inFlight == |held|
    && Ascending(w.waiters)
    && (forall x :: x in w.waiters ==> x.reqID !in rel && x.reqID !in held)
  }

  lemma MarkedUnwoken(w: Win, held: set<nat>, rel: set<nat>, id: nat)
    requires Refines(w, held, rel) && id in held
    ensures Unwoken(Marked(w, id), held - {id}, rel + {id})
    ensures !w.ring.slots[id % w.ring.limit]
  {
    var m := RingRelease(w.ring, id);
    ReleaseRefinesSetInsertion(w.ring, id);
    assert forall j: nat :: j in rel + {id} <==> Released(m, j);
    forall x | x in held - {id} ensures Fits(m, x) {
      BaseIsLeastUnreleased(m, x);
    }
    forall x | x in w.waiters ensures x.reqID !in rel + {id} {
      assert !Released(w.ring, x.reqID);
    }
  }

  lemma WakeRefines(w: Win, held: set<nat>, rel: set<nat>)
    requires Unwoken(w, held, rel)
    ensures Refines(Wake(w), held + Ids(Awake(w.ring, w.waiters)), rel)
    ensures Ids(Awake(w.ring, w.waiters)) !! held
  {
    var a := Awake(w.ring, w.waiters);
    WakeSplitsIds(w.ring, w.waiters);
    AwakeFit(w.ring, w.waiters);
    forall x | x in w.waiters ensures w.ring.base <= x.reqID {
      BaseIsLeastUnreleased(w.ring, x.reqID);
    }
    AsleepWait(w.ring, w.waiters);
    forall i | i in Ids(a) ensures Fits(w.ring, i) && i !in rel && i !in held {
      var x := IdsWitness(a, i);
    }
    assert |held + Ids(a)| == |held| + |Ids(a)|;
  }

  /** Releasing an id in flight moves it to the released set, lets through exactly
      the waiters that now fit, and raises the release signal. */
  lemma ReleaseRefines(w: Win, held: set<nat>, rel: set<nat>, id: nat)
    requires Refines(w, held, rel) && id in held
    ensures Refines(Release(w, id), held - {id} + WokenBy(w, id), rel + {id})
    ensures WokenBy(w, id) <= Ids(w.waiters) && WokenBy(w, id) !! held - {id}
    ensures Ids(Release(w, id).waiters) == Ids(w.waiters) - WokenBy(w, id)
    ensures Release(w, id).signal && Release(w, id).ring.limit == w.ring.limit
  {
    MarkedUnwoken(w, held, rel, id);
    WakeRefines(Marked(w, id), held - {id}, rel + {id});
    WakeSplitsIds(Marked(w, id).ring, w.waiters);
  }

  /** Cancelling a sleeping waiter takes out that waiter and nothing else. */
  lemma CancelRefines(w: Win, held: set<nat>, rel: set<nat>, x: Waiter)
    requires Refines(w, held, rel) && x in w.waiters
    requires forall y :: y in w.waiters && y.ticket == x.ticket ==> y == x
    ensures var v := Cancel(w, x.ticket);
            Refines(v, held, rel) && Ids(v.waiters) == Ids(w.waiters) - {x.reqID}
  {
    DropAscending(w.waiters, x);
  }

  lemma {:induction false} DropAscending(ws: seq<Waiter>, x: Waiter)
    requires Ascending(ws) && x in ws
    requires forall y :: y in ws && y.ticket == x.ticket ==> y == x
    ensures Ascending(Drop(ws, x.ticket))
    ensures Ids(Drop(ws, x.ticket)) == Ids(ws) - {x.reqID}
  {
    assert ws[0] in ws;
    HeadIdFresh(ws);
    if ws[0].ticket != x.ticket {
      assert x in ws[1..];
      DropAscending(ws[1..], x);
      var r := Drop(ws, x.ticket);
      assert r[1..] == Drop(ws[1..], x.ticket);
    }
  }
}
