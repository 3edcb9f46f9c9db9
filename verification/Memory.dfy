/** The weighted memory semaphore: bytes in use, and a first-in first-out queue of
    waiters. As for the window, `Mem` is the value of the fields between two locked
    sections and the functions are the locked sections. */
module Memory {

  datatype Waiter = Waiter(n: nat, ticket: nat)

  datatype Mem = Mem(capacity: int, cur: int, waiters: seq<Waiter>)

  ghost function Acquire(m: Mem, n: nat, ticket: nat): (r: Mem) {
    if m.cur + n <= m.capacity && m.waiters == [] then m.(cur := m.cur + n)
    else m.(waiters := m.waiters + [Waiter(n, ticket)])
  }

  /** Acquire lets the caller through at once. */
  ghost predicate Immediate(m: Mem, n: nat) {
    m.cur + n <= m.capacity && m.waiters == []
  }

  /** The waiters at the front of the queue that fit one after the other. */
  ghost function Awake(capacity: int, cur: int, ws: seq<Waiter>): (a: seq<Waiter>)
    decreases ws
  {
    if ws != [] && cur + ws[0].n <= capacity
    then [ws[0]] + Awake(capacity, cur + ws[0].n, ws[1..]) else []
  }

  ghost function Asleep(capacity: int, cur: int, ws: seq<Waiter>): (a: seq<Waiter>)
    decreases ws
  {
    if ws != [] && cur + ws[0].n <= capacity
    then Asleep(capacity, cur + ws[0].n, ws[1..]) else ws
  }

  ghost function Total(ws: seq<Waiter>): (t: nat) {
    if ws == [] then 0 else ws[0].n + Total(ws[1..])
  }

  /** The tickets of the first waiters. */
  ghost function FirstTickets(ws: seq<Waiter>, k: nat): set<nat>
    requires k <= |ws|
  {
    if k == 0 then {} else FirstTickets(ws, k - 1) + {ws[k - 1].ticket}
  }

  ghost function Wake(m: Mem): (r: Mem) {
    Mem(m.capacity, m.cur + Total(Awake(m.capacity, m.cur, m.waiters)),
        Asleep(m.capacity, m.cur, m.waiters))
  }

  ghost function Release(m: Mem, n: nat): (r: Mem) {
    Wake(m.(cur := m.cur - n))
  }

  ghost function Drop(ws: seq<Waiter>, ticket: nat): (r: seq<Waiter>) {
    if ws == [] then []
    else if ws[0].ticket == ticket then ws[1..]
    else [ws[0]] + Drop(ws[1..], ticket)
  }

  lemma DropPasses(ws: seq<Waiter>, ticket: nat, i: nat)
    requires i < |ws| && ws[i].ticket != ticket
    ensures ws[..i] + Drop(ws[i..], ticket) == ws[..i + 1] + Drop(ws[i + 1..], ticket)
  {
    assert ws[i..][1..] == ws[i + 1..];
    assert ws[..i + 1] == ws[..i] + [ws[i]];
  }

  ghost function Cancel(m: Mem, ticket: nat): (r: Mem) {
    m.(waiters := Drop(m.waiters, ticket))
  }

  // ---- the front of the queue

  /** The waiter at the front does not fit. */
  ghost predicate Tight(m: Mem) {
    m.waiters != [] ==> m.cur + m.waiters[0].n > m.capacity
  }

  lemma {:induction false} WakeTight(capacity: int, cur: int, ws: seq<Waiter>)
    ensures ws == Awake(capacity, cur, ws) + Asleep(capacity, cur, ws)
    ensures Tight(Wake(Mem(capacity, cur, ws)))
    ensures cur <= capacity ==> cur + Total(Awake(capacity, cur, ws)) <= capacity
    decreases ws
  {
    if ws != [] && cur + ws[0].n <= capacity {
      WakeTight(capacity, cur + ws[0].n, ws[1..]);
      assert Awake(capacity, cur, ws)[1..] == Awake(capacity, cur + ws[0].n, ws[1..]);
      assert ws == [ws[0]] + ws[1..];
    }
  }

  /** Neither acquiring nor releasing takes the use over the capacity or leaves a
      front waiter that fits; a release repairs even a queue that a cancel left. */
  lemma AcquireReleaseTight(m: Mem, n: nat, ticket: nat)
    requires m.cur <= m.capacity
    ensures Acquire(m, n, ticket).cur <= m.capacity
    ensures Tight(m) ==> Tight(Acquire(m, n, ticket))
    ensures Release(m, n).cur <= m.capacity && Tight(Release(m, n))
  {
    WakeTight(m.capacity, m.cur - n, m.waiters);
  }

  /** A cancel wakes nobody, so it leaves a front waiter that fits exactly when it
      takes out the front and the next in line fits. */
  lemma CancelTightIff(m: Mem, ticket: nat)
    requires Tight(m)
    ensures Tight(Cancel(m, ticket)) <==>
            !(|m.waiters| > 1 && m.waiters[0].ticket == ticket && m.cur + m.waiters[1].n <= m.capacity)
  {
    var ws := m.waiters;
    if ws != [] && ws[0].ticket != ticket {
      assert Drop(ws, ticket)[0] == ws[0];
    }
  }

  // ---- first in, first out, over whole histories

  datatype Op = AcquireOp(n: nat) | ReleaseOp(n: nat) | CancelOp(ticket: nat)

  /** Tickets number the arrivals; `grants` lists the tickets let through, in the
      order of the grants, and `gone` those that gave up. */
  datatype History = History(mem: Mem, next: nat, grants: seq<nat>, gone: set<nat>)

  ghost function Tickets(ws: seq<Waiter>): (s: seq<nat>)
    ensures |s| == |ws|
  {
    if ws == [] then [] else [ws[0].ticket] + Tickets(ws[1..])
  }

  ghost function Do(h: History, op: Op): (r: History) {
    match op
    case AcquireOp(n) =>
      History(Acquire(h.mem, n, h.next), h.next + 1,
              if Immediate(h.mem, n) then h.grants + [h.next] else h.grants, h.gone)
    case ReleaseOp(n) =>
      h.(mem := Release(h.mem, n),
         grants := h.grants + Tickets(Awake(h.mem.capacity, h.mem.cur - n, h.mem.waiters)))
    case CancelOp(t) =>
      if t in Tickets(h.mem.waiters)
      then h.(mem := Cancel(h.mem, t), gone := h.gone + {t}) else h
  }

  ghost function Run(capacity: int, ops: seq<Op>): (h: History) {
    if ops == [] then History(Mem(capacity, 0, []), 0, [], {})
    else Do(Run(capacity, ops[..|ops| - 1]), ops[|ops| - 1])
  }

  ghost predicate Ascending(s: seq<nat>) {
    forall i, j :: 0 <= i < j < |s| ==> s[i] < s[j]
  }

  ghost function Without(s: seq<nat>, t: nat): (r: seq<nat>) {
    if s == [] then [] else if s[0] == t then s[1..] else [s[0]] + Without(s[1..], t)
  }

  lemma {:induction false} WithoutAt(s: seq<nat>, t: nat) returns (k: nat)
    requires t in s
    ensures k < |s| && s[k] == t && Without(s, t) == s[..k] + s[k + 1..]
  {
    if s[0] == t {
      k := 0;
    } else {
      assert t in s[1..];
      k := WithoutAt(s[1..], t);
      k := k + 1;
      assert s[..k] == [s[0]] + s[1..][..k - 1];
    }
  }

  lemma {:induction false} DropTickets(ws: seq<Waiter>, t: nat)
    ensures Tickets(Drop(ws, t)) == Without(Tickets(ws), t)
  {
    if ws != [] {
      assert Tickets(ws)[1..] == Tickets(ws[1..]);
      if ws[0].ticket != t {
        DropTickets(ws[1..], t);
        assert Drop(ws, t)[1..] == Drop(ws[1..], t);
      }
    }
  }

  lemma {:induction false} TicketsConcat(a: seq<Waiter>, b: seq<Waiter>)
    ensures Tickets(a + b) == Tickets(a) + Tickets(b)
  {
    if a == [] {
      assert a + b == b;
    } else {
      assert (a + b)[1..] == a[1..] + b;
      TicketsConcat(a[1..], b);
    }
  }

  /** Grants followed by the queue: the arrivals that have not given up, in order. */
  ghost function Order(h: History): (s: seq<nat>) {
    h.grants + Tickets(h.mem.waiters)
  }

  ghost predicate Fifo(h: History) {
    && h.mem.cur <= h.mem.capacity
    && Ascending(Order(h))
    && Accounted(Order(h), h.gone, h.next)
  }

  /** Every ticket issued is in the order or has given up, and not both. */
  ghost predicate Accounted(order: seq<nat>, gone: set<nat>, next: nat) {
    && (forall i :: 0 <= i < |order| ==> order[i] < next && order[i] !in gone)
    && (forall t :: t in gone ==> t < next)
    && (forall t: nat :: t < next ==> t in order || t in gone)
  }

  lemma DoKeepsFifo(h: History, op: Op)
    requires Fifo(h)
    ensures Fifo(Do(h, op))
  {
    match op
    case AcquireOp(n) => ArrivalKeepsFifo(h, n);
    case ReleaseOp(n) => WakingKeepsFifo(h, n);
    case CancelOp(t) =>
      if t in Tickets(h.mem.waiters) {
        CancelKeepsFifo(h, t);
      }
  }

  /** Those woken and those that sleep on are the whole queue, in order. */
  lemma TicketsWoken(capacity: int, cur: int, ws: seq<Waiter>)
    ensures Tickets(ws) == Tickets(Awake(capacity, cur, ws)) + Tickets(Asleep(capacity, cur, ws))
  {
    WakeTight(capacity, cur, ws);
    TicketsConcat(Awake(capacity, cur, ws), Asleep(capacity, cur, ws));
  }

  lemma Regrouped(g: seq<nat>, a: seq<nat>, z: seq<nat>, ws: seq<nat>)
    requires ws == a + z
    ensures g + a + z == g + ws
  {
  }

  lemma WakingKeepsOrder(h: History, n: nat)
    ensures var r := Do(h, ReleaseOp(n)); Order(r) == Order(h) && r.gone == h.gone && r.next == h.next
  {
    var c, u, ws := h.mem.capacity, h.mem.cur - n, h.mem.waiters;
    TicketsWoken(c, u, ws);
    Regrouped(h.grants, Tickets(Awake(c, u, ws)), Tickets(Asleep(c, u, ws)), Tickets(ws));
  }

  lemma WakingKeepsFifo(h: History, n: nat)
    requires Fifo(h)
    ensures Fifo(Do(h, ReleaseOp(n)))
  {
    WakingKeepsOrder(h, n);
    AcquireReleaseTight(h.mem, n, h.next);
  }

  lemma ArrivalKeepsFifo(h: History, n: nat)
    requires Fifo(h)
    ensures Fifo(Do(h, AcquireOp(n)))
  {
    var r := Do(h, AcquireOp(n));
    AcquireReleaseTight(h.mem, n, h.next);
    if !Immediate(h.mem, n) {
      TicketsConcat(h.mem.waiters, [Waiter(n, h.next)]);
      assert Tickets([Waiter(n, h.next)]) == [h.next];
    }
    assert Order(r) == Order(h) + [h.next];
    assert forall t: nat :: t in Order(h) ==> t in Order(r);
    assert Order(r)[|Order(h)|] == h.next;
  }

  lemma RemovalAccounted(o: seq<nat>, c: nat, gone: set<nat>, next: nat)
    requires Ascending(o) && Accounted(o, gone, next) && c < |o|
    ensures Ascending(o[..c] + o[c + 1..])
    ensures Accounted(o[..c] + o[c + 1..], gone + {o[c]}, next)
  {
    var p := o[..c] + o[c + 1..];
    assert forall i :: 0 <= i < c ==> p[i] == o[i];
    assert forall i :: c <= i < |p| ==> p[i] == o[i + 1];
    forall x: nat | x < next && x != o[c] && x !in gone ensures x in p {
      assert x in o;
      var i :| 0 <= i < |o| && o[i] == x;
      assert x == p[if i < c then i else i - 1];
    }
  }

  lemma RemoveBehind(g: seq<nat>, s: seq<nat>, k: nat)
    requires k < |s|
    ensures (g + s)[|g| + k] == s[k]
    ensures (g + s)[..|g| + k] + (g + s)[|g| + k + 1..] == g + (s[..k] + s[k + 1..])
  {
  }

  /** A cancel takes one ticket out of the order. */
  lemma CancelTakesOut(h: History, t: nat) returns (c: nat)
    requires t in Tickets(h.mem.waiters)
    ensures var r := Do(h, CancelOp(t));
            && c < |Order(h)| && Order(h)[c] == t && Order(r) == Order(h)[..c] + Order(h)[c + 1..]
            && r.gone == h.gone + {t} && r.next == h.next && r.mem.cur == h.mem.cur && r.mem.capacity == h.mem.capacity
  {
    DropTickets(h.mem.waiters, t);
    var k := WithoutAt(Tickets(h.mem.waiters), t);
    c := |h.grants| + k;
    RemoveBehind(h.grants, Tickets(h.mem.waiters), k);
  }

  lemma CancelKeepsFifo(h: History, t: nat)
    requires Fifo(h) && t in Tickets(h.mem.waiters)
    ensures Fifo(Do(h, CancelOp(t)))
  {
    var c := CancelTakesOut(h, t);
    RemovalAccounted(Order(h), c, h.gone, h.next);
  }

  lemma {:induction false} RunKeepsFifo(capacity: nat, ops: seq<Op>)
    ensures Fifo(Run(capacity, ops)) && Run(capacity, ops).mem.capacity == capacity
  {
    if ops != [] {
      RunKeepsFifo(capacity, ops[..|ops| - 1]);
      DoKeepsFifo(Run(capacity, ops[..|ops| - 1]), ops[|ops| - 1]);
    }
  }

  /** In every history the use stays within the capacity, and nobody overtakes: when
      a later arrival has been let through, an earlier one was let through before it
      or has given up. */
  lemma NoOvertaking(capacity: nat, ops: seq<Op>, early: nat, late: nat)
    requires early < late && late in Run(capacity, ops).grants
    ensures Run(capacity, ops).mem.cur <= capacity
    ensures early in Run(capacity, ops).gone ||
            exists i, j :: 0 <= i < j < |Run(capacity, ops).grants|
              && Run(capacity, ops).grants[i] == early && Run(capacity, ops).grants[j] == late
  {
    var h := Run(capacity, ops);
    var o := Order(h);
    RunKeepsFifo(capacity, ops);
    if early !in h.gone {
      var j :| 0 <= j < |h.grants| && h.grants[j] == late;
      assert o[j] == late;
      assert late in o && early in o;
      var i :| 0 <= i < |o| && o[i] == early;
      assert h.grants[i] == early;
    }
  }

  ghost predicate CancelFree(ops: seq<Op>) {
    forall op :: op in ops ==> !op.CancelOp?
  }

  /** Without cancels the front waiter never fits. */
  lemma {:induction false} CancelFreeRunsAreTight(capacity: nat, ops: seq<Op>)
    requires CancelFree(ops)
    ensures Tight(Run(capacity, ops).mem)
  {
    if ops != [] {
      var front := ops[..|ops| - 1];
      CancelFreeRunsAreTight(capacity, front);
      RunKeepsFifo(capacity, front);
      AcquireReleaseTight(Run(capacity, front).mem, ops[|ops| - 1].n, Run(capacity, front).next);
      assert ops[|ops| - 1] in ops;
    }
  }
}
