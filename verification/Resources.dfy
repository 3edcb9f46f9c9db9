/** Finite sums of chunk sizes. */
module Sums {

  /** The sum of `ws[i]` over the indices `i` in `s`. */
  ghost function Sum(ws: seq<nat>, s: set<nat>): (t: nat) {
    if ws == [] then 0
    else Sum(ws[..|ws| - 1], s) + if |ws| - 1 in s then ws[|ws| - 1] else 0
  }

  lemma {:induction false} SumAdd(ws: seq<nat>, s: set<nat>, i: nat)
    requires i < |ws| && i !in s
    ensures Sum(ws, s + {i}) == Sum(ws, s) + ws[i]
  {
    var front := ws[..|ws| - 1];
    if i < |ws| - 1 {
      SumAdd(front, s, i);
    } else {
      SumSame(front, s, s + {i});
    }
  }

  lemma {:induction false} SumSame(ws: seq<nat>, s: set<nat>, t: set<nat>)
    requires forall i :: 0 <= i < |ws| ==> (i in s <==> i in t)
    ensures Sum(ws, s) == Sum(ws, t)
  {
    if ws != [] {
      SumSame(ws[..|ws| - 1], s, t);
    }
  }

  lemma SumRemove(ws: seq<nat>, s: set<nat>, i: nat)
    requires i < |ws| && i in s
    ensures Sum(ws, s - {i}) + ws[i] == Sum(ws, s)
  {
    SumAdd(ws, s - {i}, i);
    assert s - {i} + {i} == s;
  }

  lemma {:induction false} SumUnion(ws: seq<nat>, s: set<nat>, t: set<nat>)
    requires s !! t
    ensures Sum(ws, s + t) == Sum(ws, s) + Sum(ws, t)
  {
    if ws != [] {
      SumUnion(ws[..|ws| - 1], s, t);
    }
  }

  lemma {:induction false} SumEmpty(ws: seq<nat>, s: set<nat>)
    requires forall i :: 0 <= i < |ws| ==> i !in s
    ensures Sum(ws, s) == 0
  {
    if ws != [] {
      SumEmpty(ws[..|ws| - 1], s);
    }
  }

  lemma {:induction false} SumSubset(ws: seq<nat>, s: set<nat>, t: set<nat>)
    requires s <= t
    ensures Sum(ws, s) <= Sum(ws, t)
  {
    if ws != [] {
      SumSubset(ws[..|ws| - 1], s, t);
    }
  }
}

/** The two semaphores together with what the chunks hold of them: the chunks with
    memory, the chunks with a window slot, and the ids released so far. */
module Resources {
  import M = Memory
  import W = Window
  import opened Sums

  datatype Res = Res(mem: M.Mem, win: W.Win, hasMem: set<nat>, hasWin: set<nat>, rel: set<nat>)

  ghost function Tickets(ws: seq<M.Waiter>): (s: set<nat>)
    ensures forall x :: x in ws ==> x.ticket in s
  {
    if ws == [] then {} else {ws[0].ticket} + Tickets(ws[1..])
  }

  ghost function MemWait(r: Res): (s: set<nat>) { Tickets(r.mem.waiters) }

  ghost function WinWait(r: Res): (s: set<nat>) { W.Ids(r.win.waiters) }

  /** Each waiter stands for one chunk, asks for that chunk's size, and does not
      hold memory yet. */
  ghost predicate Queue(sizes: seq<nat>, ws: seq<M.Waiter>, has: set<nat>) {
    ws == [] ||
    (&& ws[0].ticket < |sizes| && ws[0].n == sizes[ws[0].ticket]
     && ws[0].ticket !in has && ws[0].ticket !in Tickets(ws[1..])
     && Queue(sizes, ws[1..], has))
  }

  ghost predicate MemOk(sizes: seq<nat>, mem: M.Mem, has: set<nat>) {
    && mem.cur <= mem.capacity
    && mem.cur == Sum(sizes, has)
    && (forall id :: id in has ==> id < |sizes|)
    && Queue(sizes, mem.waiters, has)
  }

  ghost predicate Ok(sizes: seq<nat>, r: Res) {
    && MemOk(sizes, r.mem, r.hasMem)
    && W.Refines(r.win, r.hasWin, r.rel)
    && (forall x :: x in r.win.waiters ==> x.ticket == x.reqID)
  }

  ghost function Initial(capacity: nat, limit: nat): (r: Res)
    requires limit > 0
  {
    Res(M.Mem(capacity, 0, []),
        W.Win(W.Ring(limit, 0, seq(limit, _ => false)), 0, [], false), {}, {}, {})
  }

  lemma InitialOk(sizes: seq<nat>, capacity: nat, limit: nat)
    requires limit > 0
    ensures Ok(sizes, Initial(capacity, limit))
    ensures M.Tight(Initial(capacity, limit).mem)
  {
    SumEmpty(sizes, {});
  }

  // ---- memory

  ghost function ReqMem(sizes: seq<nat>, r: Res, id: nat): (q: Res)
    requires id < |sizes|
  {
    r.(mem := M.Acquire(r.mem, sizes[id], id),
       hasMem := if M.Immediate(r.mem, sizes[id]) then r.hasMem + {id} else r.hasMem)
  }

  lemma {:induction false} QueueAppend(sizes: seq<nat>, ws: seq<M.Waiter>, has: set<nat>, id: nat)
    requires Queue(sizes, ws, has) && id < |sizes| && id !in has && id !in Tickets(ws)
    ensures Queue(sizes, ws + [M.Waiter(sizes[id], id)], has)
    ensures Tickets(ws + [M.Waiter(sizes[id], id)]) == Tickets(ws) + {id}
  {
    var x := M.Waiter(sizes[id], id);
    if ws == [] {
      assert ws + [x] == [x];
      assert [x][1..] == [];
      assert Tickets([x]) == {id};
    } else {
      assert (ws + [x])[1..] == ws[1..] + [x];
      QueueAppend(sizes, ws[1..], has, id);
    }
  }

  /** What a request for memory leaves behind: the chunk has it or waits for it. */
  ghost predicate AskedMem(sizes: seq<nat>, r: Res, q: Res, id: nat) {
    && Ok(sizes, q) && (M.Tight(r.mem) ==> M.Tight(q.mem))
    && q.hasMem + MemWait(q) == r.hasMem + MemWait(r) + {id}
    && r.hasMem <= q.hasMem && q.hasMem !! MemWait(q)
    && WinWait(q) == WinWait(r)
  }

  lemma ReqMemNow(sizes: seq<nat>, r: Res, id: nat)
    requires Ok(sizes, r) && id < |sizes| && id !in r.hasMem && id !in MemWait(r) && M.Immediate(r.mem, sizes[id])
    ensures AskedMem(sizes, r, ReqMem(sizes, r, id), id)
  {
    var q := ReqMem(sizes, r, id);
    SumAdd(sizes, r.hasMem, id);
    M.AcquireReleaseTight(r.mem, sizes[id], id);
    assert q.mem.waiters == r.mem.waiters == [];
  }

  lemma ReqMemLater(sizes: seq<nat>, r: Res, id: nat)
    requires Ok(sizes, r) && id < |sizes| && id !in r.hasMem && id !in MemWait(r) && !M.Immediate(r.mem, sizes[id])
    ensures AskedMem(sizes, r, ReqMem(sizes, r, id), id)
  {
    var q := ReqMem(sizes, r, id);
    QueueAppend(sizes, r.mem.waiters, r.hasMem, id);
    M.AcquireReleaseTight(r.mem, sizes[id], id);
    QueueDisjoint(sizes, q.mem.waiters, q.hasMem);
  }

  lemma ReqMemOk(sizes: seq<nat>, r: Res, id: nat)
    requires Ok(sizes, r) && id < |sizes| && id !in r.hasMem && id !in MemWait(r)
    ensures AskedMem(sizes, r, ReqMem(sizes, r, id), id)
  {
    if M.Immediate(r.mem, sizes[id]) {
      ReqMemNow(sizes, r, id);
    } else {
      ReqMemLater(sizes, r, id);
    }
  }

  lemma {:induction false} QueueDisjoint(sizes: seq<nat>, ws: seq<M.Waiter>, has: set<nat>)
    requires Queue(sizes, ws, has)
    ensures Tickets(ws) !! has
  {
    if ws != [] {
      QueueDisjoint(sizes, ws[1..], has);
    }
  }

  ghost function WokenMem(sizes: seq<nat>, r: Res, id: nat): (s: set<nat>)
    requires id < |sizes|
  {
    Tickets(M.Awake(r.mem.capacity, r.mem.cur - sizes[id], r.mem.waiters))
  }

  ghost function FreeMem(sizes: seq<nat>, r: Res, id: nat): (q: Res)
    requires id < |sizes|
  {
    r.(mem := M.Release(r.mem, sizes[id]), hasMem := r.hasMem - {id} + WokenMem(sizes, r, id))
  }

  /** Waking moves whole waiters from the queue to the holders. */
  lemma {:induction false} QueueWake(sizes: seq<nat>, cap: int, cur: int, ws: seq<M.Waiter>, has: set<nat>)
    requires Queue(sizes, ws, has) && cur == Sum(sizes, has)
    ensures var a, z := M.Awake(cap, cur, ws), M.Asleep(cap, cur, ws);
            && Queue(sizes, z, has + Tickets(a))
            && cur + M.Total(a) == Sum(sizes, has + Tickets(a))
            && Tickets(ws) == Tickets(a) + Tickets(z)
            && Tickets(a) !! Tickets(z) && Tickets(a) !! has
            && (forall t :: t in Tickets(a) ==> t < |sizes|)
    decreases ws
  {
    if ws != [] && cur + ws[0].n <= cap {
      var t := ws[0].ticket;
      SumAdd(sizes, has, t);
      QueueHolderAdded(sizes, ws[1..], has, t);
      QueueWake(sizes, cap, cur + ws[0].n, ws[1..], has + {t});
      var a := M.Awake(cap, cur, ws);
      assert a[1..] == M.Awake(cap, cur + ws[0].n, ws[1..]);
      assert has + {t} + Tickets(a[1..]) == has + Tickets(a);
    } else {
      assert has + {} == has;
      QueueDisjoint(sizes, ws, has);
    }
  }

  lemma {:induction false} QueueHolderAdded(sizes: seq<nat>, ws: seq<M.Waiter>, has: set<nat>, t: nat)
    requires Queue(sizes, ws, has) && t !in Tickets(ws)
    ensures Queue(sizes, ws, has + {t})
  {
    if ws != [] {
      QueueHolderAdded(sizes, ws[1..], has, t);
    }
  }

  lemma {:induction false} QueueHolderRemoved(sizes: seq<nat>, ws: seq<M.Waiter>, has: set<nat>, t: nat)
    requires Queue(sizes, ws, has)
    ensures Queue(sizes, ws, has - {t})
  {
    if ws != [] {
      QueueHolderRemoved(sizes, ws[1..], has, t);
    }
  }

  lemma FreeMemOk(sizes: seq<nat>, r: Res, id: nat)
    requires Ok(sizes, r) && id in r.hasMem
    ensures var q := FreeMem(sizes, r, id);
            && Ok(sizes, q) && M.Tight(q.mem)
            && WokenMem(sizes, r, id) <= MemWait(r) && id !in WokenMem(sizes, r, id)
            && MemWait(q) == MemWait(r) - WokenMem(sizes, r, id)
            && q.hasMem !! MemWait(q) && WinWait(q) == WinWait(r)
  {
    SumRemove(sizes, r.hasMem, id);
    QueueDisjoint(sizes, r.mem.waiters, r.hasMem);
    QueueHolderRemoved(sizes, r.mem.waiters, r.hasMem, id);
    QueueWake(sizes, r.mem.capacity, r.mem.cur - sizes[id], r.mem.waiters, r.hasMem - {id});
    M.WakeTight(r.mem.capacity, r.mem.cur - sizes[id], r.mem.waiters);
    var q := FreeMem(sizes, r, id);
    QueueDisjoint(sizes, q.mem.waiters, q.hasMem);
  }

  ghost function CancelMem(r: Res, id: nat): (q: Res) {
    r.(mem := M.Cancel(r.mem, id))
  }

  lemma {:induction false} QueueDrop(sizes: seq<nat>, ws: seq<M.Waiter>, has: set<nat>, t: nat)
    requires Queue(sizes, ws, has)
    ensures Queue(sizes, M.Drop(ws, t), has)
    ensures Tickets(M.Drop(ws, t)) == Tickets(ws) - {t}
  {
    if ws != [] && ws[0].ticket != t {
      QueueDrop(sizes, ws[1..], has, t);
      assert M.Drop(ws, t)[1..] == M.Drop(ws[1..], t);
    }
  }

  lemma CancelMemOk(sizes: seq<nat>, r: Res, id: nat)
    requires Ok(sizes, r)
    ensures Ok(sizes, CancelMem(r, id))
    ensures MemWait(CancelMem(r, id)) == MemWait(r) - {id}
    ensures WinWait(CancelMem(r, id)) == WinWait(r)
  {
    QueueDrop(sizes, r.mem.waiters, r.hasMem, id);
  }

  // ---- window

  ghost function ReqWin(r: Res, id: nat): (q: Res) {
    r.(win := W.Acquire(r.win, id, id),
       hasWin := if W.Fits(r.win.ring, id) then r.hasWin + {id} else r.hasWin)
  }

  /** The same for the window. */
  ghost predicate AskedWin(sizes: seq<nat>, r: Res, q: Res, id: nat) {
    && Ok(sizes, q) && q.win.ring == r.win.ring
    && q.hasWin + WinWait(q) == r.hasWin + WinWait(r) + {id}
    && r.hasWin <= q.hasWin && WinWait(r) <= WinWait(q)
    && q.hasWin !! WinWait(q) && MemWait(q) == MemWait(r)
  }

  lemma AskedNow(sizes: seq<nat>, r: Res, q: Res, id: nat)
    requires Ok(sizes, r) && q == r.(win := q.win, hasWin := r.hasWin + {id})
    requires q.win.ring == r.win.ring && q.win.waiters == r.win.waiters && W.Refines(q.win, q.hasWin, q.rel)
    ensures AskedWin(sizes, r, q, id)
  {
    WinDisjoint(q);
  }

  lemma AskedLater(sizes: seq<nat>, r: Res, q: Res, id: nat)
    requires Ok(sizes, r) && q == r.(win := q.win) && q.win.ring == r.win.ring
    requires WinWait(q) == WinWait(r) + {id} && W.Refines(q.win, q.hasWin, q.rel)
    requires forall x :: x in q.win.waiters ==> x.ticket == x.reqID
    ensures AskedWin(sizes, r, q, id)
  {
    WinDisjoint(q);
  }

  lemma ReqWinOk(sizes: seq<nat>, r: Res, id: nat)
    requires Ok(sizes, r) && id !in r.hasWin && id !in WinWait(r) && id !in r.rel
    ensures AskedWin(sizes, r, ReqWin(r, id), id)
  {
    var q := ReqWin(r, id);
    W.AcquireRefines(r.win, r.hasWin, r.rel, id, id);
    if W.Fits(r.win.ring, id) {
      AskedNow(sizes, r, q, id);
    } else {
      AskedLater(sizes, r, q, id);
    }
  }

  lemma WinDisjoint(r: Res)
    requires W.Refines(r.win, r.hasWin, r.rel)
    ensures r.hasWin !! WinWait(r) && r.rel !! WinWait(r)
  {
    forall x | x in WinWait(r) ensures x !in r.hasWin && x !in r.rel {
      var w := W.IdsWitness(r.win.waiters, x);
    }
  }

  ghost function FreeWin(r: Res, id: nat): (q: Res)
    requires W.Settled(r.win.ring)
  {
    r.(win := W.Release(r.win, id), hasWin := r.hasWin - {id} + W.WokenBy(r.win, id),
       rel := r.rel + {id})
  }

  lemma FreeWinOk(sizes: seq<nat>, r: Res, id: nat)
    requires Ok(sizes, r) && id in r.hasWin
    ensures var q := FreeWin(r, id);
            && Ok(sizes, q) && q.win.ring.limit == r.win.ring.limit
            && W.WokenBy(r.win, id) <= WinWait(r) && id !in W.WokenBy(r.win, id)
            && WinWait(q) == WinWait(r) - W.WokenBy(r.win, id)
            && q.hasWin !! WinWait(q) && MemWait(q) == MemWait(r)
  {
    W.ReleaseRefines(r.win, r.hasWin, r.rel, id);
    WinDisjoint(r);
    var q := FreeWin(r, id);
    WinDisjoint(q);
    W.MarkedUnwoken(r.win, r.hasWin, r.rel, id);
    W.AsleepSubset(W.Marked(r.win, id).ring, r.win.waiters);
  }

  ghost function CancelWin(r: Res, id: nat): (q: Res) {
    r.(win := W.Cancel(r.win, id))
  }

  lemma CancelWinOk(sizes: seq<nat>, r: Res, id: nat)
    requires Ok(sizes, r) && id in WinWait(r)
    ensures Ok(sizes, CancelWin(r, id)) && CancelWin(r, id).win.ring == r.win.ring
    ensures WinWait(CancelWin(r, id)) == WinWait(r) - {id}
    ensures MemWait(CancelWin(r, id)) == MemWait(r)
  {
    var x := W.IdsWitness(r.win.waiters, id);
    forall y | y in r.win.waiters && y.ticket == x.ticket ensures y == x {}
    W.CancelRefines(r.win, r.hasWin, r.rel, x);
  }
}
