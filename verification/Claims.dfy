/** How each use of a semaphore changes what the chunks hold: the chunk that calls
    it as it asked, and every other chunk at most by being woken. */
module Claims {
  import opened Configuration
  import opened Resources
  import opened Sums
  import opened Protocol
  import opened Invariant
  import M = Memory
  import W = Window

  /** The chunk was left alone, or was let through a queue it was waiting in. */
  ghost predicate Woke(c: Claim, d: Claim) {
    || d == c
    || (c.memWait && !c.mem && d == c.(mem := true, memWait := false))
    || (c.winWait && !c.win && d == c.(win := true, winWait := false))
  }

  ghost predicate OthersWoke(r: Res, q: Res, id: nat) {
    forall j: nat :: j != id ==> Woke(ClaimOf(r, j), ClaimOf(q, j))
  }

  lemma LinkWoken(job: Job, s: State, id: nat, c: Claim, d: Claim)
    requires Usable(job.cfg) && id < |s.loc| == |job.blocks| && ReadersPlaced(s) && SendersPlaced(s)
    requires Linked(job, s, id, c) && Woke(c, d)
    ensures Linked(job, s, id, d)
  {
  }

  /** Where a chunk is, and all that its claim may depend on, is as before. */
  ghost predicate Unmoved(s: State, t: State, id: nat)
    requires id < |s.loc| == |t.loc| && ReadersPlaced(s) && SendersPlaced(s)
  {
    var l := s.loc[id];
    assert LocAtSender(s.senders, id, l);
    && t.loc[id] == l && |t.senders| == |s.senders|
    && (l.AtReader? ==> l.r < |t.readers| && t.readers[l.r] == s.readers[l.r])
    && (l.Incoming? || l.InBatch? || l.OnWire? || l.Written? || l.Acked? ==>
          t.senders[l.s].phase == s.senders[l.s].phase)
  }

  lemma LinkUnmoved(job: Job, s: State, t: State, id: nat, c: Claim)
    requires Usable(job.cfg) && id < |s.loc| == |t.loc| == |job.blocks|
    requires ReadersPlaced(s) && SendersPlaced(s) && ReadersPlaced(t) && SendersPlaced(t)
    requires Unmoved(s, t, id) && Linked(job, s, id, c)
    ensures Linked(job, t, id, c)
  {
    assert LocAtSender(t.senders, id, t.loc[id]);
  }

  /** The invariant of the holdings after a step that moves only chunk `id`. */
  lemma HeldAfter(job: Job, s: State, t: State, id: nat)
    requires Usable(job.cfg) && |s.loc| == |t.loc| == |job.blocks|
    requires ReadersPlaced(s) && SendersPlaced(s) && ReadersPlaced(t) && SendersPlaced(t)
    requires Held(job, s) && OthersWoke(s.res, t.res, id)
    requires forall j :: 0 <= j < |s.loc| && j != id ==> Unmoved(s, t, j)
    requires id < |s.loc| ==> Linked(job, t, id, ClaimOf(t.res, id))
    requires Ok(Sizes(job), t.res) && t.res.win.ring.limit == s.res.win.ring.limit
    requires t.res.mem.capacity == s.res.mem.capacity
    requires id >= |s.loc| ==> id !in t.res.hasWin + WinWait(t.res) + t.res.rel
    requires !t.cancelled ==> M.Tight(t.res.mem)
    ensures Held(job, t)
  {
    forall j | 0 <= j < |t.loc| ensures Linked(job, t, j, ClaimOf(t.res, j)) {
      if j != id {
        LinkWoken(job, s, j, ClaimOf(s.res, j), ClaimOf(t.res, j));
        LinkUnmoved(job, s, t, j, ClaimOf(t.res, j));
      }
    }
    forall j | j in t.res.hasWin + WinWait(t.res) + t.res.rel ensures j < |t.loc| {
      if j != id {
        assert Woke(ClaimOf(s.res, j), ClaimOf(t.res, j));
        assert j in s.res.hasWin + WinWait(s.res) + s.res.rel;
      }
    }
  }

  lemma AskMemClaims(sizes: seq<nat>, r: Res, id: nat)
    requires Ok(sizes, r) && id < |sizes| && id !in r.hasMem && id !in MemWait(r)
    ensures var q := ReqMem(sizes, r, id);
            && Ok(sizes, q) && OthersWoke(r, q, id) && (M.Tight(r.mem) ==> M.Tight(q.mem))
            && ClaimOf(q, id) == ClaimOf(r, id).(mem := id in q.hasMem, memWait := id !in q.hasMem)
  {
    ReqMemOk(sizes, r, id);
    var q := ReqMem(sizes, r, id);
    QueueDisjoint(sizes, r.mem.waiters, r.hasMem);
    forall j: nat | j != id ensures Woke(ClaimOf(r, j), ClaimOf(q, j)) {
      assert j in q.hasMem + MemWait(q) <==> j in r.hasMem + MemWait(r) + {id};
    }
    assert id in q.hasMem + MemWait(q);
  }

  lemma FreeMemClaims(sizes: seq<nat>, r: Res, id: nat)
    requires Ok(sizes, r) && id in r.hasMem
    ensures var q := FreeMem(sizes, r, id);
            && Ok(sizes, q) && OthersWoke(r, q, id) && M.Tight(q.mem)
            && ClaimOf(q, id) == ClaimOf(r, id).(mem := false)
  {
    FreeMemOk(sizes, r, id);
    QueueDisjoint(sizes, r.mem.waiters, r.hasMem);
    var q := FreeMem(sizes, r, id);
    forall j: nat | j != id ensures Woke(ClaimOf(r, j), ClaimOf(q, j)) {
      assert j in WokenMem(sizes, r, id) ==> j in MemWait(r) && j !in r.hasMem;
    }
  }

  lemma CancelMemClaims(sizes: seq<nat>, r: Res, id: nat)
    requires Ok(sizes, r)
    ensures var q := CancelMem(r, id);
            && Ok(sizes, q) && OthersWoke(r, q, id)
            && ClaimOf(q, id) == ClaimOf(r, id).(memWait := false)
  {
    CancelMemOk(sizes, r, id);
  }

  lemma AskWinClaims(sizes: seq<nat>, r: Res, id: nat)
    requires Ok(sizes, r) && id !in r.hasWin && id !in WinWait(r) && id !in r.rel
    ensures var q := ReqWin(r, id);
            && Ok(sizes, q) && OthersWoke(r, q, id) && q.win.ring == r.win.ring
            && ClaimOf(q, id) == ClaimOf(r, id).(win := id in q.hasWin, winWait := id !in q.hasWin)
  {
    ReqWinOk(sizes, r, id);
    WinDisjoint(r);
    var q := ReqWin(r, id);
    forall j: nat | j != id ensures Woke(ClaimOf(r, j), ClaimOf(q, j)) {
      assert j in q.hasWin + WinWait(q) <==> j in r.hasWin + WinWait(r) + {id};
    }
    assert id in q.hasWin + WinWait(q);
  }

  lemma FreeWinClaims(sizes: seq<nat>, r: Res, id: nat)
    requires Ok(sizes, r) && id in r.hasWin
    ensures var q := FreeWin(r, id);
            && Ok(sizes, q) && OthersWoke(r, q, id) && q.win.ring.limit == r.win.ring.limit
            && ClaimOf(q, id) == ClaimOf(r, id).(win := false, rel := true)
  {
    FreeWinOk(sizes, r, id);
    WinDisjoint(r);
    var q := FreeWin(r, id);
    forall j: nat | j != id ensures Woke(ClaimOf(r, j), ClaimOf(q, j)) {
      assert j in W.WokenBy(r.win, id) ==> j in WinWait(r) && j !in r.hasWin;
    }
  }

  lemma CancelWinClaims(sizes: seq<nat>, r: Res, id: nat)
    requires Ok(sizes, r) && id in WinWait(r)
    ensures var q := CancelWin(r, id);
            && Ok(sizes, q) && OthersWoke(r, q, id) && q.win.ring == r.win.ring
            && ClaimOf(q, id) == ClaimOf(r, id).(winWait := false)
  {
    CancelWinOk(sizes, r, id);
  }
}
