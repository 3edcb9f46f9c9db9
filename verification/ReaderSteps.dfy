/** The steps of the read workers and of the feeder keep the invariant. */
module ReaderSteps {
  import opened Contents
  import opened Configuration
  import opened Resources
  import opened Sums
  import opened Protocol
  import opened Invariant
  import opened Claims
  import M = Memory
  import W = Window

  /** The four ways in which a read worker's step moves chunks. */
  datatype Move = Taking | Staying | Leaving(l: Loc, next: Reader) | Ending(ok: bool)

  ghost predicate Moves(s: State, t: State, r: nat, m: Move) {
    && r < |s.readers|
    && match m
       case Taking =>
         && s.readers[r].Idle? && s.taken < s.fed && s.taken < |s.loc|
         && t.taken == s.taken + 1 && t.loc == s.loc[s.taken := AtReader(r)]
         && t.readers == s.readers[r := Busy(s.taken, Start)] && t.readQ == s.readQ
       case Staying =>
         && t.taken == s.taken && t.loc == s.loc && t.readQ == s.readQ
         && s.readers[r].Busy? && |t.readers| == |s.readers|
         && t.readers[r].Busy? && t.readers[r].id == s.readers[r].id
         && t.readers == s.readers[r := t.readers[r]]
       case Leaving(l, next) =>
         && t.taken == s.taken && s.readers[r].Busy? && s.readers[r].id < |s.loc|
         && t.loc == s.loc[s.readers[r].id := l] && t.readers == s.readers[r := next]
         && (l == Lost || l == Dropped || l == InReadCh) && !next.Busy?
         && t.readQ == if l == InReadCh then s.readQ + [s.readers[r].id] else s.readQ
       case Ending(ok) =>
         && t.taken == s.taken && t.loc == s.loc && t.readQ == s.readQ
         && s.readers[r].Idle? && t.readers == s.readers[r := Exited(ok)]
  }

  ghost function MoveOf(a: ReadAct): Move {
    match a
    case Take => Taking
    case ReadEnd => Ending(true)
    case ReadQuit => Ending(false)
    case Put => Leaving(InReadCh, Idle)
    case GiveUpMem => Leaving(Lost, Exited(false))
    case AbortWin => Leaving(Dropped, Exited(false))
    case AbortEnd => Leaving(Lost, Exited(false))
    case _ => Staying
  }

  lemma ReadMoves(job: Job, s: State, r: nat, a: ReadAct)
    requires Usable(job.cfg) && |s.loc| == |job.blocks| && ReadEnabled(job, s, r, a)
    ensures Moves(s, ReadApply(job, s, r, a), r, MoveOf(a))
    ensures ReadApply(job, s, r, a).senders == s.senders
    ensures ReadApply(job, s, r, a).fed == s.fed && ReadApply(job, s, r, a).feeder == s.feeder
    ensures a == Put ==> |s.readQ| < job.cfg.readChanBuf
  {
  }

  lemma MovePlaced(s: State, t: State, r: nat, m: Move)
    requires ReadersPlaced(s) && Moves(s, t, r, m)
    ensures ReadersPlaced(t)
  {
    match m
    case Taking =>
    case Staying =>
    case Leaving(_, _) =>
    case Ending(_) =>
  }

  lemma QueueGrows(q: seq<nat>, loc: seq<Loc>, id: nat)
    requires id < |loc| && loc[id] != InReadCh && (forall i :: 0 <= i < |q| ==> q[i] < |loc| && loc[q[i]] == InReadCh)
    requires forall i, j :: 0 <= i < j < |q| ==> q[i] != q[j]
    ensures forall i, j :: 0 <= i < j < |q + [id]| ==> (q + [id])[i] != (q + [id])[j]
  {
  }

  lemma MoveQueuePlaced(s: State, t: State, r: nat, m: Move)
    requires ReadersPlaced(s) && QueuePlaced(s) && Moves(s, t, r, m)
    ensures QueuePlaced(t)
  {
    if m.Leaving? && m.l == InReadCh {
      var id := s.readers[r].id;
      QueueGrows(s.readQ, s.loc, id);
      forall j | 0 <= j < |t.loc| && t.loc[j] == InReadCh ensures j in t.readQ {
        if j == id {
          assert t.readQ[|s.readQ|] == id;
        } else {
          assert j in s.readQ;
        }
      }
    }
  }

  lemma ReadKeepsPlacement(job: Job, s: State, r: nat, a: ReadAct)
    requires Usable(job.cfg) && Shape(job, s) && ReadersPlaced(s) && QueuePlaced(s) && ReadEnabled(job, s, r, a)
    ensures var t := ReadApply(job, s, r, a); Shape(job, t) && ReadersPlaced(t) && QueuePlaced(t)
  {
    var t := ReadApply(job, s, r, a);
    ReadMoves(job, s, r, a);
    MovePlaced(s, t, r, MoveOf(a));
    MoveQueuePlaced(s, t, r, MoveOf(a));
  }

  ghost predicate Outside(l: Loc) {
    l.Queued? || l.AtReader? || l.InReadCh? || l.Lost? || l.Dropped?
  }

  /** Two states that differ, as far as the senders can see, in nothing. */
  ghost predicate SendersSee(s: State, t: State) {
    && t.senders == s.senders && |t.loc| == |s.loc|
    && (forall i :: 0 <= i < |s.loc| ==> s.loc[i] == t.loc[i] || (Outside(s.loc[i]) && Outside(t.loc[i])))
  }

  lemma SeenSame(job: Job, s: State, t: State)
    requires Usable(job.cfg) && SendersSee(s, t) && SendersPlaced(s) && Counted(job, s)
    ensures SendersPlaced(t) && Counted(job, t)
  {
    forall n | 0 <= n < |t.senders| ensures BatchOk(job, t.loc, t.senders[n], n) && PhaseOk(t.loc, t.senders[n], n) {
      assert Batch(t.loc, n) == Batch(s.loc, n);
      assert BatchOk(job, s.loc, s.senders[n], n);
      assert PhaseOk(s.loc, s.senders[n], n);
    }
    forall i | 0 <= i < |t.loc| ensures LocAtSender(t.senders, i, t.loc[i]) {
      assert LocAtSender(s.senders, i, s.loc[i]);
    }
  }

  lemma ReadKeepsSenders(job: Job, s: State, r: nat, a: ReadAct)
    requires Usable(job.cfg) && Shape(job, s) && ReadersPlaced(s) && ReadEnabled(job, s, r, a)
    requires SendersPlaced(s) && Counted(job, s)
    ensures SendersPlaced(ReadApply(job, s, r, a)) && Counted(job, ReadApply(job, s, r, a))
  {
    ReadMoves(job, s, r, a);
    assert SendersSee(s, ReadApply(job, s, r, a));
    SeenSame(job, s, ReadApply(job, s, r, a));
  }

  lemma ReadKeepsFailing(job: Job, s: State, r: nat, a: ReadAct)
    requires Usable(job.cfg) && Shape(job, s) && ReadersPlaced(s) && Failing(s) && ReadEnabled(job, s, r, a)
    ensures Failing(ReadApply(job, s, r, a))
  {
    var t := ReadApply(job, s, r, a);
    assert t.feeder == s.feeder && t.senders == s.senders;
    assert t.failed <==> s.failed || BadReader(t.readers[r]);
    assert BadReader(s.readers[r]) ==> BadReader(t.readers[r]);
    OneReaderChanged(s, t, r);
  }

  lemma OneReaderChanged(s: State, t: State, r: nat)
    requires Failing(s) && r < |s.readers| == |t.readers| && t.readers == s.readers[r := t.readers[r]]
    requires t.feeder == s.feeder && t.senders == s.senders
    requires BadReader(s.readers[r]) ==> BadReader(t.readers[r])
    requires t.failed <==> s.failed || BadReader(t.readers[r])
    ensures Failing(t)
  {
    if i :| 0 <= i < |s.readers| && BadReader(s.readers[i]) {
      assert BadReader(t.readers[i]);
    }
    if i :| 0 <= i < |t.readers| && BadReader(t.readers[i]) {
      assert i == r || BadReader(s.readers[i]);
    }
  }

  /** What a read worker's step has to do with failures and with the end of the input. */
  ghost predicate Reports(s: State, t: State, m: Move) {
    && t.feeder == s.feeder && t.fed == s.fed && t.senders == s.senders
    && (s.failed ==> t.failed) && (s.cancelled ==> t.cancelled) && (t.failed ==> s.failed || t.cancelled)
    && (m.Leaving? ==> m.next != Exited(true) && (m.l != InReadCh ==> t.failed))
    && (m == Ending(true) ==> s.feeder.FeedEnded? && s.taken == s.fed)
  }

  lemma ReadReports(job: Job, s: State, r: nat, a: ReadAct)
    requires Usable(job.cfg) && Shape(job, s) && ReadersPlaced(s) && Failing(s) && ReadEnabled(job, s, r, a)
    ensures Reports(s, ReadApply(job, s, r, a), MoveOf(a))
  {
    if s.readers[r].Busy? && s.readers[r].phase == Abort {
      assert BadReader(s.readers[r]);
    }
  }

  lemma EndingsAfterMove(job: Job, s: State, t: State, r: nat, m: Move)
    requires Endings(job, s) && Moves(s, t, r, m) && Reports(s, t, m)
    ensures Endings(job, t)
  {
  }

  lemma ReadKeepsEndings(job: Job, s: State, r: nat, a: ReadAct)
    requires Usable(job.cfg) && Shape(job, s) && ReadersPlaced(s) && Failing(s) && ReadEnabled(job, s, r, a)
    requires Endings(job, s)
    ensures Endings(job, ReadApply(job, s, r, a))
  {
    ReadMoves(job, s, r, a);
    ReadReports(job, s, r, a);
    EndingsAfterMove(job, s, ReadApply(job, s, r, a), r, MoveOf(a));
  }

  ghost function Current(s: State, r: nat): nat
    requires r < |s.readers|
  {
    if s.readers[r].Busy? then s.readers[r].id else s.taken
  }

  /** What a step makes of the semaphores, as far as the other chunks see it. */
  ghost predicate ResKept(job: Job, r: Res, q: Res, id: nat)
    requires Usable(job.cfg)
  {
    && Ok(Sizes(job), q) && OthersWoke(r, q, id)
    && q.win.ring.limit == r.win.ring.limit && q.mem.capacity == r.mem.capacity
  }

  ghost function NextRes(job: Job, r: Res, id: nat, a: ReadAct): Res
    requires Usable(job.cfg) && id < |job.blocks| && W.Settled(r.win.ring)
  {
    match a
    case AskMem => ReqMem(Sizes(job), r, id)
    case GiveUpMem => CancelMem(r, id)
    case AskWin => ReqWin(r, id)
    case GiveUpWin => CancelWin(r, id)
    case FreeZero => if id in r.hasMem then FreeMem(Sizes(job), r, id) else r
    case AbortMem => if id in r.hasMem then FreeMem(Sizes(job), r, id) else r
    case AbortWin => FreeWin(r, id)
    case _ => r
  }

  ghost function NextPhase(job: Job, id: nat, a: ReadAct): Phase
    requires Usable(job.cfg) && id < |job.blocks|
  {
    match a
    case AskMem => WaitMem
    case AskWin => WaitWin
    case Granted => if job.blocks[id].isZero then Emit else Reading
    case ReadOk => if WireOf(job, id).ZeroRun? then ZeroFree else Emit
    case FreeZero => Emit
    case _ => Abort
  }

  /** When the step is possible, in terms of the chunk's phase and claim. */
  ghost predicate ActReady(job: Job, id: nat, p: Phase, c: Claim, a: ReadAct)
    requires Usable(job.cfg) && id < |job.blocks|
  {
    && ReaderClaim(job, id, p, c)
    && match a
       case AskMem => p == Start && !job.blocks[id].isZero
       case GiveUpMem => p == WaitMem && c.memWait
       case AskWin => if job.blocks[id].isZero then p == Start else p == WaitMem && c.mem
       case Granted => p == WaitWin && c.win
       case GiveUpWin => p == WaitWin && c.winWait
       case ReadOk => p == Reading
       case ReadErr => p == Reading
       case FreeZero => p == ZeroFree
       case Put => p == Emit
       case QuitPut => p == Emit
       case AbortMem => p == Abort && c.mem
       case AbortWin => p == Abort && !c.mem && c.win
       case AbortEnd => p == Abort && !c.mem && !c.win
       case _ => false
  }

  /** What the step makes of the reader's own chunk. */
  ghost predicate OwnClaim(job: Job, id: nat, a: ReadAct, c: Claim)
    requires Usable(job.cfg) && id < |job.blocks|
  {
    match MoveOf(a)
    case Taking => c == NOTHING
    case Staying => ReaderClaim(job, id, NextPhase(job, id, a), c)
    case Leaving(l, _) =>
      c == (if l == Dropped then NOTHING.(rel := true)
            else if l == Lost then NOTHING
            else NOTHING.(mem := WireOf(job, id).Data?, win := true))
    case Ending(_) => true
  }

  ghost predicate OnlyMem(a: ReadAct) { a.AskMem? || a.GiveUpMem? || a.FreeZero? || a.AbortMem? }

  ghost predicate OnlyWin(a: ReadAct) { a.AskWin? || a.GiveUpWin? || a.AbortWin? }

  lemma MemActClaims(job: Job, r: Res, id: nat, p: Phase, a: ReadAct)
    requires Usable(job.cfg) && id < |job.blocks| && Ok(Sizes(job), r)
    requires ActReady(job, id, p, ClaimOf(r, id), a) && OnlyMem(a)
    ensures var q := NextRes(job, r, id, a);
            && ResKept(job, r, q, id) && OwnClaim(job, id, a, ClaimOf(q, id))
            && (!a.GiveUpMem? && M.Tight(r.mem) ==> M.Tight(q.mem))
  {
    match a
    case AskMem => AskMemClaims(Sizes(job), r, id);
    case GiveUpMem => CancelMemClaims(Sizes(job), r, id);
    case FreeZero => FreeMemClaims(Sizes(job), r, id);
    case AbortMem => FreeMemClaims(Sizes(job), r, id);
  }

  lemma AskWinAct(job: Job, r: Res, id: nat, p: Phase)
    requires Usable(job.cfg) && id < |job.blocks| && Ok(Sizes(job), r) && ActReady(job, id, p, ClaimOf(r, id), AskWin)
    ensures var q := NextRes(job, r, id, AskWin);
            ResKept(job, r, q, id) && OwnClaim(job, id, AskWin, ClaimOf(q, id)) && q.mem == r.mem
  {
    AskWinClaims(Sizes(job), r, id);
  }

  lemma GiveUpWinAct(job: Job, r: Res, id: nat, p: Phase)
    requires Usable(job.cfg) && id < |job.blocks| && Ok(Sizes(job), r)
    requires ActReady(job, id, p, ClaimOf(r, id), GiveUpWin)
    ensures var q := NextRes(job, r, id, GiveUpWin);
            ResKept(job, r, q, id) && OwnClaim(job, id, GiveUpWin, ClaimOf(q, id)) && q.mem == r.mem
  {
    CancelWinClaims(Sizes(job), r, id);
  }

  lemma AbortWinAct(job: Job, r: Res, id: nat, p: Phase)
    requires Usable(job.cfg) && id < |job.blocks| && Ok(Sizes(job), r) && ActReady(job, id, p, ClaimOf(r, id), AbortWin)
    ensures var q := NextRes(job, r, id, AbortWin);
            ResKept(job, r, q, id) && OwnClaim(job, id, AbortWin, ClaimOf(q, id)) && q.mem == r.mem
  {
    FreeWinClaims(Sizes(job), r, id);
  }

  lemma WinActClaims(job: Job, r: Res, id: nat, p: Phase, a: ReadAct)
    requires Usable(job.cfg) && id < |job.blocks| && Ok(Sizes(job), r)
    requires ActReady(job, id, p, ClaimOf(r, id), a) && OnlyWin(a)
    ensures var q := NextRes(job, r, id, a);
            ResKept(job, r, q, id) && OwnClaim(job, id, a, ClaimOf(q, id)) && q.mem == r.mem
  {
    match a
    case AskWin => AskWinAct(job, r, id, p);
    case GiveUpWin => GiveUpWinAct(job, r, id, p);
    case AbortWin => AbortWinAct(job, r, id, p);
  }

  lemma OtherActClaims(job: Job, r: Res, id: nat, p: Phase, a: ReadAct)
    requires Usable(job.cfg) && id < |job.blocks| && Ok(Sizes(job), r)
    requires ActReady(job, id, p, ClaimOf(r, id), a) && !OnlyMem(a) && !OnlyWin(a)
    ensures NextRes(job, r, id, a) == r && ResKept(job, r, r, id) && OwnClaim(job, id, a, ClaimOf(r, id))
  {
  }

  /** A read worker's step in these terms. */
  lemma ReadIsAct(job: Job, s: State, r: nat, a: ReadAct)
    requires Usable(job.cfg) && |s.loc| == |job.blocks| && ReadEnabled(job, s, r, a) && s.readers[r].Busy?
    requires s.readers[r].id < |s.loc| && W.Settled(s.res.win.ring)
    requires ReaderClaim(job, s.readers[r].id, s.readers[r].phase, ClaimOf(s.res, s.readers[r].id))
    ensures var t, id := ReadApply(job, s, r, a), s.readers[r].id;
            && ActReady(job, id, s.readers[r].phase, ClaimOf(s.res, id), a)
            && t.res == NextRes(job, s.res, id, a)
            && (MoveOf(a).Staying? ==> t.readers[r] == Busy(id, NextPhase(job, id, a)))
            && (s.cancelled ==> t.cancelled) && (a.GiveUpMem? ==> t.cancelled)
            && !MoveOf(a).Ending? && !MoveOf(a).Taking?
  {
  }

  lemma ActClaims(job: Job, r: Res, id: nat, p: Phase, a: ReadAct)
    requires Usable(job.cfg) && id < |job.blocks| && Ok(Sizes(job), r) && ActReady(job, id, p, ClaimOf(r, id), a)
    ensures var q := NextRes(job, r, id, a);
            && ResKept(job, r, q, id) && OwnClaim(job, id, a, ClaimOf(q, id))
            && (!a.GiveUpMem? && M.Tight(r.mem) ==> M.Tight(q.mem))
  {
    if OnlyMem(a) {
      MemActClaims(job, r, id, p, a);
    } else if OnlyWin(a) {
      WinActClaims(job, r, id, p, a);
    } else {
      OtherActClaims(job, r, id, p, a);
    }
  }

  /** A reader without a chunk takes one or ends. */
  lemma IdleActs(job: Job, s: State, r: nat, a: ReadAct)
    requires Usable(job.cfg) && |s.loc| == |job.blocks| && ReadEnabled(job, s, r, a) && !s.readers[r].Busy?
    ensures ReadApply(job, s, r, a).res == s.res && (MoveOf(a).Taking? || MoveOf(a).Ending?)
    ensures s.cancelled ==> ReadApply(job, s, r, a).cancelled
  {
  }

  /** The reader's chunk is linked to its claim wherever the step has moved it. */
  lemma OwnClaimLinks(job: Job, s: State, t: State, r: nat, id: nat, a: ReadAct)
    requires Usable(job.cfg) && |s.loc| == |t.loc| == |job.blocks| && id < |t.loc| && r < |t.readers|
    requires ReadersPlaced(s) && ReadersPlaced(t) && SendersPlaced(t)
    requires Moves(s, t, r, MoveOf(a)) && id == Current(s, r) && OwnClaim(job, id, a, ClaimOf(t.res, id))
    requires MoveOf(a).Staying? ==> t.readers[r] == Busy(id, NextPhase(job, id, a))
    requires !MoveOf(a).Ending?
    ensures Linked(job, t, id, ClaimOf(t.res, id))
  {
    assert LocAtSender(t.senders, id, t.loc[id]);
  }

  lemma BusyClaims(job: Job, s: State, r: nat, a: ReadAct)
    requires Usable(job.cfg) && |s.loc| == |job.blocks| && ReadersPlaced(s) && SendersPlaced(s) && Held(job, s)
    requires ReadEnabled(job, s, r, a) && s.readers[r].Busy?
    requires var t := ReadApply(job, s, r, a); ReadersPlaced(t) && SendersPlaced(t) && Moves(s, t, r, MoveOf(a))
    ensures var t, id := ReadApply(job, s, r, a), s.readers[r].id;
            && ResKept(job, s.res, t.res, id) && (!t.cancelled ==> M.Tight(t.res.mem)) && !MoveOf(a).Ending?
            && Linked(job, t, id, ClaimOf(t.res, id))
  {
    var t, id := ReadApply(job, s, r, a), s.readers[r].id;
    assert Linked(job, s, id, ClaimOf(s.res, id));
    ReadIsAct(job, s, r, a);
    ActClaims(job, s.res, id, s.readers[r].phase, a);
    OwnClaimLinks(job, s, t, r, id, a);
  }

  lemma IdleClaims(job: Job, s: State, r: nat, a: ReadAct)
    requires Usable(job.cfg) && |s.loc| == |job.blocks| && ReadersPlaced(s) && SendersPlaced(s) && Held(job, s)
    requires ReadEnabled(job, s, r, a) && !s.readers[r].Busy?
    requires var t := ReadApply(job, s, r, a); ReadersPlaced(t) && SendersPlaced(t) && Moves(s, t, r, MoveOf(a))
    ensures var t := ReadApply(job, s, r, a);
            && t.res == s.res && ResKept(job, s.res, t.res, s.taken) && (!t.cancelled ==> M.Tight(t.res.mem))
            && (!MoveOf(a).Ending? ==> Linked(job, t, s.taken, ClaimOf(t.res, s.taken)))
  {
    var t, id := ReadApply(job, s, r, a), s.taken;
    IdleActs(job, s, r, a);
    if !MoveOf(a).Ending? {
      assert Linked(job, s, id, ClaimOf(s.res, id));
      OwnClaimLinks(job, s, t, r, id, a);
    }
  }

  lemma ReadKeepsHeld(job: Job, s: State, r: nat, a: ReadAct)
    requires Usable(job.cfg) && |s.loc| == |job.blocks| && ReadersPlaced(s) && SendersPlaced(s) && Held(job, s)
    requires ReadEnabled(job, s, r, a)
    requires var t := ReadApply(job, s, r, a); ReadersPlaced(t) && SendersPlaced(t)
    ensures Held(job, ReadApply(job, s, r, a))
  {
    ReadMoves(job, s, r, a);
    if s.readers[r].Busy? {
      BusyClaims(job, s, r, a);
    } else {
      IdleClaims(job, s, r, a);
    }
    HeldAfterMove(job, s, ReadApply(job, s, r, a), r, MoveOf(a));
  }

  lemma HeldAfterMove(job: Job, s: State, t: State, r: nat, m: Move)
    requires Usable(job.cfg) && |s.loc| == |t.loc| == |job.blocks| && t.senders == s.senders
    requires ReadersPlaced(s) && SendersPlaced(s) && ReadersPlaced(t) && SendersPlaced(t)
    requires Held(job, s) && Moves(s, t, r, m) && ResKept(job, s.res, t.res, Current(s, r))
    requires !t.cancelled ==> M.Tight(t.res.mem)
    requires if m.Ending? then t.res == s.res else Linked(job, t, Current(s, r), ClaimOf(t.res, Current(s, r)))
    ensures Held(job, t)
  {
    var id := if m.Ending? then |s.loc| else Current(s, r);
    forall j | 0 <= j < |s.loc| && j != id ensures Unmoved(s, t, j) {
      assert LocAtSender(s.senders, j, s.loc[j]);
    }
    HeldAfter(job, s, t, id);
  }

  lemma ReadKeepsInv(job: Job, s: State, r: nat, a: ReadAct)
    requires Inv(job, s) && ReadEnabled(job, s, r, a)
    ensures Inv(job, ReadApply(job, s, r, a))
  {
    ReadKeepsPlacement(job, s, r, a);
    ReadKeepsSenders(job, s, r, a);
    ReadKeepsHeld(job, s, r, a);
    ReadKeepsFailing(job, s, r, a);
    ReadKeepsEndings(job, s, r, a);
  }

  /** Chunks, readers and senders are where they were, and hold what they held. */
  ghost predicate SamePlaces(s: State, t: State) {
    && t.loc == s.loc && t.readers == s.readers && t.readQ == s.readQ && t.senders == s.senders
    && t.taken == s.taken && t.res == s.res && (s.cancelled ==> t.cancelled)
  }

  lemma PlacesKept(job: Job, s: State, t: State)
    requires Inv(job, s) && SamePlaces(s, t) && s.fed <= t.fed <= |job.blocks| && t.fed - t.taken <= job.cfg.readChanBuf
    ensures Shape(job, t) && ReadersPlaced(t) && QueuePlaced(t) && SendersPlaced(t) && Counted(job, t)
  {
    SeenSame(job, s, t);
  }

  lemma SameHeld(job: Job, s: State, t: State)
    requires Inv(job, s) && SamePlaces(s, t) && |t.loc| == |job.blocks|
    requires ReadersPlaced(t) && SendersPlaced(t)
    ensures Held(job, t)
  {
    assert forall j :: 0 <= j < |s.loc| ==> Unmoved(s, t, j);
    HeldAfter(job, s, t, |s.loc|);
  }

  lemma FeedKeepsFailing(job: Job, s: State, a: FeedAct)
    requires Failing(s) && FeedEnabled(job, s, a)
    ensures Failing(FeedApply(job, s, a))
  {
    var t := FeedApply(job, s, a);
    assert t.readers == s.readers && t.senders == s.senders;
  }

  lemma FeedKeepsEndings(job: Job, s: State, a: FeedAct)
    requires Endings(job, s) && FeedEnabled(job, s, a)
    ensures Endings(job, FeedApply(job, s, a))
  {
  }

  lemma FeedKeepsInv(job: Job, s: State, a: FeedAct)
    requires Inv(job, s) && FeedEnabled(job, s, a)
    ensures Inv(job, FeedApply(job, s, a))
  {
    var t := FeedApply(job, s, a);
    PlacesKept(job, s, t);
    SameHeld(job, s, t);
    FeedKeepsFailing(job, s, a);
    FeedKeepsEndings(job, s, a);
  }

  /** Cancelling and committing change nothing the workers depend on. */
  lemma QuietKeepsInv(job: Job, s: State, t: State)
    requires Inv(job, s) && t == s.(cancelled := t.cancelled, commits := t.commits)
    requires s.cancelled ==> t.cancelled
    ensures Inv(job, t)
  {
    SeenSame(job, s, t);
    assert forall j :: 0 <= j < |s.loc| ==> Unmoved(s, t, j);
    HeldAfter(job, s, t, |s.loc|);
  }
}
