/** Whole runs of the pipeline: the invariant holds after every sequence of enabled
    steps, from which the guarantees of the pipeline follow. */
module Runs {
  import opened Wrappers
  import opened Contents
  import opened Configuration
  import opened Resources
  import opened Sums
  import opened Protocol
  import opened Invariant
  import R = ReaderSteps
  import S = SenderSteps
  import T = StreamSteps
  import M = Memory
  import W = Window

  lemma InitInv(job: Job)
    requires Usable(job.cfg)
    ensures Inv(job, Init(job))
  {
    var s := Init(job);
    InitialOk(Sizes(job), job.cfg.maxRawMemoryBytes, 2 * job.cfg.maxWindow);
    forall n | 0 <= n < |s.senders| ensures BatchOk(job, s.loc, s.senders[n], n) {
      assert Batch(s.loc, n) == {};
      SumEmpty(DataLens(job), {});
    }
  }

  lemma StepKeepsInv(job: Job, s: State, step: Step)
    requires Inv(job, s) && Enabled(job, s, step)
    ensures Inv(job, Apply(job, s, step))
  {
    match step
    case Feeds(a) => R.FeedKeepsInv(job, s, a);
    case Read(r, a) => R.ReadKeepsInv(job, s, r, a);
    case Send(n, a) => S.SendKeepsInv(job, s, n, a);
    case Stream(n, a) => T.WireKeepsInv(job, s, n, a);
    case Cancel => R.QuietKeepsInv(job, s, Apply(job, s, step));
    case Commit(_) => R.QuietKeepsInv(job, s, Apply(job, s, step));
  }

  lemma {:induction false} RunKeepsInv(job: Job, steps: seq<Step>)
    requires Usable(job.cfg) && Valid(job, steps)
    ensures Inv(job, After(job, steps))
  {
    if steps == [] {
      InitInv(job);
    } else {
      RunKeepsInv(job, steps[..|steps| - 1]);
      StepKeepsInv(job, After(job, steps[..|steps| - 1]), steps[|steps| - 1]);
    }
  }

  // ---- conservation

  /** A chunk that holds memory is with a reader, in the read channel, in a batch, or
      in a request just sent whose memory its sender is giving back. */
  ghost predicate MayHoldMemory(s: State, id: nat) {
    && id < |s.loc|
    && var l := s.loc[id];
       || l.AtReader? || l.InReadCh? || l.Incoming? || l.InBatch?
       || ((l.OnWire? || l.Written? || l.Acked?) && l.s < |s.senders| && Freeing(s.senders[l.s].phase, id))
  }

  /** In every reachable state, errors and cancellation included, the memory in use
      is the sum over the chunks that hold some, and the ids in flight are counted. */
  lemma MemoryIsConserved(job: Job, steps: seq<Step>)
    requires Usable(job.cfg) && Valid(job, steps)
    ensures var s := After(job, steps);
            && s.res.mem.cur == Sum(Sizes(job), s.res.hasMem) <= job.cfg.maxRawMemoryBytes
            && (forall id :: id in s.res.hasMem ==> MayHoldMemory(s, id))
            && s.res.win.inFlight == |s.res.hasWin| <= 2 * job.cfg.maxWindow
  {
    RunKeepsInv(job, steps);
    var s := After(job, steps);
    W.InFlightBounded(s.res.win, s.res.hasWin, s.res.rel);
    forall id | id in s.res.hasMem ensures MayHoldMemory(s, id) {
      assert Linked(job, s, id, ClaimOf(s.res, id));
      assert LocAtSender(s.senders, id, s.loc[id]);
    }
  }

  /** The chunk whose window slot a step releases, and the chunk whose memory. */
  ghost function WindowReleasedBy(s: State, step: Step): (o: Option<nat>) {
    match step
    case Read(r, AbortWin) => if r < |s.readers| && s.readers[r].Busy? then Some(s.readers[r].id) else None
    case Send(_, AbortOneWin(id)) => Some(id)
    case Stream(_, Release(id)) => Some(id)
    case _ => None
  }

  ghost function MemoryReleasedBy(s: State, step: Step): (o: Option<nat>) {
    match step
    case Read(r, AbortMem) => if r < |s.readers| && s.readers[r].Busy? then Some(s.readers[r].id) else None
    case Read(r, FreeZero) => if r < |s.readers| && s.readers[r].Busy? then Some(s.readers[r].id) else None
    case Send(_, AbortOneMem(id)) => Some(id)
    case Send(_, FreeOne(id)) => if id in s.res.hasMem then Some(id) else None
    case _ => None
  }

  lemma ReaderReleasesItsOwn(job: Job, s: State, r: nat, a: ReadAct)
    requires Inv(job, s) && ReadEnabled(job, s, r, a)
    ensures var w, m := WindowReleasedBy(s, Read(r, a)), MemoryReleasedBy(s, Read(r, a));
            && (w.Some? ==> w.value in s.res.hasWin && w.value !in s.res.rel)
            && (m.Some? ==> m.value in s.res.hasMem)
  {
    if s.readers[r].Busy? {
      assert Linked(job, s, s.readers[r].id, ClaimOf(s.res, s.readers[r].id));
    }
  }

  lemma SenderReleasesItsOwn(job: Job, s: State, n: nat, a: SendAct)
    requires Inv(job, s) && SendEnabled(job, s, n, a)
    ensures var w, m := WindowReleasedBy(s, Send(n, a)), MemoryReleasedBy(s, Send(n, a));
            && (w.Some? ==> w.value in s.res.hasWin && w.value !in s.res.rel)
            && (m.Some? ==> m.value in s.res.hasMem)
  {
    if a.AbortOneWin? {
      assert PhaseOk(s.loc, s.senders[n], n);
      assert Linked(job, s, a.id, ClaimOf(s.res, a.id));
    }
  }

  lemma AckReleasesItsOwn(job: Job, s: State, n: nat, a: WireAct)
    requires Inv(job, s) && WireEnabled(job, s, n, a) && a.Release?
    ensures a.id in s.res.hasWin && a.id !in s.res.rel
  {
    assert Linked(job, s, a.id, ClaimOf(s.res, a.id));
    assert LocAtSender(s.senders, a.id, s.loc[a.id]);
  }

  /** No window slot and no memory is released that is not held at that moment, so
      neither is released twice: the discipline that the window ring depends on. */
  lemma NothingIsReleasedTwice(job: Job, steps: seq<Step>, step: Step)
    requires Usable(job.cfg) && Valid(job, steps) && Enabled(job, After(job, steps), step)
    ensures var s := After(job, steps);
            var w, m := WindowReleasedBy(s, step), MemoryReleasedBy(s, step);
            && (w.Some? ==> w.value in s.res.hasWin && w.value !in s.res.rel)
            && (m.Some? ==> m.value in s.res.hasMem)
  {
    RunKeepsInv(job, steps);
    var s := After(job, steps);
    match step
    case Read(r, a) => ReaderReleasesItsOwn(job, s, r, a);
    case Send(n, a) => SenderReleasesItsOwn(job, s, n, a);
    case Stream(n, a) => if a.Release? { AckReleasesItsOwn(job, s, n, a); }
    case _ =>
  }

  // ---- success

  lemma SucceededIsNotFailed(job: Job, s: State)
    requires Inv(job, s) && Succeeded(s)
    ensures !s.failed
  {
    if i :| 0 <= i < |s.readers| && BadReader(s.readers[i]) { assert false; }
    if i :| 0 <= i < |s.senders| && BadSender(s.senders[i]) { assert false; }
  }

  /** The chunk is with sender `n`, or on its stream and not yet acknowledged. */
  ghost predicate With(l: Loc, n: nat) {
    (l.Incoming? || l.InBatch? || l.OnWire? || l.Written?) && l.s == n
  }

  lemma NothingLeftAt(job: Job, s: State, id: nat, n: nat)
    requires Inv(job, s) && Succeeded(s) && id < |s.loc| && n < |s.senders|
    ensures !With(s.loc[id], n)
  {
    assert PhaseOk(s.loc, s.senders[n], n);
    assert LocAtSender(s.senders, id, s.loc[id]);
  }

  lemma SucceededIsAcked(job: Job, s: State, id: nat)
    requires Inv(job, s) && Succeeded(s) && id < |s.loc|
    ensures s.loc[id].Acked?
    ensures id !in s.res.hasMem && id !in s.res.hasWin && id in s.res.rel
  {
    SucceededIsNotFailed(job, s);
    forall n | 0 <= n < |s.senders| ensures !With(s.loc[id], n) {
      NothingLeftAt(job, s, id, n);
    }
    assert LocAtSender(s.senders, id, s.loc[id]);
    assert s.readers[0] == Exited(true);
    assert s.senders[0].phase == Ended(true);
    assert Linked(job, s, id, ClaimOf(s.res, id));
  }

  lemma BaseAt(r: Res, n: nat)
    requires W.Refines(r.win, r.hasWin, r.rel)
    requires forall id: nat :: id in r.rel <==> id < n
    ensures r.win.ring.base == n
  {
    W.BaseIsLeastUnreleased(r.win.ring, n);
  }

  lemma SucceededHoldsNoMemory(job: Job, s: State)
    requires Inv(job, s) && Succeeded(s)
    ensures s.res.hasMem == {} && s.res.mem.cur == 0
  {
    forall id | id in s.res.hasMem ensures false {
      SucceededIsAcked(job, s, id);
    }
    SumEmpty(Sizes(job), s.res.hasMem);
  }

  lemma WindowIdsInRange(job: Job, s: State, id: nat)
    requires Inv(job, s) && (id in s.res.hasWin || id in s.res.rel)
    ensures id < |s.loc|
  {
    assert id in s.res.hasWin + WinWait(s.res) + s.res.rel;
  }

  lemma SucceededHoldsNoWindow(job: Job, s: State)
    requires Inv(job, s) && Succeeded(s)
    ensures s.res.hasWin == {} && s.res.win.ring.base == |job.blocks|
  {
    forall id | id in s.res.hasWin ensures false {
      WindowIdsInRange(job, s, id);
      SucceededIsAcked(job, s, id);
    }
    forall id: nat ensures id in s.res.rel <==> id < |job.blocks| {
      if id in s.res.rel { WindowIdsInRange(job, s, id); }
      if id < |s.loc| { SucceededIsAcked(job, s, id); }
    }
    BaseAt(s.res, |job.blocks|);
  }

  /** A run that returns no error has every block acknowledged, holds no memory and
      no window slot, and has moved the base past the last block. */
  lemma SuccessfulRunIsComplete(job: Job, steps: seq<Step>)
    requires Usable(job.cfg) && Valid(job, steps) && Succeeded(After(job, steps))
    ensures var s := After(job, steps);
            && !s.failed && s.fed == |job.blocks|
            && (forall id :: 0 <= id < |s.loc| ==> s.loc[id].Acked?)
            && s.res.mem.cur == 0 && s.res.hasMem == {} && s.res.hasWin == {}
            && s.res.win.ring.base == |job.blocks|
  {
    RunKeepsInv(job, steps);
    var s := After(job, steps);
    SucceededIsNotFailed(job, s);
    SucceededHoldsNoMemory(job, s);
    SucceededHoldsNoWindow(job, s);
    forall id | 0 <= id < |s.loc| ensures s.loc[id].Acked? {
      SucceededIsAcked(job, s, id);
    }
  }
}
