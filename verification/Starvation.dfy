/** Jobs that no run can bring to an end: when a batch may hold the whole window, and the
    payload of the job is too small to fill one, nothing is ever sent before the input is
    closed, and the input is not closed before something is sent. */
module Starvation {
  import opened Wrappers
  import opened Contents
  import opened Configuration
  import opened Resources
  import opened Sums
  import opened Protocol
  import opened Invariant
  import opened Stall
  import Runs
  import R = ReaderSteps
  import S = SenderSteps
  import T = StreamSteps
  import W = Window

  /** The payload of the whole job. */
  ghost function AllBytes(job: Job): (n: nat)
    requires Usable(job.cfg)
  {
    Sum(DataLens(job), W.Range(0, |job.blocks|))
  }

  ghost predicate Starves(job: Job) {
    && Usable(job.cfg) && |job.blocks| > 2 * job.cfg.maxWindow
    && job.cfg.dataBatchMaxCount >= 2 * job.cfg.maxWindow && AllBytes(job) < job.cfg.dataBatchMaxBytes
  }

  ghost predicate OffTheWire(l: Loc) {
    !l.OnWire? && !l.Written? && !l.Acked?
  }

  /** Nothing has been sent. */
  ghost predicate Unsent(s: State) {
    && (forall n :: 0 <= n < |s.senders| ==> s.senders[n].phase == Select)
    && (forall id :: 0 <= id < |s.loc| ==> OffTheWire(s.loc[id]))
  }

  /** So nothing has been released. */
  lemma BaseIsZero(job: Job, s: State)
    requires Inv(job, s) && !s.failed && Unsent(s) && |s.loc| > 0
    ensures s.res.win.ring.base == 0
  {
    assert Linked(job, s, 0, ClaimOf(s.res, 0));
    assert OffTheWire(s.loc[0]);
    W.BaseIsLeastUnreleased(s.res.win.ring, 0);
  }

  lemma HeldIsInWindow(job: Job, s: State)
    requires Inv(job, s) && !s.failed && Unsent(s) && |s.loc| > 0
    ensures s.res.hasWin <= W.Range(0, 2 * job.cfg.maxWindow)
  {
    BaseIsZero(job, s);
  }

  lemma BatchHasWindow(job: Job, s: State, n: nat, id: nat)
    requires Inv(job, s) && n < |s.senders| && id in Batch(s.loc, n)
    ensures id in s.res.hasWin
  {
    assert Linked(job, s, id, ClaimOf(s.res, id));
  }

  /** A batch and the chunk that arrives at it fit the window together. */
  lemma BatchIsSmall(job: Job, s: State, n: nat)
    requires Inv(job, s) && !s.failed && Unsent(s) && n < |s.senders| && s.readQ != []
    ensures s.readQ[0] < |s.loc| && s.readQ[0] !in Batch(s.loc, n)
    ensures |Batch(s.loc, n)| < 2 * job.cfg.maxWindow
  {
    var id, b := s.readQ[0], Batch(s.loc, n);
    assert s.loc[id] == InReadCh;
    assert Linked(job, s, id, ClaimOf(s.res, id));
    forall x | x in b ensures x in s.res.hasWin {
      BatchHasWindow(job, s, n, x);
    }
    HeldIsInWindow(job, s);
    W.SubsetSize(b + {id}, W.Range(0, 2 * job.cfg.maxWindow));
  }

  lemma BatchIsLight(job: Job, s: State, n: nat, id: nat)
    requires Usable(job.cfg) && |s.loc| == |job.blocks| && id < |s.loc| && id !in Batch(s.loc, n)
    ensures Sum(DataLens(job), Batch(s.loc, n)) + DataLen(job, id) <= AllBytes(job)
  {
    var b := Batch(s.loc, n);
    SumAdd(DataLens(job), b, id);
    SumSubset(DataLens(job), b + {id}, W.Range(0, |job.blocks|));
  }

  lemma NeverFlushes(job: Job, s: State, n: nat)
    requires Inv(job, s) && !s.failed && Unsent(s) && Starves(job) && n < |s.senders| && s.readQ != []
    ensures s.readQ[0] < |job.blocks| && !MustFlush(job, s.senders[n], s.readQ[0])
  {
    BatchIsSmall(job, s, n);
    BatchIsLight(job, s, n, s.readQ[0]);
    assert BatchOk(job, s.loc, s.senders[n], n);
  }

  /** The chunk just beyond the window keeps its reader, so the input stays open. */
  lemma NeverCloses(job: Job, s: State)
    requires Inv(job, s) && !s.failed && Unsent(s) && Starves(job)
    ensures exists r :: 0 <= r < |s.readers| && !s.readers[r].Exited?
  {
    var id := 2 * job.cfg.maxWindow;
    if forall r :: 0 <= r < |s.readers| ==> s.readers[r].Exited? {
      AllTaken(job, s);
      assert Linked(job, s, id, ClaimOf(s.res, id));
      assert OffTheWire(s.loc[id]);
      HeldIsInWindow(job, s);
    }
  }

  lemma AllTaken(job: Job, s: State)
    requires Inv(job, s) && !s.failed && forall r :: 0 <= r < |s.readers| ==> s.readers[r].Exited?
    ensures s.taken == |job.blocks|
  {
    assert !BadReader(s.readers[0]);
    assert s.readers[0] == Exited(true);
    assert s.feeder != FeedEnded(false);
  }

  // ---- every step of every run

  lemma SendKeepsUnsent(job: Job, s: State, n: nat, a: SendAct)
    requires Inv(job, s) && !s.failed && Unsent(s) && Starves(job) && SendEnabled(job, s, n, a)
    requires !SendApply(job, s, n, a).failed
    ensures Unsent(SendApply(job, s, n, a))
  {
    NeverCloses(job, s);
    S.SendOthers(job, s, n, a);
    if a.TakeChunk? {
      NeverFlushes(job, s, n);
    }
    var t := SendApply(job, s, n, a);
    forall id | 0 <= id < |t.loc| ensures OffTheWire(t.loc[id]) {
      assert OffTheWire(s.loc[id]);
      S.SendLocs(job, s, n, a, id);
    }
  }

  lemma ReadKeepsUnsent(job: Job, s: State, r: nat, a: ReadAct)
    requires Inv(job, s) && Unsent(s) && ReadEnabled(job, s, r, a)
    ensures Unsent(ReadApply(job, s, r, a))
  {
    R.ReadMoves(job, s, r, a);
  }

  lemma WireKeepsUnsent(job: Job, s: State, n: nat, a: WireAct)
    requires Inv(job, s) && Unsent(s) && WireEnabled(job, s, n, a)
    ensures Unsent(WireApply(job, s, n, a))
  {
    T.WireLocs(job, s, n, a);
  }

  lemma StepKeepsUnsent(job: Job, s: State, step: Step)
    requires Inv(job, s) && !s.failed && Unsent(s) && Starves(job) && Enabled(job, s, step)
    requires !Apply(job, s, step).failed
    ensures Unsent(Apply(job, s, step))
  {
    match step
    case Feeds(_) =>
    case Read(r, a) => ReadKeepsUnsent(job, s, r, a);
    case Send(n, a) => SendKeepsUnsent(job, s, n, a);
    case Stream(n, a) => WireKeepsUnsent(job, s, n, a);
    case Cancel =>
    case Commit(_) =>
  }

  lemma {:induction false} NothingIsSent(job: Job, steps: seq<Step>)
    requires Starves(job) && Valid(job, steps) && !After(job, steps).failed
    ensures Unsent(After(job, steps))
  {
    if steps != [] {
      var front, step := steps[..|steps| - 1], steps[|steps| - 1];
      Runs.RunKeepsInv(job, front);
      StepFrame(job, After(job, front), step);
      NothingIsSent(job, front);
      StepKeepsUnsent(job, After(job, front), step);
    }
  }

  /** No run of such a job returns without an error. */
  lemma NoRunSucceeds(job: Job, steps: seq<Step>)
    requires Starves(job) && Valid(job, steps)
    ensures !Succeeded(After(job, steps))
  {
    var s := After(job, steps);
    if Succeeded(s) {
      Runs.RunKeepsInv(job, steps);
      Runs.SucceededIsNotFailed(job, s);
      NothingIsSent(job, steps);
      UnsentIsNoSuccess(s);
    }
  }

  lemma UnsentIsNoSuccess(s: State)
    requires Unsent(s) && s.senders != []
    ensures !Succeeded(s)
  {
    assert s.senders[0].phase == Select;
  }
}
