/** Every step that needs no failure brings the pipeline nearer to its end: a measure that
    all of them decrease, and so a bound on every run without failures. */
module Termination {
  import opened Wrappers
  import opened Configuration
  import opened Resources
  import opened Protocol
  import opened Invariant
  import opened Stall
  import Runs
  import R = ReaderSteps
  import S = SenderSteps
  import T = StreamSteps
  import W = Window

  // ---- the measure

  ghost function Total(ws: seq<nat>): (n: nat) {
    if ws == [] then 0 else Total(ws[..|ws| - 1]) + ws[|ws| - 1]
  }

  lemma {:induction false} TotalSet(ws: seq<nat>, i: nat, x: nat)
    requires i < |ws|
    ensures Total(ws[i := x]) + ws[i] == Total(ws) + x
  {
    var n := |ws| - 1;
    if i < n {
      TotalSet(ws[..n], i, x);
      assert ws[i := x][..n] == ws[..n][i := x];
    } else {
      assert ws[i := x][..n] == ws[..n];
    }
  }

  /** How far a chunk is from its ack. */
  ghost function LocRank(l: Loc): nat {
    match l
    case Queued => 40
    case AtReader(_) => 24
    case InReadCh => 20
    case Incoming(_) => 14
    case InBatch(_) => 12
    case OnWire(_, _) => 6
    case Written(_, _) => 5
    case _ => 4
  }

  ghost function PhaseRank(p: Phase): nat {
    match p
    case Start => 7
    case WaitMem => 6
    case WaitWin => 5
    case Reading => 4
    case ZeroFree => 3
    case Emit => 2
    case Abort => 1
  }

  ghost function ReaderRank(r: Reader): nat {
    match r case Exited(_) => 0 case Idle => 1 case Busy(_, p) => PhaseRank(p)
  }

  ghost function SendRank(p: SendPhase): nat {
    match p
    case Select => 3
    case Flush(last) => if last then 2 else 4
    case Free(rest, last) => |rest| + if last then 1 else 3
    case AbortBatch(rest) => |rest|
    case Ended(_) => 0
  }

  /** A request on the stream is first answered and then taken in. */
  ghost function SenderRank(w: Sender): int {
    SendRank(w.phase) + 2 * (w.sent - w.recv) + (w.recv - w.acked) + if w.ack.Receiving? then 1 else 0
  }

  ghost function LocRanks(loc: seq<Loc>): (ws: seq<nat>)
    ensures |ws| == |loc| && forall i :: 0 <= i < |ws| ==> ws[i] == LocRank(loc[i])
  {
    seq(|loc|, i requires 0 <= i < |loc| => LocRank(loc[i]))
  }

  ghost function ReaderRanks(rs: seq<Reader>): (ws: seq<nat>)
    ensures |ws| == |rs| && forall i :: 0 <= i < |ws| ==> ws[i] == ReaderRank(rs[i])
  {
    seq(|rs|, i requires 0 <= i < |rs| => ReaderRank(rs[i]))
  }

  /** Negative only in states that cannot be. */
  ghost function SenderRanks(vs: seq<Sender>): (ws: seq<nat>)
    ensures |ws| == |vs| && forall i :: 0 <= i < |ws| ==> ws[i] == Max(0, SenderRank(vs[i]))
  {
    seq(|vs|, i requires 0 <= i < |vs| => Max(0, SenderRank(vs[i])))
  }

  ghost function FeederRank(job: Job, s: State): nat {
    Max(0, |job.blocks| - s.fed) + if s.feeder.Feeding? then 1 else 0
  }

  ghost function Measure(job: Job, s: State): nat {
    FeederRank(job, s) + Total(LocRanks(s.loc)) + Total(ReaderRanks(s.readers)) + Total(SenderRanks(s.senders))
  }

  lemma LocSet(loc: seq<Loc>, i: nat, l: Loc)
    requires i < |loc|
    ensures Total(LocRanks(loc[i := l])) + LocRank(loc[i]) == Total(LocRanks(loc)) + LocRank(l)
  {
    TotalSet(LocRanks(loc), i, LocRank(l));
    assert LocRanks(loc)[i := LocRank(l)] == LocRanks(loc[i := l]);
  }

  lemma ReaderSet(rs: seq<Reader>, i: nat, r: Reader)
    requires i < |rs|
    ensures Total(ReaderRanks(rs[i := r])) + ReaderRank(rs[i]) == Total(ReaderRanks(rs)) + ReaderRank(r)
  {
    TotalSet(ReaderRanks(rs), i, ReaderRank(r));
    assert ReaderRanks(rs)[i := ReaderRank(r)] == ReaderRanks(rs[i := r]);
  }

  lemma SenderSet(vs: seq<Sender>, i: nat, v: Sender)
    requires i < |vs|
    ensures Total(SenderRanks(vs[i := v])) + Max(0, SenderRank(vs[i])) == Total(SenderRanks(vs)) + Max(0, SenderRank(v))
  {
    TotalSet(SenderRanks(vs), i, Max(0, SenderRank(v)));
    assert SenderRanks(vs)[i := Max(0, SenderRank(v))] == SenderRanks(vs[i := v]);
  }

  /** Sending a batch moves all its chunks at once. */
  lemma {:induction false} SentRank(loc: seq<Loc>, n: nat, k: nat)
    ensures Total(LocRanks(SentLocs(loc, n, k))) + 6 * |Batch(loc, n)| == Total(LocRanks(loc))
  {
    if loc == [] {
      assert Batch(loc, n) == {};
    } else {
      var m := |loc| - 1;
      var front := loc[..m];
      SentRank(front, n, k);
      assert LocRanks(loc)[..m] == LocRanks(front);
      assert LocRanks(SentLocs(loc, n, k))[..m] == LocRanks(SentLocs(front, n, k));
      BatchFront(loc, n);
    }
  }

  lemma BatchFront(loc: seq<Loc>, n: nat)
    requires loc != []
    ensures |Batch(loc, n)| == |Batch(loc[..|loc| - 1], n)| + if loc[|loc| - 1] == InBatch(n) then 1 else 0
  {
    var m := |loc| - 1;
    var b := Batch(loc[..m], n);
    if loc[m] == InBatch(n) {
      assert Batch(loc, n) == b + {m};
    } else {
      assert Batch(loc, n) == b;
    }
  }

  // ---- every step of progress decreases it

  lemma FeedDecreases(job: Job, s: State, a: FeedAct)
    requires Usable(job.cfg) && !s.cancelled && FeedEnabled(job, s, a)
    ensures Measure(job, FeedApply(job, s, a)) < Measure(job, s)
  {
  }

  /** A read worker's step lowers the rank of the reader, and that of the chunk if it moves. */
  lemma ReaderGoesOn(job: Job, s: State, r: nat, a: ReadAct)
    requires Usable(job.cfg) && |s.loc| == |job.blocks| && !s.cancelled && ReadEnabled(job, s, r, a)
    requires !(s.readers[r].Busy? && s.readers[r].phase.Abort?)
    ensures var t := ReadApply(job, s, r, a);
            && t.readers == s.readers[r := t.readers[r]]
            && ReaderRank(t.readers[r]) < ReaderRank(s.readers[r]) + if a.Take? then 7 else 0
  {
  }

  lemma ReadDecreases(job: Job, s: State, r: nat, a: ReadAct)
    requires Inv(job, s) && !s.cancelled && ReadEnabled(job, s, r, a)
    ensures Measure(job, ReadApply(job, s, r, a)) < Measure(job, s)
  {
    var t := ReadApply(job, s, r, a);
    UncancelledIsSound(job, s);
    assert !BadReader(s.readers[r]);
    R.ReadMoves(job, s, r, a);
    ReaderGoesOn(job, s, r, a);
    ReaderDown(job, s, t, r, R.MoveOf(a));
  }

  lemma MoveLowersLocs(s: State, t: State, r: nat, m: R.Move)
    requires ReadersPlaced(s) && R.Moves(s, t, r, m)
    ensures Total(LocRanks(t.loc)) + (if m.Taking? then 7 else 0) <= Total(LocRanks(s.loc))
  {
    match m
    case Taking => LocSet(s.loc, s.taken, AtReader(r));
    case Leaving(l, _) => LocSet(s.loc, s.readers[r].id, l);
    case _ =>
  }

  lemma ReaderDown(job: Job, s: State, t: State, r: nat, m: R.Move)
    requires ReadersPlaced(s) && R.Moves(s, t, r, m) && |t.readers| == |s.readers|
    requires t.readers == s.readers[r := t.readers[r]] && t.senders == s.senders
    requires t.fed == s.fed && t.feeder == s.feeder
    requires ReaderRank(t.readers[r]) < ReaderRank(s.readers[r]) + if m.Taking? then 7 else 0
    ensures Measure(job, t) < Measure(job, s)
  {
    MoveLowersLocs(s, t, r, m);
    ReaderSet(s.readers, r, t.readers[r]);
  }

  /** Nothing that the feeder and the readers are ranked by has changed. */
  ghost predicate Aside(s: State, t: State) {
    t.readers == s.readers && t.fed == s.fed && t.feeder == s.feeder
  }

  ghost function Rank(v: Sender): nat { Max(0, SenderRank(v)) }

  lemma SenderDown(job: Job, s: State, t: State, n: nat)
    requires Aside(s, t) && t.loc == s.loc && n < |s.senders| && |t.senders| == |s.senders|
    requires t.senders == s.senders[n := t.senders[n]] && Rank(t.senders[n]) < Rank(s.senders[n])
    ensures Measure(job, t) < Measure(job, s)
  {
    SenderSet(s.senders, n, t.senders[n]);
  }

  lemma BothDown(job: Job, s: State, t: State, n: nat, id: nat)
    requires Aside(s, t) && n < |s.senders| && |t.senders| == |s.senders| && id < |s.loc| == |t.loc|
    requires t.senders == s.senders[n := t.senders[n]] && t.loc == s.loc[id := t.loc[id]]
    requires LocRank(t.loc[id]) + Rank(t.senders[n]) < LocRank(s.loc[id]) + Rank(s.senders[n])
    ensures Measure(job, t) < Measure(job, s)
  {
    SenderSet(s.senders, n, t.senders[n]);
    LocSet(s.loc, id, t.loc[id]);
  }

  lemma TakeDecreases(job: Job, s: State, n: nat)
    requires Usable(job.cfg) && |s.loc| == |job.blocks| && SendEnabled(job, s, n, TakeChunk)
    requires s.loc[s.readQ[0]] == InReadCh && PhaseOk(s.loc, s.senders[n], n)
    ensures Measure(job, SendApply(job, s, n, TakeChunk)) < Measure(job, s)
  {
    BothDown(job, s, SendApply(job, s, n, TakeChunk), n, s.readQ[0]);
  }

  lemma BatchDown(job: Job, s: State, t: State, n: nat, k: nat)
    requires Aside(s, t) && n < |s.senders| && |t.senders| == |s.senders| && t.loc == SentLocs(s.loc, n, k)
    requires t.senders == s.senders[n := t.senders[n]]
    requires Rank(t.senders[n]) < Rank(s.senders[n]) + 6 * |Batch(s.loc, n)|
    ensures Measure(job, t) < Measure(job, s)
  {
    SenderSet(s.senders, n, t.senders[n]);
    SentRank(s.loc, n, k);
  }

  lemma SentDecreases(job: Job, s: State, n: nat)
    requires Usable(job.cfg) && |s.loc| == |job.blocks| && SendEnabled(job, s, n, SendOk)
    requires PhaseOk(s.loc, s.senders[n], n) && |Batch(s.loc, n)| > 0
    ensures Measure(job, SendApply(job, s, n, SendOk)) < Measure(job, s)
  {
    BatchDown(job, s, SendApply(job, s, n, SendOk), n, s.senders[n].sent);
  }

  lemma FreeDecreases(job: Job, s: State, n: nat, id: nat)
    requires Usable(job.cfg) && |s.loc| == |job.blocks| && SendEnabled(job, s, n, FreeOne(id))
    requires PhaseOk(s.loc, s.senders[n], n)
    ensures Measure(job, SendApply(job, s, n, FreeOne(id))) < Measure(job, s)
  {
    assert |s.senders[n].phase.rest - {id}| == |s.senders[n].phase.rest| - 1;
    SenderDown(job, s, SendApply(job, s, n, FreeOne(id)), n);
  }

  lemma FlushEndDecreases(job: Job, s: State, n: nat)
    requires Usable(job.cfg) && |s.loc| == |job.blocks| && SendEnabled(job, s, n, FlushEnd)
    requires PhaseOk(s.loc, s.senders[n], n)
    ensures Measure(job, SendApply(job, s, n, FlushEnd)) < Measure(job, s)
  {
    if s.senders[n].phase.last {
      SenderDown(job, s, SendApply(job, s, n, FlushEnd), n);
    } else {
      BothDown(job, s, SendApply(job, s, n, FlushEnd), n, s.senders[n].incoming.value);
    }
  }

  lemma ClosedDecreases(job: Job, s: State, n: nat)
    requires Usable(job.cfg) && |s.loc| == |job.blocks| && SendEnabled(job, s, n, InputClosed)
    requires PhaseOk(s.loc, s.senders[n], n)
    ensures Measure(job, SendApply(job, s, n, InputClosed)) < Measure(job, s)
  {
    SenderDown(job, s, SendApply(job, s, n, InputClosed), n);
  }

  lemma SendDecreases(job: Job, s: State, n: nat, a: SendAct)
    requires Inv(job, s) && !s.cancelled && SendEnabled(job, s, n, a) && !a.SendErr? && !a.OpenErr?
    ensures Measure(job, SendApply(job, s, n, a)) < Measure(job, s)
  {
    UncancelledIsSound(job, s);
    assert !BadSender(s.senders[n]);
    assert PhaseOk(s.loc, s.senders[n], n);
    assert BatchOk(job, s.loc, s.senders[n], n);
    match a
    case TakeChunk => TakeDecreases(job, s, n);
    case SendOk => SentDecreases(job, s, n);
    case FreeOne(id) => FreeDecreases(job, s, n, id);
    case FlushEnd => FlushEndDecreases(job, s, n);
    case InputClosed => ClosedDecreases(job, s, n);
    case _ =>
  }

  lemma WireDecreases(job: Job, s: State, n: nat, a: WireAct)
    requires Usable(job.cfg) && |s.loc| == |job.blocks| && WireEnabled(job, s, n, a) && !a.RecvErr?
    requires PhaseOk(s.loc, s.senders[n], n)
    ensures Measure(job, WireApply(job, s, n, a)) < Measure(job, s)
  {
    var t := WireApply(job, s, n, a);
    T.WireLocs(job, s, n, a);
    match a
    case Write(id) => ChunkDown(job, s, t, id);
    case Release(id) => ChunkDown(job, s, t, id);
    case _ => SenderDown(job, s, t, n);
  }

  lemma ChunkDown(job: Job, s: State, t: State, id: nat)
    requires Aside(s, t) && t.senders == s.senders && id < |s.loc| == |t.loc|
    requires t.loc == s.loc[id := t.loc[id]] && LocRank(t.loc[id]) < LocRank(s.loc[id])
    ensures Measure(job, t) < Measure(job, s)
  {
    LocSet(s.loc, id, t.loc[id]);
  }

  /** In every uncancelled state, every step that needs no failure decreases the measure. */
  lemma ProgressDecreases(job: Job, s: State, step: Step)
    requires Inv(job, s) && !s.cancelled && Progress(step) && Enabled(job, s, step)
    ensures Measure(job, Apply(job, s, step)) < Measure(job, s)
  {
    match step
    case Feeds(a) => FeedDecreases(job, s, a);
    case Read(r, a) => ReadDecreases(job, s, r, a);
    case Send(n, a) => SendDecreases(job, s, n, a);
    case Stream(n, a) =>
      assert PhaseOk(s.loc, s.senders[n], n);
      WireDecreases(job, s, n, a);
    case _ =>
  }

  /** And none of them cancels anything. */
  lemma ProgressDoesNotCancel(job: Job, s: State, step: Step)
    requires Inv(job, s) && !s.cancelled && Progress(step) && Enabled(job, s, step)
    ensures !Apply(job, s, step).cancelled
  {
    UncancelledIsSound(job, s);
    match step
    case Read(r, a) => assert !BadReader(s.readers[r]);
    case Send(n, a) => assert !BadSender(s.senders[n]);
    case _ =>
  }

  // ---- runs without failures

  ghost predicate FailureFree(steps: seq<Step>) {
    forall i :: 0 <= i < |steps| ==> Progress(steps[i])
  }

  lemma {:induction false} FailureFreeRunsShrink(job: Job, steps: seq<Step>)
    requires Usable(job.cfg) && Valid(job, steps) && FailureFree(steps)
    ensures !After(job, steps).cancelled && |steps| + Measure(job, After(job, steps)) <= Measure(job, Init(job))
  {
    if steps != [] {
      var front, step := steps[..|steps| - 1], steps[|steps| - 1];
      FailureFreeRunsShrink(job, front);
      Runs.RunKeepsInv(job, front);
      ProgressDecreases(job, After(job, front), step);
      ProgressDoesNotCancel(job, After(job, front), step);
    }
  }

  lemma {:induction false} TotalSame(ws: seq<nat>, x: nat)
    requires forall i :: 0 <= i < |ws| ==> ws[i] == x
    ensures Total(ws) == x * |ws|
  {
    if ws != [] {
      TotalSame(ws[..|ws| - 1], x);
    }
  }

  /** Every run without failures comes to an end: it has no more steps than 41 for each
      block, one for each reader, four for each sender, and one. */
  lemma FailureFreeRunsEnd(job: Job, steps: seq<Step>)
    requires Usable(job.cfg) && Valid(job, steps) && FailureFree(steps)
    ensures |steps| <= 41 * |job.blocks| + job.cfg.readWorkers + 4 * job.cfg.dataSendWorkers + 1
  {
    var s := Init(job);
    FailureFreeRunsShrink(job, steps);
    TotalSame(LocRanks(s.loc), 40);
    TotalSame(ReaderRanks(s.readers), 1);
    TotalSame(SenderRanks(s.senders), 4);
  }

  lemma ExtendRun(job: Job, steps: seq<Step>, step: Step)
    requires Usable(job.cfg) && Valid(job, steps) && Enabled(job, After(job, steps), step)
    ensures Valid(job, steps + [step]) && After(job, steps + [step]) == Apply(job, After(job, steps), step)
  {
    assert (steps + [step])[..|steps + [step]| - 1] == steps;
  }

  ghost predicate Live(job: Job, steps: seq<Step>) {
    Usable(job.cfg) && Valid(job, steps) && !After(job, steps).cancelled
  }

  /** The measure after a run. */
  ghost function Left(job: Job, steps: seq<Step>): nat
    requires Live(job, steps)
  {
    Measure(job, After(job, steps))
  }

  lemma GoOn(job: Job, steps: seq<Step>, step: Step)
    requires Live(job, steps) && Progress(step) && Enabled(job, After(job, steps), step)
    ensures Live(job, steps + [step]) && Left(job, steps + [step]) < Left(job, steps)
    ensures After(job, steps + [step]) == Apply(job, After(job, steps), step)
  {
    Runs.RunKeepsInv(job, steps);
    ExtendRun(job, steps, step);
    ProgressDecreases(job, After(job, steps), step);
    ProgressDoesNotCancel(job, After(job, steps), step);
  }

  lemma NextStep(job: Job, steps: seq<Step>) returns (step: Step)
    requires Live(job, steps) && !Stuck(job, After(job, steps))
    ensures Progress(step) && Live(job, steps + [step]) && Left(job, steps + [step]) < Left(job, steps)
  {
    step :| Progress(step) && Enabled(job, After(job, steps), step);
    GoOn(job, steps, step);
  }

  ghost predicate AtRest(job: Job, steps: seq<Step>)
    requires Live(job, steps)
  {
    Stuck(job, After(job, steps))
  }

  /** No failure from the k-th step on. */
  ghost predicate FreeFrom(steps: seq<Step>, k: nat) {
    forall i :: k <= i < |steps| ==> Progress(steps[i])
  }

  lemma {:induction false} ComesToRest(job: Job, steps: seq<Step>) returns (all: seq<Step>)
    requires Live(job, steps)
    ensures steps <= all && FreeFrom(all, |steps|) && Live(job, all) && AtRest(job, all)
    decreases Left(job, steps)
  {
    if AtRest(job, steps) {
      all := steps;
    } else {
      var step := NextStep(job, steps);
      all := ComesToRest(job, steps + [step]);
    }
  }

  /** Every run that is not cancelled can be carried on without failures until nothing can
      move. */
  lemma RestIsReached(job: Job, steps: seq<Step>) returns (more: seq<Step>)
    requires Usable(job.cfg) && Valid(job, steps) && !After(job, steps).cancelled
    ensures Valid(job, steps + more) && FailureFree(more) && Stuck(job, After(job, steps + more))
  {
    var all := ComesToRest(job, steps);
    more := all[|steps|..];
    assert steps + more == all;
  }

  /** So a job that fits the window succeeds: every run of it that has not been cancelled
      can be carried on to success, and carries itself there if nothing fails. */
  lemma SuccessIsReached(job: Job, steps: seq<Step>) returns (more: seq<Step>)
    requires Usable(job.cfg) && MemoryIsPlentiful(job.cfg) && FullReads(job) && |job.blocks| <= 2 * job.cfg.maxWindow
    requires Valid(job, steps) && !After(job, steps).cancelled
    ensures Valid(job, steps + more) && FailureFree(more) && Succeeded(After(job, steps + more))
  {
    more := RestIsReached(job, steps);
    NoStallWithinTheWindow(job, steps + more);
  }
}
