/** Every job with more blocks than its window can stall, whatever its blocks are. One
    reader keeps chunk 0 back while another takes the rest of the window through to a
    sender; then chunk 0 goes into the batch of that sender, behind all the others, and
    the readers queue for the window. */
module StallWitness {
  import opened Wrappers
  import opened Contents
  import opened Configuration
  import opened Resources
  import opened Protocol
  import opened Invariant
  import opened Stall
  import opened Termination
  import Runs
  import R = ReaderSteps
  import S = SenderSteps
  import T = StreamSteps
  import W = Window

  /** A file of zeros, a zero block for each byte: a job of any number of blocks. */
  ghost function TheJob(c: Config, n: nat): (job: Job)
    ensures job.cfg == c && |job.blocks| == n
    ensures forall i :: 0 <= i < n ==> job.blocks[i] == Block("", i, 1, n, true)
  {
    Job(c, seq(n, i requires 0 <= i < n => Block("", i, 1, n, true)), map["" := Zeros(n)], map[])
  }

  /** Jobs in which memory never holds anybody up for good. */
  ghost predicate Ample(job: Job) {
    Usable(job.cfg) && MemoryIsPlentiful(job.cfg) && FullReads(job)
  }

  /** The number of ids the window can hold. */
  ghost function Limit(job: Job): nat { Max(0, 2 * job.cfg.maxWindow) }

  /** A chunk that has its slot and keeps it holds the base. */
  lemma BaseIsHeld(job: Job, s: State)
    requires Inv(job, s) && |s.loc| > 0
    requires s.loc[0].AtReader? || s.loc[0].Incoming? || s.loc[0].InBatch?
    ensures s.res.win.ring.base == 0
  {
    assert Linked(job, s, 0, ClaimOf(s.res, 0));
    W.BaseIsLeastUnreleased(s.res.win.ring, 0);
  }

  /** So an id within the limit does not wait for the window, and one beyond does not have
      it. */
  lemma WindowOf(job: Job, s: State, id: nat)
    requires Inv(job, s) && s.res.win.ring.base == 0
    ensures id in s.res.hasWin ==> id < Limit(job)
    ensures id in WinWait(s.res) ==> id >= Limit(job)
  {
    if id in WinWait(s.res) {
      var x := W.IdsWitness(s.res.win.waiters, id);
    }
  }

  // ---- chunk 0 is kept back

  ghost predicate AllSelect(s: State) {
    forall n :: 0 <= n < |s.senders| ==> s.senders[n].phase == Select
  }

  /** Reader 0 holds chunk 0 just before the read channel, and only reader 1 and sender 0
      work. */
  ghost predicate Kept(job: Job, s: State) {
    && |s.readers| >= 2 && s.readers[0] == Busy(0, Emit) && s.feeder.Feeding? && s.fed <= Limit(job)
    && (forall r :: 2 <= r < |s.readers| ==> s.readers[r] == Idle)
    && (forall n :: 1 <= n < |s.senders| ==> s.senders[n].phase == Select)
  }

  /** The first chunk with reader 0, and nothing else yet. */
  ghost predicate First(s: State) {
    && |s.readers| >= 2 && s.readers[0].Busy? && s.readers[0].id == 0 && s.feeder.Feeding? && s.fed == 1
    && (forall r :: 1 <= r < |s.readers| ==> s.readers[r] == Idle)
    && AllSelect(s) && s.readQ == []
  }

  /** The first block is in the chunk channel, and nobody has done anything else. */
  ghost predicate Untaken(s: State) {
    && |s.readers| >= 2 && (forall r :: 0 <= r < |s.readers| ==> s.readers[r] == Idle) && s.feeder.Feeding?
    && s.fed == 1 && s.taken == 0 && |s.loc| > 0 && AllSelect(s) && s.readQ == []
  }

  lemma FeedIsFirst(job: Job)
    requires Usable(job.cfg) && |job.blocks| > 0
    ensures FeedEnabled(job, Init(job), Feed) && Untaken(FeedApply(job, Init(job), Feed))
  {
  }

  lemma TakeIsFirst(job: Job, s: State)
    requires Usable(job.cfg) && |s.loc| == |job.blocks| && Untaken(s)
    ensures ReadEnabled(job, s, 0, Take) && First(ReadApply(job, s, 0, Take))
  {
  }

  lemma FirstTaken(job: Job) returns (steps: seq<Step>)
    requires Usable(job.cfg) && |job.blocks| > 0
    ensures Live(job, steps) && First(After(job, steps))
  {
    assert Valid(job, []) && After(job, []) == Init(job);
    FeedIsFirst(job);
    GoOn(job, [], Feeds(Feed));
    var one := [] + [Feeds(Feed)];
    TakeIsFirst(job, After(job, one));
    GoOn(job, one, Read(0, Take));
    steps := one + [Read(0, Take)];
  }

  lemma FirstStays(job: Job, s: State, a: ReadAct)
    requires Usable(job.cfg) && |s.loc| == |job.blocks| && First(s) && ReadEnabled(job, s, 0, a) && Onward(a) && !a.Put?
    ensures First(ReadApply(job, s, 0, a))
  {
    R.ReadMoves(job, s, 0, a);
  }

  /** Only its place in the read channel is still to be taken. */
  lemma FirstGoesOn(job: Job, s: State) returns (a: ReadAct)
    requires Inv(job, s) && !s.cancelled && Ample(job) && First(s) && s.readers[0].phase != Emit
    ensures Onward(a) && !a.Put? && ReadEnabled(job, s, 0, a)
  {
    BusyIsPlaced(job, s, 0);
    BaseIsHeld(job, s);
    WindowOf(job, s, 0);
    a := OnlyTheWindowHolds(job, s, 0);
  }

  lemma BusyIsPlaced(job: Job, s: State, r: nat)
    requires ReadersPlaced(s) && r < |s.readers| && s.readers[r].Busy?
    ensures s.readers[r].id < |s.loc| && s.loc[s.readers[r].id] == AtReader(r)
  {
  }

  lemma NextFirst(job: Job, steps: seq<Step>) returns (step: Step)
    requires Live(job, steps) && Ample(job) && First(After(job, steps)) && After(job, steps).readers[0].phase != Emit
    ensures Live(job, steps + [step]) && Left(job, steps + [step]) < Left(job, steps)
    ensures First(After(job, steps + [step]))
  {
    var s := After(job, steps);
    Runs.RunKeepsInv(job, steps);
    var a := FirstGoesOn(job, s);
    step := Read(0, a);
    GoOn(job, steps, step);
    FirstStays(job, s, a);
  }

  lemma {:induction false} BringFirst(job: Job, steps: seq<Step>) returns (more: seq<Step>)
    requires Live(job, steps) && Ample(job) && First(After(job, steps))
    ensures Live(job, more) && First(After(job, more)) && After(job, more).readers[0].phase == Emit
    decreases Left(job, steps)
  {
    more := steps;
    if After(job, steps).readers[0].phase != Emit {
      var step := NextFirst(job, steps);
      more := BringFirst(job, steps + [step]);
    }
  }

  lemma KeepBack(job: Job) returns (steps: seq<Step>)
    requires Ample(job) && |job.blocks| > 0
    ensures Live(job, steps) && Kept(job, After(job, steps))
  {
    steps := FirstTaken(job);
    steps := BringFirst(job, steps);
  }

  /** What may happen while chunk 0 is kept back. */
  ghost predicate Behind(job: Job, s: State, step: Step) {
    match step
    case Feeds(a) => a == Feed && s.fed < Limit(job)
    case Read(r, a) => r == 1 && !a.ReadErr?
    case Send(n, a) => n == 0 && (a.TakeChunk? || a.SendOk? || a.FreeOne? || a.FlushEnd?)
    case _ => false
  }

  lemma StaysKept(job: Job, s: State, step: Step)
    requires Inv(job, s) && !s.cancelled && Kept(job, s) && Behind(job, s, step) && Enabled(job, s, step)
    ensures Kept(job, Apply(job, s, step))
  {
    match step
    case Feeds(_) =>
    case Read(r, a) =>
      UncancelledIsSound(job, s);
      assert !BadReader(s.readers[1]);
      R.ReadMoves(job, s, r, a);
      ReaderGoesOn(job, s, r, a);
    case Send(n, a) => S.SendOthers(job, s, n, a);
    case _ =>
  }

  /** Nothing that may happen behind chunk 0 can happen any more. */
  ghost predicate Exhausted(job: Job, s: State)
    requires Usable(job.cfg) && |s.loc| == |job.blocks|
  {
    forall step :: Behind(job, s, step) ==> !Enabled(job, s, step)
  }

  lemma {:induction false} Exhaust(job: Job, steps: seq<Step>) returns (more: seq<Step>)
    requires Live(job, steps) && Kept(job, After(job, steps))
    ensures Live(job, more) && Kept(job, After(job, more)) && Exhausted(job, After(job, more))
    decreases Left(job, steps)
  {
    more := steps;
    if !Exhausted(job, After(job, steps)) {
      var step := NextBehind(job, steps);
      more := Exhaust(job, steps + [step]);
    }
  }

  lemma NextBehind(job: Job, steps: seq<Step>) returns (step: Step)
    requires Live(job, steps) && Kept(job, After(job, steps)) && !Exhausted(job, After(job, steps))
    ensures Live(job, steps + [step]) && Left(job, steps + [step]) < Left(job, steps)
    ensures Kept(job, After(job, steps + [step]))
  {
    var s := After(job, steps);
    Runs.RunKeepsInv(job, steps);
    step :| Behind(job, s, step) && Enabled(job, s, step);
    GoOn(job, steps, step);
    StaysKept(job, s, step);
  }

  // ---- the state then

  lemma NotBehind(job: Job, s: State, step: Step)
    requires Usable(job.cfg) && |s.loc| == |job.blocks| && Exhausted(job, s) && Behind(job, s, step)
    ensures !Enabled(job, s, step)
  {
  }

  /** Sender 0 waits for a chunk. */
  lemma SenderWaits(job: Job, s: State)
    requires Inv(job, s) && !s.cancelled && (exists r :: 0 <= r < |s.readers| && !s.readers[r].Exited?)
    requires !SendEnabled(job, s, 0, SendOk) && !SendEnabled(job, s, 0, FlushEnd)
    requires forall id :: !SendEnabled(job, s, 0, FreeOne(id))
    ensures s.senders[0].phase == Select
  {
    UncancelledIsSound(job, s);
    var v := s.senders[0];
    assert !BadSender(v) && !InputOver(v.phase);
    assert PhaseOk(s.loc, v, 0);
    if v.phase.Free? && v.phase.rest != {} {
      var id :| id in v.phase.rest;
      assert SendEnabled(job, s, 0, FreeOne(id));
    }
  }

  lemma BehindSenderWaits(job: Job, s: State)
    requires Inv(job, s) && !s.cancelled && Kept(job, s) && Exhausted(job, s)
    ensures s.senders[0].phase == Select && s.readQ == []
  {
    NotBehind(job, s, Send(0, SendOk));
    NotBehind(job, s, Send(0, FlushEnd));
    forall id ensures !SendEnabled(job, s, 0, FreeOne(id)) {
      NotBehind(job, s, Send(0, FreeOne(id)));
    }
    assert !s.readers[0].Exited?;
    SenderWaits(job, s);
    NotBehind(job, s, Send(0, TakeChunk));
  }

  lemma BehindIsQuiet(job: Job, s: State)
    requires Inv(job, s) && !s.cancelled && Kept(job, s) && Exhausted(job, s)
    ensures Quiet(s) && AllSelect(s)
  {
    BehindSenderWaits(job, s);
  }

  /** The chunk of the second reader has a place in the window. */
  lemma SecondHasWindow(job: Job, s: State)
    requires Inv(job, s) && Kept(job, s) && s.readers[1].Busy?
    ensures s.readers[1].id !in WinWait(s.res)
  {
    BusyIsPlaced(job, s, 0);
    BaseIsHeld(job, s);
    WindowOf(job, s, s.readers[1].id);
    BusyIsAboveBase(job, s, 1);
  }

  lemma SecondIsIdle(job: Job, s: State)
    requires Inv(job, s) && !s.cancelled && Ample(job) && Kept(job, s) && Exhausted(job, s)
    ensures s.readers[1] == Idle
  {
    UncancelledIsSound(job, s);
    assert !BadReader(s.readers[1]);
    if s.readers[1].Busy? {
      BehindIsQuiet(job, s);
      SecondHasWindow(job, s);
      var a := OnlyTheWindowHolds(job, s, 1);
      NotBehind(job, s, Read(1, a));
    }
  }

  /** All of the window has been taken, and nothing is left before the senders. */
  ghost predicate Through(job: Job, s: State) {
    && s.senders != [] && s.senders[0].phase == Select && s.readQ == [] && s.feeder.Feeding?
    && s.fed == s.taken == Limit(job)
    && |s.readers| >= 2 && s.readers[0] == Busy(0, Emit) && forall r :: 1 <= r < |s.readers| ==> s.readers[r] == Idle
  }

  lemma ExhaustedIsThrough(job: Job, s: State)
    requires Inv(job, s) && !s.cancelled && Ample(job) && Kept(job, s) && Exhausted(job, s)
    requires |job.blocks| > Limit(job)
    ensures Through(job, s)
  {
    BehindSenderWaits(job, s);
    SecondIsIdle(job, s);
    NothingToTake(job, s);
  }

  lemma NothingToTake(job: Job, s: State)
    requires Usable(job.cfg) && Shape(job, s) && Kept(job, s) && Exhausted(job, s) && s.readers[1] == Idle
    requires |job.blocks| > Limit(job)
    ensures s.fed == s.taken == Limit(job)
  {
    NotBehind(job, s, Read(1, Take));
    if s.fed < Limit(job) {
      NotBehind(job, s, Feeds(Feed));
    }
  }

  // ---- chunk 0 goes into the batch

  /** Chunk 0 at sender 0, on its way into the batch or in it. */
  ghost predicate Coming(job: Job, s: State) {
    && s.senders != [] && s.readQ == [] && s.feeder.Feeding? && s.fed == s.taken == Limit(job) < |s.loc|
    && |s.readers| >= 2 && (forall r :: 0 <= r < |s.readers| ==> s.readers[r] == Idle)
    && (s.loc[0] == Incoming(0) || (s.loc[0] == InBatch(0) && s.senders[0].phase == Select))
  }

  /** Chunk 0 in the read channel. */
  ghost predicate Offered(job: Job, s: State) {
    && s.senders != [] && s.senders[0].phase == Select && s.readQ == [0] && s.feeder.Feeding?
    && s.fed == s.taken == Limit(job) < |s.loc|
    && |s.readers| >= 2 && forall r :: 0 <= r < |s.readers| ==> s.readers[r] == Idle
  }

  lemma PutOffers(job: Job, s: State)
    requires Usable(job.cfg) && |s.loc| == |job.blocks| > Limit(job) && Through(job, s)
    ensures ReadEnabled(job, s, 0, Put) && Offered(job, ReadApply(job, s, 0, Put))
  {
  }

  lemma TakeBrings(job: Job, s: State)
    requires Usable(job.cfg) && |s.loc| == |job.blocks| && Offered(job, s)
    ensures SendEnabled(job, s, 0, TakeChunk) && Coming(job, SendApply(job, s, 0, TakeChunk))
  {
    assert s.readQ[1..] == [];
  }

  lemma FirstIsPut(job: Job, steps: seq<Step>) returns (more: seq<Step>)
    requires Live(job, steps) && Through(job, After(job, steps)) && |job.blocks| > Limit(job)
    ensures Live(job, more) && Coming(job, After(job, more))
  {
    PutOffers(job, After(job, steps));
    GoOn(job, steps, Read(0, Put));
    more := steps + [Read(0, Put)];
    TakeBrings(job, After(job, more));
    GoOn(job, more, Send(0, TakeChunk));
    more := more + [Send(0, TakeChunk)];
  }

  /** The rest of a flush. */
  ghost predicate Flushing(step: Step) {
    step.Send? && step.n == 0 && (step.sa.SendOk? || step.sa.FreeOne? || step.sa.FlushEnd?)
  }

  lemma StaysComing(job: Job, s: State, step: Step)
    requires Inv(job, s) && !s.cancelled && Coming(job, s) && Flushing(step) && Enabled(job, s, step)
    ensures Coming(job, Apply(job, s, step))
  {
    assert PhaseOk(s.loc, s.senders[0], 0);
    assert LocAtSender(s.senders, 0, s.loc[0]);
    S.SendLocs(job, s, 0, step.sa, 0);
    S.SendOthers(job, s, 0, step.sa);
  }

  ghost predicate Flushed(job: Job, s: State)
    requires Usable(job.cfg) && |s.loc| == |job.blocks|
  {
    forall step :: Flushing(step) ==> !Enabled(job, s, step)
  }

  lemma {:induction false} FlushOut(job: Job, steps: seq<Step>) returns (more: seq<Step>)
    requires Live(job, steps) && Coming(job, After(job, steps))
    ensures Live(job, more) && Coming(job, After(job, more)) && Flushed(job, After(job, more))
    decreases Left(job, steps)
  {
    more := steps;
    if !Flushed(job, After(job, steps)) {
      var step := NextFlushing(job, steps);
      more := FlushOut(job, steps + [step]);
    }
  }

  lemma NextFlushing(job: Job, steps: seq<Step>) returns (step: Step)
    requires Live(job, steps) && Coming(job, After(job, steps)) && !Flushed(job, After(job, steps))
    ensures Live(job, steps + [step]) && Left(job, steps + [step]) < Left(job, steps)
    ensures Coming(job, After(job, steps + [step]))
  {
    var s := After(job, steps);
    Runs.RunKeepsInv(job, steps);
    step :| Flushing(step) && Enabled(job, s, step);
    GoOn(job, steps, step);
    StaysComing(job, s, step);
  }

  // ---- the readers queue for the window

  ghost predicate Waits(job: Job, r: Reader) {
    r.Idle? || r.Exited? || (r.id >= Limit(job) && (r.phase == Start || r.phase == WaitMem || r.phase == WaitWin))
  }

  /** Chunk 0 is in an unsent batch, and nobody can bring that sender another chunk. */
  ghost predicate Parked(job: Job, s: State) {
    && |s.loc| > Limit(job) && s.loc[0] == InBatch(0) && s.senders != [] && s.senders[0].phase == Select
    && s.readQ == [] && s.taken >= Limit(job)
    && (forall r :: 0 <= r < |s.readers| ==> Waits(job, s.readers[r]))
    && (forall id :: Limit(job) <= id < |s.loc| ==> s.loc[id].Queued? || s.loc[id].AtReader?)
  }

  lemma FlushedIsParked(job: Job, s: State)
    requires Inv(job, s) && !s.cancelled && Coming(job, s) && Flushed(job, s)
    ensures Parked(job, s)
  {
    assert Flushing(Send(0, SendOk)) && Flushing(Send(0, FlushEnd));
    forall id ensures !SendEnabled(job, s, 0, FreeOne(id)) {
      assert Flushing(Send(0, FreeOne(id)));
    }
    assert !s.readers[0].Exited?;
    SenderWaits(job, s);
    assert PhaseOk(s.loc, s.senders[0], 0);
    assert LocAtSender(s.senders, 0, s.loc[0]);
  }

  /** The input of the senders stays open: the chunk just beyond the window never leaves
      its reader. */
  lemma InputStaysOpen(job: Job, s: State, n: nat)
    requires Inv(job, s) && !s.cancelled && Parked(job, s)
    ensures !SendEnabled(job, s, n, InputClosed)
  {
    if forall r :: 0 <= r < |s.readers| ==> s.readers[r].Exited? {
      UncancelledIsSound(job, s);
      assert !BadReader(s.readers[0]);
      assert s.readers[0] == Exited(true);
      assert !s.loc[Limit(job)].Queued?;
    }
  }

  /** A reader that waits beyond the window comes no further than to its queue. */
  lemma WaiterGoesOnWaiting(job: Job, s: State, r: nat, a: ReadAct)
    requires Usable(job.cfg) && |s.loc| == |job.blocks| && !s.cancelled && ReadEnabled(job, s, r, a)
    requires Waits(job, s.readers[r]) && s.taken >= Limit(job)
    requires s.readers[r].Busy? ==> s.readers[r].id !in s.res.hasWin
    ensures var t := ReadApply(job, s, r, a);
            !R.MoveOf(a).Leaving? && r < |t.readers| && Waits(job, t.readers[r]) && t.senders == s.senders
  {
  }

  lemma ParkedAfterMove(job: Job, s: State, t: State, r: nat, m: R.Move)
    requires Parked(job, s) && R.Moves(s, t, r, m) && !m.Leaving? && t.senders == s.senders
    requires r < |t.readers| && Waits(job, t.readers[r])
    ensures Parked(job, t)
  {
  }

  lemma ReaderStaysParked(job: Job, s: State, r: nat, a: ReadAct)
    requires Inv(job, s) && !s.cancelled && Parked(job, s) && ReadEnabled(job, s, r, a)
    ensures Parked(job, ReadApply(job, s, r, a))
  {
    assert Waits(job, s.readers[r]);
    BaseIsHeld(job, s);
    if s.readers[r].Busy? {
      WindowOf(job, s, s.readers[r].id);
    }
    R.ReadMoves(job, s, r, a);
    WaiterGoesOnWaiting(job, s, r, a);
    ParkedAfterMove(job, s, ReadApply(job, s, r, a), r, R.MoveOf(a));
  }

  lemma SenderStaysParked(job: Job, s: State, n: nat, a: SendAct)
    requires Inv(job, s) && !s.cancelled && Parked(job, s) && SendEnabled(job, s, n, a) && !a.SendErr? && !a.OpenErr?
    ensures Parked(job, SendApply(job, s, n, a))
  {
    UncancelledIsSound(job, s);
    assert !BadSender(s.senders[n]);
    assert PhaseOk(s.loc, s.senders[n], n);
    InputStaysOpen(job, s, n);
    S.SendOthers(job, s, n, a);
    var t := SendApply(job, s, n, a);
    forall id | 0 <= id < |s.loc| && (id == 0 || id >= Limit(job)) ensures t.loc[id] == s.loc[id] {
      S.SendLocs(job, s, n, a, id);
    }
  }

  lemma StreamStaysParked(job: Job, s: State, n: nat, a: WireAct)
    requires Inv(job, s) && !s.cancelled && Parked(job, s) && WireEnabled(job, s, n, a)
    ensures Parked(job, WireApply(job, s, n, a))
  {
    T.WireLocs(job, s, n, a);
  }

  lemma StaysParked(job: Job, s: State, step: Step)
    requires Inv(job, s) && !s.cancelled && Parked(job, s) && Progress(step) && Enabled(job, s, step)
    ensures Parked(job, Apply(job, s, step))
  {
    match step
    case Feeds(_) =>
    case Read(r, a) => ReaderStaysParked(job, s, r, a);
    case Send(n, a) => SenderStaysParked(job, s, n, a);
    case Stream(n, a) => StreamStaysParked(job, s, n, a);
    case _ =>
  }

  lemma {:induction false} ParkedComesToRest(job: Job, steps: seq<Step>) returns (more: seq<Step>)
    requires Live(job, steps) && Parked(job, After(job, steps))
    ensures Live(job, more) && Parked(job, After(job, more)) && AtRest(job, more)
    decreases Left(job, steps)
  {
    more := steps;
    if !AtRest(job, steps) {
      var step := NextParked(job, steps);
      more := ParkedComesToRest(job, steps + [step]);
    }
  }

  lemma NextParked(job: Job, steps: seq<Step>) returns (step: Step)
    requires Live(job, steps) && Parked(job, After(job, steps)) && !AtRest(job, steps)
    ensures Live(job, steps + [step]) && Left(job, steps + [step]) < Left(job, steps)
    ensures Parked(job, After(job, steps + [step]))
  {
    var s := After(job, steps);
    Runs.RunKeepsInv(job, steps);
    step :| Progress(step) && Enabled(job, s, step);
    GoOn(job, steps, step);
    StaysParked(job, s, step);
  }

  // ---- the result

  /** A run that comes to rest before all its blocks are acknowledged. */
  ghost predicate Stalls(job: Job, steps: seq<Step>)
    requires Usable(job.cfg)
  {
    Valid(job, steps) && Stuck(job, After(job, steps)) && After(job, steps).res.win.ring.base < |job.blocks|
  }

  /** Every job whose blocks outnumber the window has a run that stalls. */
  lemma StallIsReachable(job: Job) returns (steps: seq<Step>)
    requires Usable(job.cfg) && MemoryIsPlentiful(job.cfg) && FullReads(job) && |job.blocks| > 2 * job.cfg.maxWindow
    ensures Stalls(job, steps)
  {
    steps := KeepBack(job);
    steps := Exhaust(job, steps);
    Runs.RunKeepsInv(job, steps);
    ExhaustedIsThrough(job, After(job, steps));
    steps := FirstIsPut(job, steps);
    steps := FlushOut(job, steps);
    Runs.RunKeepsInv(job, steps);
    FlushedIsParked(job, After(job, steps));
    steps := ParkedComesToRest(job, steps);
    Runs.RunKeepsInv(job, steps);
    BaseIsHeld(job, After(job, steps));
  }

  /** Freedom from deadlock, for each job with plentiful memory and no read cut short: it is
      given exactly when the blocks do not outnumber the window. */
  lemma JobStallsIff(job: Job)
    requires Usable(job.cfg) && MemoryIsPlentiful(job.cfg) && FullReads(job)
    ensures (exists steps :: Stalls(job, steps)) <==> |job.blocks| > 2 * job.cfg.maxWindow
  {
    if |job.blocks| > 2 * job.cfg.maxWindow {
      var steps := StallIsReachable(job);
      assert Stalls(job, steps);
    } else {
      forall steps ensures !Stalls(job, steps) {
        if Stalls(job, steps) {
          NoStallWithinTheWindow(job, steps);
        }
      }
    }
  }

  /** With this configuration no run of any job of `n` blocks stalls, as long as no read is
      cut short. */
  ghost predicate NeverStalls(c: Config, n: nat)
    requires Usable(c)
  {
    forall job: Job, steps: seq<Step> | job.cfg == c && |job.blocks| == n && FullReads(job) :: !Stalls(job, steps)
  }

  /** So for each configuration and each number of blocks: either no job stalls, or every
      job can. */
  lemma StallFreeIff(c: Config, n: nat)
    requires Usable(c) && MemoryIsPlentiful(c)
    ensures NeverStalls(c, n) <==> n <= 2 * c.maxWindow
    ensures forall job: Job | job.cfg == c && |job.blocks| == n && FullReads(job) ::
              (exists steps :: Stalls(job, steps)) <==> n > 2 * c.maxWindow
  {
    forall job: Job | job.cfg == c && |job.blocks| == n && FullReads(job)
      ensures (exists steps :: Stalls(job, steps)) <==> n > 2 * c.maxWindow
    {
      JobStallsIff(job);
    }
    if n > 2 * c.maxWindow {
      var job := TheJob(c, n);
      assert FullReads(job);
      var steps :| Stalls(job, steps);
    }
  }

  /** In particular for the two configurations that are shipped: the bounds are 2048 and
      512 blocks. */
  lemma ShippedConfigsStallIff(n: nat)
    ensures Usable(CEPHFS_CONFIG) && (NeverStalls(CEPHFS_CONFIG, n) <==> n <= 2048)
    ensures Usable(RBD_CONFIG) && (NeverStalls(RBD_CONFIG, n) <==> n <= 512)
  {
    ShippedConfigsAreSound(CEPHFS_CONFIG);
    ShippedConfigsAreSound(RBD_CONFIG);
    StallFreeIff(CEPHFS_CONFIG, n);
    StallFreeIff(RBD_CONFIG, n);
  }
}
