/** A way through for jobs of any size: only the first reader and the first sender take
    chunks, so the chunks keep their order, and the batch in which the base waits grows
    until it is sent. */
module InOrder {
  import opened Wrappers
  import opened Contents
  import opened Configuration
  import opened Resources
  import opened Protocol
  import opened Invariant
  import opened Stall
  import opened Termination
  import Runs
  import R = ReaderSteps
  import S = SenderSteps
  import T = StreamSteps
  import W = Window
  import StallWitness

  /** A batch is sent before it fills the window, whatever the chunks are. */
  predicate BatchFitsWindow(c: Config) {
    c.dataBatchMaxCount < 2 * c.maxWindow || c.dataBatchMaxBytes <= 0
  }

  // ---- the order

  /** How far a chunk is from the wire. */
  ghost function Rank(l: Loc): nat {
    match l
    case Queued => 5
    case AtReader(_) => 4
    case InReadCh => 3
    case Incoming(_) => 2
    case InBatch(_) => 1
    case _ => 0
  }

  ghost predicate Ascend(loc: seq<Loc>) {
    forall i, j :: 0 <= i < j < |loc| ==> Rank(loc[i]) <= Rank(loc[j])
  }

  ghost predicate Rising(q: seq<nat>) {
    forall i, j :: 0 <= i < j < |q| ==> q[i] < q[j]
  }

  ghost predicate AtFirst(l: Loc) {
    l.Incoming? || l.InBatch? || l.OnWire? || l.Written? ==> l.s == 0
  }

  ghost predicate AllAtFirst(loc: seq<Loc>) {
    forall id :: 0 <= id < |loc| ==> AtFirst(loc[id])
  }

  /** Only the first reader and the first sender have chunks. */
  ghost predicate Alone(s: State) {
    && s.senders != [] && AllAtFirst(s.loc)
    && (forall r :: 1 <= r < |s.readers| ==> !s.readers[r].Busy?)
    && (forall n :: 1 <= n < |s.senders| ==> s.senders[n].phase == Select || s.senders[n].phase == Ended(true))
  }

  ghost predicate InLine(job: Job, s: State) {
    && Alone(s) && Ascend(s.loc) && Rising(s.readQ)
    && (job.cfg.dataBatchMaxBytes <= 0 ==> s.senders[0].count <= 1)
  }

  /** All progress but that another reader or sender takes a chunk. */
  ghost predicate Allowed(step: Step) {
    && Progress(step)
    && !(step.Read? && step.r != 0 && step.ra.Take?) && !(step.Send? && step.n != 0 && step.sa.TakeChunk?)
  }

  lemma MovesDown(loc: seq<Loc>, id: nat, l: Loc)
    requires Ascend(loc) && id < |loc| && Rank(l) <= Rank(loc[id])
    requires forall i :: 0 <= i < id ==> Rank(loc[i]) <= Rank(l)
    ensures Ascend(loc[id := l])
  {
  }

  lemma LowerComesFirst(loc: seq<Loc>, i: nat, j: nat)
    requires Ascend(loc) && i < |loc| && j < |loc| && Rank(loc[i]) < Rank(loc[j])
    ensures i < j
  {
  }

  lemma HeadIsLeast(q: seq<nat>)
    requires Rising(q) && q != []
    ensures forall x :: x in q ==> q[0] <= x
  {
  }

  // ---- readers

  /** A reader of the line takes, goes on, puts or ends. */
  ghost predicate Orderly(r: nat, m: R.Move) {
    match m
    case Taking => r == 0
    case Staying => true
    case Leaving(l, next) => l == InReadCh && next == Idle
    case Ending(_) => true
  }

  lemma TakingKeepsOrder(s: State, t: State)
    requires ReadersPlaced(s) && Ascend(s.loc) && R.Moves(s, t, 0, R.Taking)
    ensures Ascend(t.loc)
  {
    MovesDown(s.loc, s.taken, AtReader(0));
  }

  lemma PuttingKeepsOrder(s: State, t: State, r: nat)
    requires ReadersPlaced(s) && Ascend(s.loc) && R.Moves(s, t, r, R.Leaving(InReadCh, Idle))
    requires forall k :: 1 <= k < |s.readers| ==> !s.readers[k].Busy?
    ensures Ascend(t.loc)
  {
    var id := s.readers[r].id;
    forall i | 0 <= i < id ensures Rank(s.loc[i]) <= 3 {
      assert Rank(s.loc[i]) <= Rank(s.loc[id]);
    }
    MovesDown(s.loc, id, InReadCh);
  }

  /** What is in the channel came before what is still at a reader. */
  lemma PuttingKeepsQueue(s: State, id: nat)
    requires QueuePlaced(s) && Ascend(s.loc) && Rising(s.readQ) && id < |s.loc| && s.loc[id].AtReader?
    ensures Rising(s.readQ + [id])
  {
    forall i | 0 <= i < |s.readQ| ensures s.readQ[i] < id {
      assert s.loc[s.readQ[i]] == InReadCh;
      LowerComesFirst(s.loc, s.readQ[i], id);
    }
  }

  lemma LineAfterMove(job: Job, s: State, t: State, r: nat, m: R.Move)
    requires ReadersPlaced(s) && QueuePlaced(s) && InLine(job, s) && R.Moves(s, t, r, m) && Orderly(r, m)
    requires t.senders == s.senders
    ensures InLine(job, t)
  {
    match m
    case Taking => TakingKeepsOrder(s, t);
    case Staying =>
    case Leaving(_, _) =>
      PuttingKeepsOrder(s, t, r);
      PuttingKeepsQueue(s, s.readers[r].id);
    case Ending(_) =>
  }

  lemma ReadIsOrderly(job: Job, s: State, r: nat, a: ReadAct)
    requires Inv(job, s) && !s.cancelled && ReadEnabled(job, s, r, a) && (a.Take? ==> r == 0)
    ensures Orderly(r, R.MoveOf(a))
  {
    UncancelledIsSound(job, s);
    assert !BadReader(s.readers[r]);
  }

  lemma ReadKeepsLine(job: Job, s: State, r: nat, a: ReadAct)
    requires Inv(job, s) && !s.cancelled && InLine(job, s) && ReadEnabled(job, s, r, a) && (a.Take? ==> r == 0)
    ensures InLine(job, ReadApply(job, s, r, a))
  {
    R.ReadMoves(job, s, r, a);
    ReadIsOrderly(job, s, r, a);
    LineAfterMove(job, s, ReadApply(job, s, r, a), r, R.MoveOf(a));
  }

  // ---- the first sender

  /** The chunk at the head of the channel is the next in line. */
  lemma HeadIsNext(job: Job, s: State, i: nat)
    requires Inv(job, s) && InLine(job, s) && s.readQ != [] && s.senders[0].phase == Select && i < s.readQ[0]
    ensures i < |s.loc| && Rank(s.loc[i]) <= 1
  {
    var id := s.readQ[0];
    assert s.loc[id] == InReadCh && Rank(s.loc[i]) <= Rank(s.loc[id]);
    assert PhaseOk(s.loc, s.senders[0], 0);
    assert LocAtSender(s.senders, i, s.loc[i]);
    HeadIsLeast(s.readQ);
  }

  lemma TakeMoves(job: Job, s: State)
    requires Usable(job.cfg) && |s.loc| == |job.blocks| && SendEnabled(job, s, 0, TakeChunk)
    ensures var t, id := SendApply(job, s, 0, TakeChunk), s.readQ[0];
            && t.readQ == s.readQ[1..] && |t.loc| == |s.loc| && t.loc == s.loc[id := t.loc[id]]
            && (t.loc[id] == InBatch(0) || t.loc[id] == Incoming(0)) && t.senders != []
            && (job.cfg.dataBatchMaxBytes <= 0 && s.senders[0].count <= 1 ==> t.senders[0].count <= 1)
  {
  }

  lemma TakeKeepsLocs(job: Job, s: State)
    requires Inv(job, s) && InLine(job, s) && SendEnabled(job, s, 0, TakeChunk)
    ensures var t := SendApply(job, s, 0, TakeChunk); Ascend(t.loc) && AllAtFirst(t.loc) && Rising(t.readQ)
  {
    var t, id := SendApply(job, s, 0, TakeChunk), s.readQ[0];
    TakeMoves(job, s);
    forall i | 0 <= i < id ensures Rank(s.loc[i]) <= 1 {
      HeadIsNext(job, s, i);
    }
    assert s.loc[id] == InReadCh;
    MovesDown(s.loc, id, t.loc[id]);
  }

  lemma SentKeepsOrder(loc: seq<Loc>, k: nat)
    requires Ascend(loc) && AllAtFirst(loc)
    ensures Ascend(SentLocs(loc, 0, k)) && AllAtFirst(SentLocs(loc, 0, k))
  {
    var t := SentLocs(loc, 0, k);
    forall i, j | 0 <= i < j < |loc| ensures Rank(t[i]) <= Rank(t[j]) {
      assert Rank(loc[i]) <= Rank(loc[j]);
      assert AtFirst(loc[i]) && AtFirst(loc[j]);
    }
  }

  /** The incoming chunk is the only one. */
  lemma IncomingIsNext(job: Job, s: State, id: nat)
    requires Inv(job, s) && InLine(job, s) && s.senders[0].incoming == Some(id) && id < |s.loc|
    ensures s.loc[id] == Incoming(0) && forall i :: 0 <= i < id ==> Rank(s.loc[i]) <= 1
  {
    assert PhaseOk(s.loc, s.senders[0], 0);
    forall i | 0 <= i < id ensures Rank(s.loc[i]) <= 1 {
      assert Rank(s.loc[i]) <= Rank(s.loc[id]) && AtFirst(s.loc[i]);
      assert LocAtSender(s.senders, i, s.loc[i]);
    }
  }

  lemma FlushEndKeepsLocs(job: Job, s: State)
    requires Inv(job, s) && InLine(job, s) && SendEnabled(job, s, 0, FlushEnd)
    ensures var t := SendApply(job, s, 0, FlushEnd); Ascend(t.loc) && AllAtFirst(t.loc)
  {
    if !s.senders[0].phase.last {
      var id := s.senders[0].incoming.value;
      IncomingIsNext(job, s, id);
      MovesDown(s.loc, id, InBatch(0));
    }
  }

  lemma SendKeepsLineLocs(job: Job, s: State, n: nat, a: SendAct)
    requires Inv(job, s) && !s.cancelled && InLine(job, s) && SendEnabled(job, s, n, a) && Allowed(Send(n, a))
    ensures var t := SendApply(job, s, n, a); Ascend(t.loc) && AllAtFirst(t.loc) && Rising(t.readQ)
  {
    UncancelledIsSound(job, s);
    assert !BadSender(s.senders[n]);
    match a
    case TakeChunk => TakeKeepsLocs(job, s);
    case SendOk => SentKeepsOrder(s.loc, s.senders[0].sent);
    case FlushEnd => FlushEndKeepsLocs(job, s);
    case _ =>
  }

  /** A sender that has never taken a chunk has nothing to send. */
  lemma NothingElsewhere(job: Job, s: State, n: nat)
    requires Inv(job, s) && Alone(s) && 1 <= n < |s.senders| && s.senders[n].phase == Select
    ensures s.senders[n].count == 0
  {
    assert BatchOk(job, s.loc, s.senders[n], n);
    forall id | 0 <= id < |s.loc| ensures s.loc[id] != InBatch(n) {
      assert AtFirst(s.loc[id]);
    }
    assert Batch(s.loc, n) == {};
  }

  lemma OtherSendersStay(job: Job, s: State, n: nat, a: SendAct)
    requires Inv(job, s) && !s.cancelled && Alone(s) && SendEnabled(job, s, n, a) && Allowed(Send(n, a))
    ensures var t := SendApply(job, s, n, a);
            forall k :: 1 <= k < |t.senders| ==> t.senders[k].phase == Select || t.senders[k].phase == Ended(true)
  {
    UncancelledIsSound(job, s);
    assert !BadSender(s.senders[n]);
    S.SendOthers(job, s, n, a);
    if n >= 1 && s.senders[n].phase == Select {
      NothingElsewhere(job, s, n);
    }
  }

  lemma FirstCountStays(job: Job, s: State, n: nat, a: SendAct)
    requires Inv(job, s) && InLine(job, s) && SendEnabled(job, s, n, a) && job.cfg.dataBatchMaxBytes <= 0
    ensures SendApply(job, s, n, a).senders != [] && SendApply(job, s, n, a).senders[0].count <= 1
  {
    S.SendOthers(job, s, n, a);
    assert BatchOk(job, s.loc, s.senders[n], n);
  }

  lemma SendKeepsLine(job: Job, s: State, n: nat, a: SendAct)
    requires Inv(job, s) && !s.cancelled && InLine(job, s) && SendEnabled(job, s, n, a) && Allowed(Send(n, a))
    ensures InLine(job, SendApply(job, s, n, a))
  {
    SendKeepsLineLocs(job, s, n, a);
    OtherSendersStay(job, s, n, a);
    S.SendOthers(job, s, n, a);
    if job.cfg.dataBatchMaxBytes <= 0 {
      FirstCountStays(job, s, n, a);
    }
  }

  lemma WrittenInLine(loc: seq<Loc>, id: nat, l: Loc)
    requires Ascend(loc) && AllAtFirst(loc) && id < |loc|
    requires (loc[id].OnWire? && l.Written? && l.s == loc[id].s) || (loc[id].Written? && l.Acked?)
    ensures Ascend(loc[id := l]) && AllAtFirst(loc[id := l])
  {
    assert AtFirst(loc[id]);
    MovesDown(loc, id, l);
  }

  lemma WireKeepsLocs(job: Job, s: State, n: nat, a: WireAct)
    requires Usable(job.cfg) && |s.loc| == |job.blocks| && WireEnabled(job, s, n, a)
    requires Ascend(s.loc) && AllAtFirst(s.loc)
    ensures var t := WireApply(job, s, n, a); Ascend(t.loc) && AllAtFirst(t.loc)
  {
    T.WireLocs(job, s, n, a);
    match a
    case Write(id) => WrittenInLine(s.loc, id, Written(n, s.senders[n].recv));
    case Release(id) => WrittenInLine(s.loc, id, Acked(n));
    case _ =>
  }

  /** A stream changes nothing that the senders go by. */
  lemma WireKeepsAlone(s: State, t: State, n: nat)
    requires Alone(s) && AllAtFirst(t.loc) && t.readers == s.readers && n < |s.senders| == |t.senders|
    requires t.senders == s.senders[n := t.senders[n]] && t.senders[n].phase == s.senders[n].phase
    ensures Alone(t)
  {
  }

  lemma WireKeepsLine(job: Job, s: State, n: nat, a: WireAct)
    requires Inv(job, s) && InLine(job, s) && WireEnabled(job, s, n, a)
    ensures InLine(job, WireApply(job, s, n, a))
  {
    T.WireLocs(job, s, n, a);
    WireKeepsLocs(job, s, n, a);
    WireKeepsAlone(s, WireApply(job, s, n, a), n);
  }

  lemma StaysInLine(job: Job, s: State, step: Step)
    requires Inv(job, s) && !s.cancelled && InLine(job, s) && Allowed(step) && Enabled(job, s, step)
    ensures InLine(job, Apply(job, s, step))
  {
    match step
    case Feeds(_) =>
    case Read(r, a) => ReadKeepsLine(job, s, r, a);
    case Send(n, a) => SendKeepsLine(job, s, n, a);
    case Stream(n, a) => WireKeepsLine(job, s, n, a);
    case _ =>
  }

  // ---- where it comes to rest

  /** Nothing that is allowed can happen any more. */
  ghost predicate Spent(job: Job, s: State)
    requires Usable(job.cfg) && |s.loc| == |job.blocks|
  {
    forall step :: Allowed(step) ==> !Enabled(job, s, step)
  }

  lemma NotAllowed(job: Job, s: State, step: Step)
    requires Usable(job.cfg) && |s.loc| == |job.blocks| && Spent(job, s) && Allowed(step)
    ensures !Enabled(job, s, step)
  {
  }

  lemma FirstStreamRests(job: Job, s: State)
    requires Inv(job, s) && !s.cancelled && InLine(job, s) && Spent(job, s)
    ensures s.senders[0].acked == s.senders[0].recv == s.senders[0].sent
  {
    NotAllowed(job, s, Stream(0, Answer));
    NotAllowed(job, s, Stream(0, AnswerDone));
    forall id ensures !WireEnabled(job, s, 0, Write(id)) && !WireEnabled(job, s, 0, Release(id)) {
      NotAllowed(job, s, Stream(0, Write(id)));
      NotAllowed(job, s, Stream(0, Release(id)));
    }
    StreamRests(job, s, 0);
  }

  lemma FirstSenderWaits(job: Job, s: State)
    requires Inv(job, s) && !s.cancelled && InLine(job, s) && Spent(job, s) && !s.readers[0].Exited?
    ensures s.senders[0].phase == Select && s.readQ == []
  {
    NotAllowed(job, s, Send(0, SendOk));
    NotAllowed(job, s, Send(0, FlushEnd));
    forall id ensures !SendEnabled(job, s, 0, FreeOne(id)) {
      NotAllowed(job, s, Send(0, FreeOne(id)));
    }
    StallWitness.SenderWaits(job, s);
    NotAllowed(job, s, Send(0, TakeChunk));
  }

  /** A busy first reader is held up by the window. */
  lemma FirstReaderWaits(job: Job, s: State)
    requires Inv(job, s) && !s.cancelled && InLine(job, s) && Spent(job, s) && s.readers[0].Busy?
    requires FullReads(job) && MemoryIsPlentiful(job.cfg)
    ensures s.readers[0].id in WinWait(s.res)
  {
    FirstSenderWaits(job, s);
    if s.readers[0].id !in WinWait(s.res) {
      var a := OnlyTheWindowHolds(job, s, 0);
      NotAllowed(job, s, Read(0, a));
    }
  }

  lemma WaitsBeyondWindow(job: Job, s: State, id: nat)
    requires Inv(job, s) && id in WinWait(s.res)
    ensures id >= s.res.win.ring.base + 2 * job.cfg.maxWindow
  {
    var x := W.IdsWitness(s.res.win.waiters, id);
  }

  /** No chunk before the reader's is on its way. */
  lemma NothingBetween(job: Job, s: State, j: nat)
    requires Inv(job, s) && InLine(job, s) && s.senders[0].phase == Select && s.readQ == []
    requires s.senders[0].acked == s.senders[0].recv == s.senders[0].sent
    requires s.readers[0].Busy? && j < s.readers[0].id
    ensures j < |s.loc| && (s.loc[j] == InBatch(0) || s.loc[j].Acked? || s.loc[j].Dropped? || s.loc[j].Lost?)
  {
    var id := s.readers[0].id;
    assert s.loc[id] == AtReader(0) && Rank(s.loc[j]) <= Rank(s.loc[id]) && AtFirst(s.loc[j]);
    assert PhaseOk(s.loc, s.senders[0], 0);
    assert LocAtSender(s.senders, j, s.loc[j]);
  }

  lemma BaseIsInBatch(job: Job, s: State)
    requires Inv(job, s) && !s.cancelled && InLine(job, s) && s.senders[0].phase == Select && s.readQ == []
    requires s.senders[0].acked == s.senders[0].recv == s.senders[0].sent
    requires s.readers[0].Busy? && s.res.win.ring.base < s.readers[0].id
    ensures s.loc[s.res.win.ring.base] == InBatch(0)
  {
    var b := s.res.win.ring.base;
    NothingBetween(job, s, b);
    UncancelledIsSound(job, s);
    W.BaseIsLeastUnreleased(s.res.win.ring, b);
    assert b !in s.res.rel;
    assert Linked(job, s, b, ClaimOf(s.res, b));
  }

  /** The batch holds every chunk from the base to the reader's. */
  lemma BatchHoldsTheWindow(job: Job, s: State)
    requires Inv(job, s) && !s.cancelled && InLine(job, s) && s.senders[0].phase == Select && s.readQ == []
    requires s.senders[0].acked == s.senders[0].recv == s.senders[0].sent
    requires s.readers[0].Busy? && s.readers[0].id in WinWait(s.res)
    ensures |Batch(s.loc, 0)| >= 2 * job.cfg.maxWindow
  {
    var b, w := s.res.win.ring.base, 2 * job.cfg.maxWindow;
    WaitsBeyondWindow(job, s, s.readers[0].id);
    BaseIsInBatch(job, s);
    forall j | b <= j < b + w ensures j in Batch(s.loc, 0) {
      NothingBetween(job, s, j);
      assert Rank(s.loc[b]) <= Rank(s.loc[j]);
    }
    W.SubsetSize(W.Range(b, w), Batch(s.loc, 0));
  }

  lemma FirstReaderIsNotBusy(job: Job, s: State)
    requires Inv(job, s) && !s.cancelled && InLine(job, s) && Spent(job, s)
    requires FullReads(job) && MemoryIsPlentiful(job.cfg) && BatchFitsWindow(job.cfg)
    ensures !s.readers[0].Busy?
  {
    assert BatchOk(job, s.loc, s.senders[0], 0);
    if s.readers[0].Busy? {
      FirstReaderWaits(job, s);
      FirstSenderWaits(job, s);
      FirstStreamRests(job, s);
      BatchHoldsTheWindow(job, s);
    }
  }

  lemma AllReadersExit(job: Job, s: State, r: nat)
    requires Inv(job, s) && !s.cancelled && InLine(job, s) && Spent(job, s) && !s.readers[0].Busy? && r < |s.readers|
    ensures s.readers[r].Exited?
  {
    NotAllowed(job, s, Read(0, Take));
    NotAllowed(job, s, Read(0, ReadEnd));
    NotAllowed(job, s, Feeds(Feed));
    NotAllowed(job, s, Feeds(FeedDone));
    NotAllowed(job, s, Read(r, ReadEnd));
    UncancelledIsSound(job, s);
    assert !BadReader(s.readers[0]);
  }

  lemma ReadersGoneIsStuck(job: Job, s: State)
    requires Inv(job, s) && !s.cancelled && InLine(job, s) && Spent(job, s)
    requires forall r :: 0 <= r < |s.readers| ==> s.readers[r].Exited?
    ensures Stuck(job, s)
  {
    ChannelIsEmpty(job, s);
    forall step | Progress(step) ensures !Enabled(job, s, step) {
      if Allowed(step) {
        NotAllowed(job, s, step);
      }
    }
  }

  lemma ChannelIsEmpty(job: Job, s: State)
    requires Inv(job, s) && !s.cancelled && InLine(job, s) && Spent(job, s)
    ensures s.readQ == []
  {
    UncancelledIsSound(job, s);
    var v := s.senders[0];
    assert !BadSender(v);
    assert PhaseOk(s.loc, v, 0);
    NotAllowed(job, s, Send(0, TakeChunk));
    NotAllowed(job, s, Send(0, SendOk));
    NotAllowed(job, s, Send(0, FlushEnd));
    if v.phase.Free? && v.phase.rest != {} {
      var id :| id in v.phase.rest;
      NotAllowed(job, s, Send(0, FreeOne(id)));
    }
  }

  lemma SpentIsSuccess(job: Job, s: State)
    requires Inv(job, s) && !s.cancelled && InLine(job, s) && Spent(job, s)
    requires FullReads(job) && MemoryIsPlentiful(job.cfg) && BatchFitsWindow(job.cfg)
    ensures Succeeded(s)
  {
    FirstReaderIsNotBusy(job, s);
    forall r | 0 <= r < |s.readers| ensures s.readers[r].Exited? {
      AllReadersExit(job, s, r);
    }
    ReadersGoneIsStuck(job, s);
    ExitedIsSuccess(job, s);
  }

  // ---- the run

  lemma StartsInLine(job: Job)
    requires Usable(job.cfg)
    ensures InLine(job, Init(job))
  {
  }

  lemma NextInLine(job: Job, steps: seq<Step>) returns (step: Step)
    requires Live(job, steps) && InLine(job, After(job, steps)) && !Spent(job, After(job, steps))
    ensures Live(job, steps + [step]) && Left(job, steps + [step]) < Left(job, steps)
    ensures InLine(job, After(job, steps + [step]))
  {
    var s := After(job, steps);
    Runs.RunKeepsInv(job, steps);
    step :| Allowed(step) && Enabled(job, s, step);
    GoOn(job, steps, step);
    StaysInLine(job, s, step);
  }

  lemma {:induction false} ComesThrough(job: Job, steps: seq<Step>) returns (all: seq<Step>)
    requires Live(job, steps) && InLine(job, After(job, steps))
    ensures Live(job, all) && InLine(job, After(job, all)) && Spent(job, After(job, all))
    decreases Left(job, steps)
  {
    all := steps;
    if !Spent(job, After(job, steps)) {
      var step := NextInLine(job, steps);
      all := ComesThrough(job, steps + [step]);
    }
  }

  /** With batches that fit the window, a job of any size has a run without an error. */
  lemma AnySizeSucceeds(job: Job) returns (steps: seq<Step>)
    requires Usable(job.cfg) && MemoryIsPlentiful(job.cfg) && FullReads(job) && BatchFitsWindow(job.cfg)
    ensures Valid(job, steps) && Succeeded(After(job, steps))
  {
    assert Valid(job, []) && After(job, []) == Init(job);
    StartsInLine(job);
    steps := ComesThrough(job, []);
    Runs.RunKeepsInv(job, steps);
    SpentIsSuccess(job, After(job, steps));
  }
}
