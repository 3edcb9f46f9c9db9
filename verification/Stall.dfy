/** When nothing can move. A send worker sends its batch only when another chunk
    arrives or its input is closed, so the pipeline can come to rest with work left:
    this is the exact shape of such a state. */
module Stall {
  import opened Contents
  import opened Configuration
  import opened Resources
  import opened Sums
  import opened Protocol
  import opened Invariant
  import Runs
  import M = Memory
  import W = Window

  /** Steps that need no failure and no outside event. */
  ghost predicate Progress(step: Step) {
    match step
    case Feeds(_) => true
    case Read(_, a) => !a.ReadErr?
    case Send(_, a) => !a.SendErr? && !a.OpenErr?
    case Stream(_, a) => !a.RecvErr?
    case Cancel => false
    case Commit(_) => false
  }

  ghost predicate Stuck(job: Job, s: State)
    requires Usable(job.cfg) && |s.loc| == |job.blocks|
  {
    !s.cancelled && forall step :: Progress(step) ==> !Enabled(job, s, step)
  }

  lemma Blocked(job: Job, s: State, step: Step)
    requires Usable(job.cfg) && |s.loc| == |job.blocks| && Stuck(job, s) && Progress(step)
    ensures !Enabled(job, s, step)
  {
  }

  /** Nothing goes wrong in an uncancelled state. */
  lemma UncancelledIsSound(job: Job, s: State)
    requires Inv(job, s) && !s.cancelled
    ensures !s.failed && s.feeder != FeedEnded(false)
    ensures forall r :: 0 <= r < |s.readers| ==> !BadReader(s.readers[r])
    ensures forall n :: 0 <= n < |s.senders| ==> !BadSender(s.senders[n])
  {
  }

  lemma SendersAtRest(job: Job, s: State, n: nat)
    requires Inv(job, s) && Stuck(job, s) && n < |s.senders|
    ensures s.senders[n].phase == Select || s.senders[n].phase == Ended(true)
    ensures s.readQ == []
    ensures s.senders[n].acked == s.senders[n].recv == s.senders[n].sent
  {
    UncancelledIsSound(job, s);
    var w := s.senders[n];
    assert !BadSender(w);
    assert PhaseOk(s.loc, w, n);
    Blocked(job, s, Send(n, SendOk));
    Blocked(job, s, Send(n, FlushEnd));
    Blocked(job, s, Send(n, TakeChunk));
    if w.phase.Free? && w.phase.rest != {} {
      var id :| id in w.phase.rest;
      Blocked(job, s, Send(n, FreeOne(id)));
    }
    StreamAtRest(job, s, n);
  }

  lemma StreamAtRest(job: Job, s: State, n: nat)
    requires Inv(job, s) && Stuck(job, s) && n < |s.senders|
    ensures s.senders[n].acked == s.senders[n].recv == s.senders[n].sent
  {
    Blocked(job, s, Stream(n, Answer));
    Blocked(job, s, Stream(n, AnswerDone));
    forall id ensures !WireEnabled(job, s, n, Write(id)) && !WireEnabled(job, s, n, Release(id)) {
      Blocked(job, s, Stream(n, Write(id)));
      Blocked(job, s, Stream(n, Release(id)));
    }
    StreamRests(job, s, n);
  }

  lemma CanBeWritten(job: Job, s: State, n: nat, id: nat)
    requires n < |s.senders| && id < |s.loc| && s.loc[id] == OnWire(n, s.senders[n].recv)
    ensures WireEnabled(job, s, n, Write(id))
  {
  }

  lemma CanBeReleased(job: Job, s: State, n: nat, id: nat)
    requires n < |s.senders| && id < |s.loc| && s.loc[id] == Written(n, s.senders[n].acked)
    requires s.senders[n].ack.Receiving? && s.senders[n].acked < s.senders[n].recv && W.Settled(s.res.win.ring)
    ensures WireEnabled(job, s, n, Release(id))
  {
  }

  /** A stream on which nothing can happen has answered and taken in all its requests. */
  lemma StreamRests(job: Job, s: State, n: nat)
    requires Inv(job, s) && !s.cancelled && n < |s.senders|
    requires !WireEnabled(job, s, n, Answer) && !WireEnabled(job, s, n, AnswerDone)
    requires forall id :: !WireEnabled(job, s, n, Write(id)) && !WireEnabled(job, s, n, Release(id))
    ensures s.senders[n].acked == s.senders[n].recv == s.senders[n].sent
  {
    UncancelledIsSound(job, s);
    var w := s.senders[n];
    assert !BadSender(w);
    assert PhaseOk(s.loc, w, n);
    if w.recv < w.sent {
      var id :| 0 <= id < |s.loc| && s.loc[id] == OnWire(n, w.recv);
      CanBeWritten(job, s, n, id);
    }
    if w.acked < w.recv {
      var id :| 0 <= id < |s.loc| && s.loc[id] == Written(n, w.acked);
      CanBeReleased(job, s, n, id);
    }
  }

  lemma ReadersAtRest(job: Job, s: State, r: nat)
    requires Inv(job, s) && Stuck(job, s) && r < |s.readers| && s.readers[r].Busy?
    ensures var id := s.readers[r].id;
            || (s.readers[r].phase == WaitMem && id in MemWait(s.res))
            || (s.readers[r].phase == WaitWin && id in WinWait(s.res))
  {
    ReaderWaits(job, s, r);
    var id := s.readers[r].id;
    assert Linked(job, s, id, ClaimOf(s.res, id));
    if s.readers[r].phase == WaitMem {
      Blocked(job, s, Read(r, AskWin));
    } else {
      Blocked(job, s, Read(r, Granted));
    }
  }

  lemma ReaderWaits(job: Job, s: State, r: nat)
    requires Inv(job, s) && Stuck(job, s) && r < |s.readers| && s.readers[r].Busy?
    ensures s.readers[r].phase == WaitMem || s.readers[r].phase == WaitWin
  {
    match s.readers[r].phase
    case Start => Blocked(job, s, Read(r, AskMem)); Blocked(job, s, Read(r, AskWin));
    case Reading => Blocked(job, s, Read(r, ReadOk));
    case ZeroFree => Blocked(job, s, Read(r, FreeZero));
    case Emit => SendersAtRest(job, s, 0); Blocked(job, s, Read(r, Put));
    case Abort => UncancelledIsSound(job, s);
    case _ =>
  }

  /** The chunk at the base has left the chunk channel. */
  lemma BaseIsTaken(job: Job, s: State)
    requires Inv(job, s) && Stuck(job, s) && s.res.win.ring.base < |job.blocks|
    ensures s.res.win.ring.base < s.taken
  {
    var b := s.res.win.ring.base;
    if s.taken <= b {
      UncancelledIsSound(job, s);
      ReadersIdleBelow(job, s, 0);
      Blocked(job, s, Read(0, Take));
      Blocked(job, s, Feeds(Feed));
    }
  }

  lemma BusyIsAboveBase(job: Job, s: State, r: nat)
    requires Inv(job, s) && r < |s.readers| && s.readers[r].Busy?
    ensures s.res.win.ring.base <= s.readers[r].id < s.taken
  {
    var id := s.readers[r].id;
    assert Linked(job, s, id, ClaimOf(s.res, id));
    W.BaseIsLeastUnreleased(s.res.win.ring, id);
  }

  lemma ReadersIdleBelow(job: Job, s: State, r: nat)
    requires Inv(job, s) && s.taken <= s.res.win.ring.base < |job.blocks| && r < |s.readers|
    requires !s.failed
    ensures s.readers[r].Idle?
  {
    assert !BadReader(s.readers[r]);
    if s.readers[r].Busy? {
      BusyIsAboveBase(job, s, r);
    }
  }

  /** In every uncancelled reachable state where nothing can move and some block is
      not acknowledged, the chunk whose id is the window base sits in the unsent batch
      of a waiting sender, or its reader is queued for memory. */
  lemma StallShape(job: Job, steps: seq<Step>)
    requires Usable(job.cfg) && Valid(job, steps)
    requires Stuck(job, After(job, steps)) && After(job, steps).res.win.ring.base < |job.blocks|
    ensures var s := After(job, steps);
            var l := s.loc[s.res.win.ring.base];
            || (l.InBatch? && l.s < |s.senders| && s.senders[l.s].phase == Select)
            || s.res.win.ring.base in MemWait(s.res)
  {
    Runs.RunKeepsInv(job, steps);
    StuckShape(job, After(job, steps));
  }

  lemma StuckShape(job: Job, s: State)
    requires Inv(job, s) && Stuck(job, s) && s.res.win.ring.base < |job.blocks|
    ensures var l := s.loc[s.res.win.ring.base];
            || (l.InBatch? && l.s < |s.senders| && s.senders[l.s].phase == Select)
            || s.res.win.ring.base in MemWait(s.res)
  {
    var b := s.res.win.ring.base;
    var l := s.loc[b];
    UncancelledIsSound(job, s);
    BaseIsTaken(job, s);
    W.BaseIsLeastUnreleased(s.res.win.ring, b);
    assert b !in s.res.rel;
    assert Linked(job, s, b, ClaimOf(s.res, b));
    assert LocAtSender(s.senders, b, l);
    SendersAtRest(job, s, 0);
    if l.AtReader? {
      ReadersAtRest(job, s, l.r);
      BaseDoesNotWait(s.res);
    } else if l.Incoming? || l.InBatch? || l.OnWire? || l.Written? {
      SendersAtRest(job, s, l.s);
      assert PhaseOk(s.loc, s.senders[l.s], l.s);
    }
  }

  lemma BaseDoesNotWait(r: Res)
    requires W.Refines(r.win, r.hasWin, r.rel)
    ensures r.win.ring.base !in WinWait(r)
  {
    if r.win.ring.base in WinWait(r) {
      var x := W.IdsWitness(r.win.waiters, r.win.ring.base);
    }
  }

  // ---- memory is never the cause when there is enough of it

  /** No read is cut short, so a batch counts the bytes that it holds. */
  ghost predicate FullReads(job: Job)
    requires Usable(job.cfg)
  {
    forall id :: 0 <= id < |job.blocks| && WireOf(job, id).Data? ==> DataLen(job, id) == AcquireSize(job, id)
  }

  /** The chunks in the batches of the first `k` senders. */
  ghost function InBatches(loc: seq<Loc>, k: nat): (b: set<nat>)
    ensures forall id :: id in b <==> 0 <= id < |loc| && loc[id].InBatch? && loc[id].s < k
  {
    set id | 0 <= id < |loc| && loc[id].InBatch? && loc[id].s < k
  }

  lemma OneMore(k: nat, m: int)
    requires k > 0
    ensures k * m == (k - 1) * m + m
  {
  }

  lemma OneBatchBounded(job: Job, s: State, n: nat)
    requires Usable(job.cfg) && SendersPlaced(s) && Counted(job, s) && n < |s.senders|
    requires s.senders[n].phase == Select || s.senders[n].phase == Ended(true)
    ensures Sum(DataLens(job), Batch(s.loc, n)) <= BatchBytesBound(job.cfg)
  {
    assert BatchOk(job, s.loc, s.senders[n], n) && PhaseOk(s.loc, s.senders[n], n);
    if s.senders[n].phase == Ended(true) {
      SumEmpty(DataLens(job), Batch(s.loc, n));
    }
  }

  lemma {:induction false} BatchesBounded(lens: seq<nat>, loc: seq<Loc>, k: nat, bound: int)
    requires forall n :: 0 <= n < k ==> Sum(lens, Batch(loc, n)) <= bound
    ensures Sum(lens, InBatches(loc, k)) <= k * bound
  {
    if k == 0 {
      SumEmpty(lens, InBatches(loc, 0));
    } else {
      BatchesBounded(lens, loc, k - 1, bound);
      assert InBatches(loc, k) == InBatches(loc, k - 1) + Batch(loc, k - 1);
      SumUnion(lens, InBatches(loc, k - 1), Batch(loc, k - 1));
      OneMore(k, bound);
    }
  }

  /** The chunks with the first `k` readers. */
  ghost function AtReaders(loc: seq<Loc>, k: nat): (b: set<nat>)
    ensures forall id :: id in b <==> 0 <= id < |loc| && loc[id].AtReader? && loc[id].r < k
  {
    set id | 0 <= id < |loc| && loc[id].AtReader? && loc[id].r < k
  }

  lemma OneReaderBounded(job: Job, s: State, r: nat)
    requires Usable(job.cfg) && Shape(job, s) && ReadersPlaced(s) && r < |s.readers|
    ensures Sum(Sizes(job), AtReaders(s.loc, r + 1)) <= Sum(Sizes(job), AtReaders(s.loc, r)) + job.cfg.chunkSize
  {
    if s.readers[r].Busy? {
      var id := s.readers[r].id;
      assert AtReaders(s.loc, r + 1) == AtReaders(s.loc, r) + {id};
      SumAdd(Sizes(job), AtReaders(s.loc, r), id);
    } else {
      assert AtReaders(s.loc, r + 1) == AtReaders(s.loc, r);
    }
  }

  lemma {:induction false} ReadersBounded(job: Job, s: State, k: nat)
    requires Usable(job.cfg) && Shape(job, s) && ReadersPlaced(s) && k <= |s.readers|
    ensures Sum(Sizes(job), AtReaders(s.loc, k)) <= k * job.cfg.chunkSize
  {
    if k == 0 {
      SumEmpty(Sizes(job), AtReaders(s.loc, 0));
    } else {
      ReadersBounded(job, s, k - 1);
      OneReaderBounded(job, s, k - 1);
      OneMore(k, job.cfg.chunkSize);
    }
  }

  /** Over full reads, the sizes of chunks that hold memory in batches are their
      payload lengths. */
  lemma {:induction false} SizesAreLengths(job: Job, b: set<nat>, m: nat)
    requires Usable(job.cfg) && FullReads(job) && m <= |job.blocks|
    requires forall id :: id in b && id < |job.blocks| ==> WireOf(job, id).Data?
    ensures Sum(Sizes(job)[..m], b) == Sum(DataLens(job)[..m], b)
  {
    if m > 0 {
      SizesAreLengths(job, b, m - 1);
      assert Sizes(job)[..m][..m - 1] == Sizes(job)[..m - 1];
      assert DataLens(job)[..m][..m - 1] == DataLens(job)[..m - 1];
    }
  }

  /** Nothing is on its way to the senders, and none of them is sending. */
  ghost predicate Quiet(s: State) {
    && !s.cancelled && s.readQ == []
    && forall n :: 0 <= n < |s.senders| ==> s.senders[n].phase == Select || s.senders[n].phase == Ended(true)
  }

  lemma StuckIsQuiet(job: Job, s: State)
    requires Inv(job, s) && Stuck(job, s)
    ensures Quiet(s)
  {
    SendersAtRest(job, s, 0);
    forall n | 0 <= n < |s.senders| ensures s.senders[n].phase == Select || s.senders[n].phase == Ended(true) {
      SendersAtRest(job, s, n);
    }
  }

  lemma HoldersAtRest(job: Job, s: State, id: nat)
    requires Inv(job, s) && Quiet(s) && id in s.res.hasMem
    ensures (id in AtReaders(s.loc, |s.readers|)) || (id in InBatches(s.loc, |s.senders|) && WireOf(job, id).Data?)
  {
    UncancelledIsSound(job, s);
    assert Linked(job, s, id, ClaimOf(s.res, id));
    assert LocAtSender(s.senders, id, s.loc[id]);
    var l := s.loc[id];
    if l.Incoming? || l.InBatch? || l.OnWire? || l.Written? || l.Acked? {
      assert PhaseOk(s.loc, s.senders[l.s], l.s);
    }
  }

  lemma MemoryAtRest(job: Job, s: State, extra: nat)
    requires Inv(job, s) && Quiet(s) && FullReads(job) && extra < |s.loc|
    requires extra !in s.res.hasMem && extra in AtReaders(s.loc, |s.readers|)
    ensures s.res.mem.cur + Sizes(job)[extra] <=
            job.cfg.dataSendWorkers * BatchBytesBound(job.cfg) + job.cfg.readWorkers * job.cfg.chunkSize
  {
    var held := s.res.hasMem;
    var ra, ba := AtReaders(s.loc, |s.readers|), held * InBatches(s.loc, |s.senders|);
    forall id | id in held ensures id in ra + ba && (id in ba ==> WireOf(job, id).Data?) {
      HoldersAtRest(job, s, id);
    }
    forall n | 0 <= n < |s.senders| ensures Sum(DataLens(job), Batch(s.loc, n)) <= BatchBytesBound(job.cfg) {
      OneBatchBounded(job, s, n);
    }
    var z := Sizes(job);
    SumAdd(z, held, extra);
    SumSubset(z, held + {extra}, ra + ba);
    SumUnion(z, ra, ba);
    ReadersBounded(job, s, |s.readers|);
    SizesAreLengths(job, ba, |job.blocks|);
    assert z[..|job.blocks|] == z && DataLens(job)[..|job.blocks|] == DataLens(job);
    SumSubset(DataLens(job), ba, InBatches(s.loc, |s.senders|));
    BatchesBounded(DataLens(job), s.loc, |s.senders|, BatchBytesBound(job.cfg));
  }

  /** With enough memory for every batch and every reader, nobody waits for it once the
      senders are quiet. */
  lemma NobodyWaitsForMemory(job: Job, s: State)
    requires Inv(job, s) && Quiet(s) && FullReads(job) && MemoryIsPlentiful(job.cfg)
    ensures MemWait(s.res) == {}
  {
    var ws := s.res.mem.waiters;
    if ws != [] {
      var id := ws[0].ticket;
      assert id in MemWait(s.res);
      assert Linked(job, s, id, ClaimOf(s.res, id));
      MemoryAtRest(job, s, id);
    }
  }

  /** The steps by which a reader brings its chunk to the read channel. */
  ghost predicate Onward(a: ReadAct) {
    a.AskMem? || a.AskWin? || a.Granted? || a.ReadOk? || a.FreeZero? || a.Put?
  }

  /** A reader that waits for nothing can take the step that its phase asks for. */
  lemma PhaseGoesOn(job: Job, s: State, r: nat, id: nat, p: Phase, c: Claim) returns (a: ReadAct)
    requires Usable(job.cfg) && |s.loc| == |job.blocks| && id < |s.loc| && r < |s.readers|
    requires s.readers[r] == Busy(id, p) && p != Abort && s.readQ == []
    requires c == ClaimOf(s.res, id) && ReaderClaim(job, id, p, c) && !c.memWait && !c.winWait
    ensures Onward(a) && ReadEnabled(job, s, r, a)
  {
    match p
    case Start => a := if job.blocks[id].isZero then AskWin else AskMem;
    case WaitMem => a := AskWin;
    case WaitWin => a := Granted;
    case Reading => a := ReadOk;
    case ZeroFree => a := FreeZero;
    case Emit => a := Put;
  }

  lemma BusyClaim(job: Job, s: State, r: nat)
    requires Inv(job, s) && r < |s.readers| && s.readers[r].Busy?
    ensures var id := s.readers[r].id;
            id < |s.loc| && ReaderClaim(job, id, s.readers[r].phase, ClaimOf(s.res, id))
  {
    var id := s.readers[r].id;
    assert s.loc[id] == AtReader(r);
    assert Linked(job, s, id, ClaimOf(s.res, id));
  }

  /** With plentiful memory and quiet senders, only the window can hold a reader up. */
  lemma OnlyTheWindowHolds(job: Job, s: State, r: nat) returns (a: ReadAct)
    requires Inv(job, s) && Quiet(s) && FullReads(job) && MemoryIsPlentiful(job.cfg)
    requires r < |s.readers| && s.readers[r].Busy? && s.readers[r].id !in WinWait(s.res)
    ensures Onward(a) && ReadEnabled(job, s, r, a)
  {
    var id := s.readers[r].id;
    UncancelledIsSound(job, s);
    assert !BadReader(s.readers[r]);
    NobodyWaitsForMemory(job, s);
    BusyClaim(job, s, r);
    a := PhaseGoesOn(job, s, r, id, s.readers[r].phase, ClaimOf(s.res, id));
  }

  /** With enough memory for every batch and every reader, and no read cut short, the
      only way to come to rest is an unsent batch that holds the base. */
  lemma StallIsAnUnsentBatch(job: Job, steps: seq<Step>)
    requires Usable(job.cfg) && Valid(job, steps) && FullReads(job) && MemoryIsPlentiful(job.cfg)
    requires Stuck(job, After(job, steps)) && After(job, steps).res.win.ring.base < |job.blocks|
    ensures var s := After(job, steps);
            var l := s.loc[s.res.win.ring.base];
            && MemWait(s.res) == {}
            && l.InBatch? && l.s < |s.senders| && s.senders[l.s].phase == Select
  {
    Runs.RunKeepsInv(job, steps);
    StuckIsQuiet(job, After(job, steps));
    NobodyWaitsForMemory(job, After(job, steps));
    StuckShape(job, After(job, steps));
  }

  lemma NoReaderIsBusy(job: Job, s: State, r: nat)
    requires Inv(job, s) && Stuck(job, s) && FullReads(job) && MemoryIsPlentiful(job.cfg)
    requires |job.blocks| <= 2 * job.cfg.maxWindow && r < |s.readers|
    ensures !s.readers[r].Busy?
  {
    if s.readers[r].Busy? {
      ReadersAtRest(job, s, r);
      StuckIsQuiet(job, s);
      NobodyWaitsForMemory(job, s);
      var x := W.IdsWitness(s.res.win.waiters, s.readers[r].id);
    }
  }

  lemma ReadersHaveExited(job: Job, s: State, r: nat)
    requires Inv(job, s) && Stuck(job, s) && r < |s.readers| && !s.readers[r].Busy?
    ensures s.readers[r].Exited?
  {
    Blocked(job, s, Read(r, Take));
    Blocked(job, s, Read(r, ReadEnd));
    Blocked(job, s, Feeds(Feed));
    Blocked(job, s, Feeds(FeedDone));
  }

  lemma AllAcked(job: Job, s: State, id: nat)
    requires Inv(job, s) && !s.cancelled && id < |s.loc| && s.res.win.ring.base >= |job.blocks|
    ensures s.loc[id].Acked?
  {
    UncancelledIsSound(job, s);
    W.BaseIsLeastUnreleased(s.res.win.ring, id);
    assert Linked(job, s, id, ClaimOf(s.res, id));
    assert LocAtSender(s.senders, id, s.loc[id]);
  }

  lemma ReaderIsThrough(job: Job, s: State, r: nat)
    requires Inv(job, s) && Stuck(job, s) && s.res.win.ring.base >= |job.blocks| && r < |s.readers|
    ensures s.readers[r] == Exited(true)
  {
    UncancelledIsSound(job, s);
    assert !BadReader(s.readers[r]);
    if s.readers[r].Busy? {
      AllAcked(job, s, s.readers[r].id);
    } else {
      ReadersHaveExited(job, s, r);
    }
  }

  lemma SenderIsThrough(job: Job, s: State, n: nat)
    requires Inv(job, s) && Stuck(job, s) && n < |s.senders|
    requires forall r :: 0 <= r < |s.readers| ==> s.readers[r].Exited?
    ensures s.senders[n].phase == Ended(true) && s.senders[n].ack == AckEnded(true)
  {
    UncancelledIsSound(job, s);
    assert !BadSender(s.senders[n]);
    SendersAtRest(job, s, n);
    Blocked(job, s, Send(n, InputClosed));
    Blocked(job, s, Stream(n, Eof));
  }

  /** At rest with every block acknowledged, the pipeline has returned without an error. */
  lemma RestIsSuccess(job: Job, s: State)
    requires Inv(job, s) && Stuck(job, s) && s.res.win.ring.base >= |job.blocks|
    ensures Succeeded(s)
  {
    UncancelledIsSound(job, s);
    forall r | 0 <= r < |s.readers| ensures s.readers[r] == Exited(true) {
      ReaderIsThrough(job, s, r);
    }
    assert s.readers[0] == Exited(true);
    forall n | 0 <= n < |s.senders| ensures s.senders[n].phase == Ended(true) && s.senders[n].ack == AckEnded(true) {
      SenderIsThrough(job, s, n);
    }
  }

  /** At rest with all the readers gone there is no unsent batch. */
  lemma ExitedIsSuccess(job: Job, s: State)
    requires Inv(job, s) && Stuck(job, s) && FullReads(job) && MemoryIsPlentiful(job.cfg)
    requires forall r :: 0 <= r < |s.readers| ==> s.readers[r].Exited?
    ensures s.res.win.ring.base >= |job.blocks| && Succeeded(s)
  {
    if s.res.win.ring.base < |job.blocks| {
      StuckIsQuiet(job, s);
      NobodyWaitsForMemory(job, s);
      StuckShape(job, s);
      Blocked(job, s, Send(s.loc[s.res.win.ring.base].s, InputClosed));
    }
    RestIsSuccess(job, s);
  }

  /** A pipeline whose blocks all fit the window does not stall: with enough memory it
      comes to rest only when it has returned without an error. One block more can stall
      it. */
  lemma NoStallWithinTheWindow(job: Job, steps: seq<Step>)
    requires Usable(job.cfg) && Valid(job, steps) && FullReads(job) && MemoryIsPlentiful(job.cfg)
    requires |job.blocks| <= 2 * job.cfg.maxWindow && Stuck(job, After(job, steps))
    ensures After(job, steps).res.win.ring.base >= |job.blocks| && Succeeded(After(job, steps))
  {
    var s := After(job, steps);
    Runs.RunKeepsInv(job, steps);
    forall r | 0 <= r < |s.readers| ensures s.readers[r].Exited? {
      NoReaderIsBusy(job, s, r);
      ReadersHaveExited(job, s, r);
    }
    ExitedIsSuccess(job, s);
  }
}
