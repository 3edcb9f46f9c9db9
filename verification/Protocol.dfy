/** The transfer pipeline as a step system: the feeder, the read workers, the send
    workers with their streams, the destination and the ack receivers, sharing the
    memory and the window semaphore. Every locked section, channel operation, read,
    send and write is one atomic step, and a run is any sequence of enabled steps. */
module Protocol {
  import opened Wrappers
  import opened Contents
  import opened Configuration
  import opened Resources
  import opened Sums
  import M = Memory
  import W = Window

  // ---- the job

  /** A block of the iterator; its request id is its position. */
  datatype Block = Block(path: Path, off: nat, len: nat, total: nat, isZero: bool)

  datatype Job = Job(cfg: Config, blocks: seq<Block>, src: Files, dest0: Files)

  function AcquireSize(job: Job, id: nat): (n: nat)
    requires id < |job.blocks| && Usable(job.cfg)
  {
    Min(job.blocks[id].len, job.cfg.chunkSize)
  }

  function Sizes(job: Job): (s: seq<nat>)
    requires Usable(job.cfg)
    ensures |s| == |job.blocks|
    ensures forall i :: 0 <= i < |s| ==> s[i] == AcquireSize(job, i)
  {
    seq(|job.blocks|, i requires 0 <= i < |job.blocks| => AcquireSize(job, i))
  }

  /** What goes over the wire for a block. */
  datatype Wire = ZeroRun(len: nat) | Data(bytes: seq<Byte>)

  ghost function WireOf(job: Job, id: nat): (w: Wire)
    requires id < |job.blocks| && Usable(job.cfg)
  {
    var b := job.blocks[id];
    if b.isZero then ZeroRun(b.len)
    else
      var d := ReadAt(File(job.src, b.path), b.off, AcquireSize(job, id));
      if AllZero(d) then ZeroRun(b.len) else Data(d)
  }

  ghost function Payload(w: Wire): (d: seq<Byte>) {
    match w case ZeroRun(n) => Zeros(n) case Data(d) => d
  }

  ghost function DataLens(job: Job): (s: seq<nat>)
    requires Usable(job.cfg)
    ensures |s| == |job.blocks|
    ensures forall i :: 0 <= i < |s| ==> s[i] == DataLen(job, i)
  {
    seq(|job.blocks|, i requires 0 <= i < |job.blocks| => DataLen(job, i))
  }

  /** The payload bytes a block adds to its batch. */
  ghost function DataLen(job: Job, id: nat): (n: nat)
    requires id < |job.blocks| && Usable(job.cfg)
    ensures n <= AcquireSize(job, id)
  {
    match WireOf(job, id) case ZeroRun(_) => 0 case Data(d) => |d|
  }

  // ---- the state

  /** Where a chunk is. The number on a stream is that of its request. */
  datatype Loc =
    | Queued
    | AtReader(r: nat)
    | InReadCh
    | Incoming(s: nat)
    | InBatch(s: nat)
    | OnWire(s: nat, k: nat)
    | Written(s: nat, k: nat)
    | Acked(s: nat)
    | Dropped            // its window slot was released without an ack
    | Lost               // given up before it had a window slot

  datatype Phase = Start | WaitMem | WaitWin | Reading | ZeroFree | Emit | Abort

  datatype Reader = Idle | Busy(id: nat, phase: Phase) | Exited(ok: bool)

  datatype SendPhase =
    | Select
    | Flush(last: bool)
    | Free(rest: set<nat>, last: bool)
    | AbortBatch(rest: set<nat>)
    | Ended(ok: bool)

  datatype Ack = Receiving | AckEnded(ok: bool)

  /** A send worker: its batch as the source counts it, the chunk it took and has
      not appended, and the requests sent, answered and taken in on its stream. */
  datatype Sender = Sender(phase: SendPhase, count: nat, accum: nat, incoming: Option<nat>,
                           sent: nat, recv: nat, acked: nat, ack: Ack)

  datatype Feeder = Feeding | FeedEnded(ok: bool)

  datatype State = State(
    fed: nat, feeder: Feeder, taken: nat, loc: seq<Loc>, readers: seq<Reader>,
    readQ: seq<nat>, senders: seq<Sender>, res: Res, dest: Files,
    cancelled: bool, failed: bool, commits: seq<Boundary>)

  ghost function Init(job: Job): (s: State)
    requires Usable(job.cfg)
  {
    State(0, Feeding, 0, seq(|job.blocks|, _ => Queued), seq(job.cfg.readWorkers, _ => Idle),
          [], seq(job.cfg.dataSendWorkers, _ => Sender(Select, 0, 0, None, 0, 0, 0, Receiving)),
          Initial(job.cfg.maxRawMemoryBytes, 2 * job.cfg.maxWindow), job.dest0,
          false, false, [])
  }

  ghost function Fail(s: State): State { s.(cancelled := true, failed := true) }

  // ---- the feeder

  datatype FeedAct = Feed | FeedDone | FeedQuit

  ghost predicate FeedEnabled(job: Job, s: State, a: FeedAct) {
    && s.feeder.Feeding?
    && match a
       case Feed => s.fed < |job.blocks| && s.fed - s.taken < job.cfg.readChanBuf
       case FeedDone => s.fed == |job.blocks|
       case FeedQuit => s.cancelled
  }

  ghost function FeedApply(job: Job, s: State, a: FeedAct): State {
    match a
    case Feed => s.(fed := s.fed + 1)
    case FeedDone => s.(feeder := FeedEnded(true))
    case FeedQuit => Fail(s).(feeder := FeedEnded(false))
  }

  // ---- the read workers

  datatype ReadAct =
    | Take | ReadEnd | ReadQuit
    | AskMem | GiveUpMem | AskWin | Granted | GiveUpWin
    | ReadOk | ReadErr | FreeZero | Put | QuitPut
    | AbortMem | AbortWin | AbortEnd

  ghost predicate BusyIn(s: State, r: nat, p: Phase) {
    r < |s.readers| && s.readers[r].Busy? && s.readers[r].phase == p && s.readers[r].id < |s.loc|
  }

  ghost predicate ReadEnabled(job: Job, s: State, r: nat, a: ReadAct)
    requires |s.loc| == |job.blocks|
  {
    && r < |s.readers|
    && match a
       case Take => s.readers[r].Idle? && s.taken < s.fed && s.taken < |s.loc|
       case ReadEnd => s.readers[r].Idle? && s.feeder.FeedEnded? && s.taken == s.fed
       case ReadQuit => s.readers[r].Idle? && s.cancelled
       case AskMem => BusyIn(s, r, Start) && !job.blocks[s.readers[r].id].isZero
       case GiveUpMem => BusyIn(s, r, WaitMem) && s.cancelled && s.readers[r].id in MemWait(s.res)
       case AskWin => (BusyIn(s, r, Start) && job.blocks[s.readers[r].id].isZero)
                      || (BusyIn(s, r, WaitMem) && s.readers[r].id in s.res.hasMem)
       case Granted => BusyIn(s, r, WaitWin) && s.readers[r].id in s.res.hasWin
       case GiveUpWin => BusyIn(s, r, WaitWin) && s.cancelled && s.readers[r].id in WinWait(s.res)
       case ReadOk => BusyIn(s, r, Reading)
       case ReadErr => BusyIn(s, r, Reading)
       case FreeZero => BusyIn(s, r, ZeroFree)
       case Put => BusyIn(s, r, Emit) && |s.readQ| < job.cfg.readChanBuf
       case QuitPut => BusyIn(s, r, Emit) && s.cancelled
       case AbortMem => BusyIn(s, r, Abort) && s.readers[r].id in s.res.hasMem
       case AbortWin => BusyIn(s, r, Abort) && s.readers[r].id !in s.res.hasMem
                        && s.readers[r].id in s.res.hasWin && W.Settled(s.res.win.ring)
       case AbortEnd => BusyIn(s, r, Abort) && s.readers[r].id !in s.res.hasMem
                        && s.readers[r].id !in s.res.hasWin
  }

  ghost function ToPhase(s: State, r: nat, p: Phase): State
    requires r < |s.readers| && s.readers[r].Busy?
  {
    s.(readers := s.readers[r := Busy(s.readers[r].id, p)])
  }

  ghost function Leave(s: State, r: nat, l: Loc, next: Reader): State
    requires r < |s.readers| && s.readers[r].Busy? && s.readers[r].id < |s.loc|
  {
    s.(loc := s.loc[s.readers[r].id := l], readers := s.readers[r := next])
  }

  ghost function ReadApply(job: Job, s: State, r: nat, a: ReadAct): (t: State)
    requires Usable(job.cfg) && |s.loc| == |job.blocks| && ReadEnabled(job, s, r, a)
    ensures |t.loc| == |s.loc|
  {
    var id := if s.readers[r].Busy? then s.readers[r].id else s.taken;
    match a
    case Take => s.(taken := s.taken + 1, loc := s.loc[id := AtReader(r)],
                    readers := s.readers[r := Busy(id, Start)])
    case ReadEnd => s.(readers := s.readers[r := Exited(true)])
    case ReadQuit => Fail(s).(readers := s.readers[r := Exited(false)])
    case AskMem => ToPhase(s, r, WaitMem).(res := ReqMem(Sizes(job), s.res, id))
    case GiveUpMem => Fail(Leave(s, r, Lost, Exited(false))).(res := CancelMem(s.res, id))
    case AskWin => ToPhase(s, r, WaitWin).(res := ReqWin(s.res, id))
    case Granted => ToPhase(s, r, if job.blocks[id].isZero then Emit else Reading)
    case GiveUpWin => Fail(ToPhase(s, r, Abort)).(res := CancelWin(s.res, id))
    case ReadOk => ToPhase(s, r, if WireOf(job, id).ZeroRun? then ZeroFree else Emit)
    case ReadErr => Fail(ToPhase(s, r, Abort))
    case FreeZero => ToPhase(s, r, Emit).(res := FreeMem(Sizes(job), s.res, id))
    case Put => Leave(s, r, InReadCh, Idle).(readQ := s.readQ + [id])
    case QuitPut => Fail(ToPhase(s, r, Abort))
    case AbortMem => s.(res := FreeMem(Sizes(job), s.res, id))
    case AbortWin => Leave(s, r, Dropped, Exited(false)).(res := FreeWin(s.res, id))
    case AbortEnd => Leave(s, r, Lost, Exited(false))
  }

  ghost predicate UpToTheGrant(a: ReadAct) {
    a.Take? || a.ReadEnd? || a.ReadQuit? || a.AskMem? || a.GiveUpMem? || a.AskWin? || a.Granted?
  }

  lemma FrameUpToTheGrant(job: Job, s: State, r: nat, a: ReadAct)
    requires Usable(job.cfg) && |s.loc| == |job.blocks| && ReadEnabled(job, s, r, a) && UpToTheGrant(a)
    ensures var t := ReadApply(job, s, r, a);
            t.dest == s.dest && t.commits == s.commits && (s.failed ==> t.failed)
  {
  }

  lemma FrameFromTheGrant(job: Job, s: State, r: nat, a: ReadAct)
    requires Usable(job.cfg) && |s.loc| == |job.blocks| && ReadEnabled(job, s, r, a) && !UpToTheGrant(a)
    ensures var t := ReadApply(job, s, r, a);
            t.dest == s.dest && t.commits == s.commits && (s.failed ==> t.failed)
  {
  }

  /** What a read worker does not touch. */
  lemma ReadFrame(job: Job, s: State, r: nat, a: ReadAct)
    requires Usable(job.cfg) && |s.loc| == |job.blocks| && ReadEnabled(job, s, r, a)
    ensures var t := ReadApply(job, s, r, a);
            t.dest == s.dest && t.commits == s.commits && (s.failed ==> t.failed)
  {
    if UpToTheGrant(a) {
      FrameUpToTheGrant(job, s, r, a);
    } else {
      FrameFromTheGrant(job, s, r, a);
    }
  }

  // ---- the send workers

  datatype SendAct =
    | TakeChunk | InputClosed | SendQuit | OpenErr
    | SendOk | SendErr | FreeOne(id: nat) | FlushEnd
    | AbortOneMem(id: nat) | AbortOneWin(id: nat) | AbortDone

  ghost function Batch(loc: seq<Loc>, n: nat): (b: set<nat>) {
    set id | 0 <= id < |loc| && loc[id] == InBatch(n)
  }

  ghost predicate MustFlush(job: Job, w: Sender, id: nat)
    requires Usable(job.cfg) && id < |job.blocks|
  {
    w.count > 0 && (w.accum + DataLen(job, id) >= job.cfg.dataBatchMaxBytes
                    || w.count >= job.cfg.dataBatchMaxCount)
  }

  ghost predicate SendEnabled(job: Job, s: State, n: nat, a: SendAct)
    requires Usable(job.cfg) && |s.loc| == |job.blocks|
  {
    && n < |s.senders|
    && var w := s.senders[n];
       match a
       case TakeChunk => w.phase.Select? && s.readQ != [] && s.readQ[0] < |s.loc|
       case InputClosed => w.phase.Select? && s.readQ == []
                           && (forall r :: 0 <= r < |s.readers| ==> s.readers[r].Exited?)
       case SendQuit => w.phase.Select? && s.cancelled
       case OpenErr => w.phase.Select? && w.count == 0 && w.sent == 0
       case SendOk => w.phase.Flush?
       case SendErr => w.phase.Flush?
       case FreeOne(id) => w.phase.Free? && id in w.phase.rest && id < |s.loc|
       case FlushEnd => w.phase.Free? && w.phase.rest == {}
                        && (w.phase.last <==> w.incoming.None?)
                        && (w.incoming.Some? ==> w.incoming.value < |s.loc|)
       case AbortOneMem(id) => w.phase.AbortBatch? && id in w.phase.rest && id in s.res.hasMem && id < |s.loc|
       case AbortOneWin(id) => w.phase.AbortBatch? && id in w.phase.rest && id !in s.res.hasMem && id < |s.loc|
                               && W.Settled(s.res.win.ring)
       case AbortDone => w.phase.AbortBatch? && w.phase.rest == {}
  }

  ghost function Append(job: Job, s: State, n: nat, id: nat): State
    requires Usable(job.cfg) && n < |s.senders| && id < |s.loc| == |job.blocks|
  {
    var w := s.senders[n];
    s.(loc := s.loc[id := InBatch(n)],
       senders := s.senders[n := w.(phase := Select, incoming := None, count := w.count + 1,
                                    accum := w.accum + DataLen(job, id))])
  }

  ghost function SentLocs(loc: seq<Loc>, n: nat, k: nat): (r: seq<Loc>)
    ensures |r| == |loc|
    ensures forall i :: 0 <= i < |r| ==> r[i] == if loc[i] == InBatch(n) then OnWire(n, k) else loc[i]
  {
    seq(|loc|, i requires 0 <= i < |loc| => if loc[i] == InBatch(n) then OnWire(n, k) else loc[i])
  }

  ghost function SendApply(job: Job, s: State, n: nat, a: SendAct): (t: State)
    requires Usable(job.cfg) && |s.loc| == |job.blocks| && SendEnabled(job, s, n, a)
    ensures |t.loc| == |s.loc|
  {
    var w := s.senders[n];
    match a
    case TakeChunk =>
      var id := s.readQ[0];
      var t := s.(readQ := s.readQ[1..]);
      if MustFlush(job, w, id)
      then t.(loc := s.loc[id := Incoming(n)],
              senders := s.senders[n := w.(phase := Flush(false), incoming := Some(id))])
      else Append(job, t, n, id)
    case InputClosed =>
      s.(senders := s.senders[n := w.(phase := if w.count > 0 then Flush(true) else Ended(true))])
    case SendQuit => Fail(s).(senders := s.senders[n := w.(phase := AbortBatch(Batch(s.loc, n)))])
    case OpenErr => Fail(s).(senders := s.senders[n := w.(phase := Ended(false), ack := AckEnded(false))])
    case SendOk =>
      s.(loc := SentLocs(s.loc, n, w.sent),
         senders := s.senders[n := w.(phase := Free(Batch(s.loc, n), w.phase.last),
                                      count := 0, accum := 0, sent := w.sent + 1)])
    case SendErr =>
      var rest := Batch(s.loc, n) + if w.incoming.Some? then {w.incoming.value} else {};
      Fail(s).(senders := s.senders[n := w.(phase := AbortBatch(rest))])
    case FreeOne(id) =>
      s.(res := if id in s.res.hasMem then FreeMem(Sizes(job), s.res, id) else s.res,
         senders := s.senders[n := w.(phase := Free(w.phase.rest - {id}, w.phase.last))])
    case FlushEnd =>
      if w.phase.last then s.(senders := s.senders[n := w.(phase := Ended(true))])
      else Append(job, s, n, w.incoming.value)
    case AbortOneMem(id) => s.(res := FreeMem(Sizes(job), s.res, id))
    case AbortOneWin(id) =>
      s.(res := FreeWin(s.res, id), loc := s.loc[id := Dropped],
         senders := s.senders[n := w.(phase := AbortBatch(w.phase.rest - {id}),
                                      incoming := if w.incoming == Some(id) then None else w.incoming)])
    case AbortDone => s.(senders := s.senders[n := w.(phase := Ended(false))])
  }

  /** What a send worker does not touch. */
  lemma SendFrame(job: Job, s: State, n: nat, a: SendAct)
    requires Usable(job.cfg) && |s.loc| == |job.blocks| && SendEnabled(job, s, n, a)
    ensures var t := SendApply(job, s, n, a);
            t.dest == s.dest && t.commits == s.commits && (s.failed ==> t.failed)
  {
  }

  // ---- the streams: destination and ack receivers

  datatype WireAct =
    | Write(id: nat) | Answer
    | Release(id: nat) | AnswerDone | Eof | RecvErr

  ghost predicate WireEnabled(job: Job, s: State, n: nat, a: WireAct) {
    && n < |s.senders|
    && var w := s.senders[n];
       match a
       case Write(id) => id < |s.loc| && s.loc[id] == OnWire(n, w.recv)
       case Answer => w.recv < w.sent && (forall id :: 0 <= id < |s.loc| ==> s.loc[id] != OnWire(n, w.recv))
       case Release(id) => w.ack.Receiving? && w.acked < w.recv && id < |s.loc| && s.loc[id] == Written(n, w.acked)
                           && W.Settled(s.res.win.ring)
       case AnswerDone => w.ack.Receiving? && w.acked < w.recv
                          && (forall id :: 0 <= id < |s.loc| ==> s.loc[id] != Written(n, w.acked))
       case Eof => w.ack.Receiving? && w.phase.Ended? && w.acked == w.recv == w.sent
       case RecvErr => w.ack.Receiving?
  }

  /** Opening a file truncates it upwards to its size; then the block is written. */
  ghost function Store(job: Job, dest: Files, id: nat): (d: Files)
    requires Usable(job.cfg) && id < |job.blocks|
  {
    var b := job.blocks[id];
    dest[b.path := Overlay(Grow(File(dest, b.path), b.total), b.off, Payload(WireOf(job, id)))]
  }

  ghost function WireApply(job: Job, s: State, n: nat, a: WireAct): (t: State)
    requires Usable(job.cfg) && |s.loc| == |job.blocks| && WireEnabled(job, s, n, a)
    ensures |t.loc| == |s.loc|
  {
    var w := s.senders[n];
    match a
    case Write(id) => s.(loc := s.loc[id := Written(n, w.recv)], dest := Store(job, s.dest, id))
    case Answer => s.(senders := s.senders[n := w.(recv := w.recv + 1)])
    case Release(id) => s.(loc := s.loc[id := Acked(n)], res := FreeWin(s.res, id))
    case AnswerDone => s.(senders := s.senders[n := w.(acked := w.acked + 1)])
    case Eof => s.(senders := s.senders[n := w.(ack := AckEnded(true))])
    case RecvErr => Fail(s).(senders := s.senders[n := w.(ack := AckEnded(false))])
  }

  /** What a stream does not touch. */
  lemma WireFrame(job: Job, s: State, n: nat, a: WireAct)
    requires Usable(job.cfg) && |s.loc| == |job.blocks| && WireEnabled(job, s, n, a)
    ensures var t := WireApply(job, s, n, a);
            (!a.Write? ==> t.dest == s.dest) && t.commits == s.commits && (s.failed ==> t.failed)
  {
  }

  // ---- steps and runs

  datatype Step =
    | Feeds(fa: FeedAct)
    | Read(r: nat, ra: ReadAct)
    | Send(n: nat, sa: SendAct)
    | Stream(n: nat, wa: WireAct)
    | Cancel
    | Commit(b: Boundary)

  ghost predicate Enabled(job: Job, s: State, step: Step)
    requires Usable(job.cfg) && |s.loc| == |job.blocks|
  {
    match step
    case Feeds(a) => FeedEnabled(job, s, a)
    case Read(r, a) => ReadEnabled(job, s, r, a)
    case Send(n, a) => SendEnabled(job, s, n, a)
    case Stream(n, a) => WireEnabled(job, s, n, a)
    case Cancel => true
    case Commit(b) => s.res.win.ring.base > b.last   // the drainer's ack check
  }

  ghost function Apply(job: Job, s: State, step: Step): (t: State)
    requires Usable(job.cfg) && |s.loc| == |job.blocks| && Enabled(job, s, step)
    ensures |t.loc| == |s.loc|
  {
    match step
    case Feeds(a) => FeedApply(job, s, a)
    case Read(r, a) => ReadApply(job, s, r, a)
    case Send(n, a) => SendApply(job, s, n, a)
    case Stream(n, a) => WireApply(job, s, n, a)
    case Cancel => s.(cancelled := true)
    case Commit(b) => s.(commits := s.commits + [b])
  }

  /** Only a write changes the destination, only a commit the commits, and nothing undoes
      a failure. */
  lemma StepFrame(job: Job, s: State, step: Step)
    requires Usable(job.cfg) && |s.loc| == |job.blocks| && Enabled(job, s, step)
    ensures var t := Apply(job, s, step);
            && (!(step.Stream? && step.wa.Write?) ==> t.dest == s.dest) && (s.failed ==> t.failed)
            && t.commits == if step.Commit? then s.commits + [step.b] else s.commits
  {
    match step
    case Feeds(_) =>
    case Read(r, a) => ReadFrame(job, s, r, a);
    case Send(n, a) => SendFrame(job, s, n, a);
    case Stream(n, a) => WireFrame(job, s, n, a);
    case Cancel =>
    case Commit(_) =>
  }

  /** `steps` can be taken one after the other from the start. */
  ghost predicate Valid(job: Job, steps: seq<Step>)
    requires Usable(job.cfg)
    decreases |steps|, 0
  {
    steps == [] ||
    var front := steps[..|steps| - 1];
    Valid(job, front) && Enabled(job, After(job, front), steps[|steps| - 1])
  }

  /** The state that a run ends in. */
  ghost function After(job: Job, steps: seq<Step>): (s: State)
    requires Usable(job.cfg) && Valid(job, steps)
    ensures |s.loc| == |job.blocks|
    decreases |steps|, 1
  {
    if steps == [] then Init(job)
    else Apply(job, After(job, steps[..|steps| - 1]), steps[|steps| - 1])
  }

  /** Every worker has returned without an error, so the pipeline returns none. */
  ghost predicate Succeeded(s: State) {
    && s.feeder == FeedEnded(true)
    && (forall r :: 0 <= r < |s.readers| ==> s.readers[r] == Exited(true))
    && (forall n :: 0 <= n < |s.senders| ==> s.senders[n].phase == Ended(true) && s.senders[n].ack == AckEnded(true))
  }
}
