/** What every step of the pipeline keeps. */
module Invariant {
  import opened Wrappers
  import opened Contents
  import opened Configuration
  import opened Resources
  import opened Sums
  import opened Protocol
  import M = Memory
  import W = Window

  ghost predicate Shape(job: Job, s: State) {
    && |s.loc| == |job.blocks|
    && |s.readers| == job.cfg.readWorkers && |s.senders| == job.cfg.dataSendWorkers
    && s.taken <= s.fed <= |job.blocks|
    && s.fed - s.taken <= job.cfg.readChanBuf && |s.readQ| <= job.cfg.readChanBuf
  }

  /** The chunk channel holds the ids from `taken` to `fed`; a chunk is at a reader
      exactly when that reader is busy with it. */
  ghost predicate ReadersPlaced(s: State) {
    && (forall id :: 0 <= id < |s.loc| ==> (id >= s.taken <==> s.loc[id] == Queued))
    && (forall id :: 0 <= id < |s.loc| && s.loc[id].AtReader? ==>
          s.loc[id].r < |s.readers| && s.readers[s.loc[id].r].Busy? && s.readers[s.loc[id].r].id == id)
    && (forall r :: 0 <= r < |s.readers| && s.readers[r].Busy? ==>
          s.readers[r].id < |s.loc| && s.loc[s.readers[r].id] == AtReader(r))
  }

  ghost predicate QueuePlaced(s: State) {
    && (forall i :: 0 <= i < |s.readQ| ==> s.readQ[i] < |s.loc| && s.loc[s.readQ[i]] == InReadCh)
    && (forall i, j :: 0 <= i < j < |s.readQ| ==> s.readQ[i] != s.readQ[j])
    && (forall id :: 0 <= id < |s.loc| && s.loc[id] == InReadCh ==> id in s.readQ)
  }

  ghost predicate LocAtSender(w: seq<Sender>, id: nat, l: Loc) {
    match l
    case Incoming(n) => n < |w| && w[n].incoming == Some(id)
    case InBatch(n) => n < |w|
    case OnWire(n, k) => n < |w| && w[n].recv <= k < w[n].sent
    case Written(n, k) => n < |w| && w[n].acked <= k <= w[n].recv && k < w[n].sent
    case Acked(n) => n < |w|
    case _ => true
  }

  ghost predicate Sending(l: Loc, n: nat) {
    (l.OnWire? && l.s == n) || (l.Written? && l.s == n) || l == Acked(n)
  }

  ghost predicate PhaseOk(loc: seq<Loc>, w: Sender, n: nat) {
    && w.acked <= w.recv <= w.sent
    && (w.incoming.Some? ==> w.incoming.value < |loc| && loc[w.incoming.value] == Incoming(n))
    && match w.phase
       case Select => w.incoming.None?
       case Flush(last) => w.count > 0 && (last <==> w.incoming.None?)
       case Free(rest, last) =>
         && (last <==> w.incoming.None?)
         && (forall id :: id in rest ==> id < |loc| && Sending(loc[id], n))
       case AbortBatch(rest) =>
         && (forall id :: id in rest ==> id < |loc| && (loc[id] == InBatch(n) || loc[id] == Incoming(n)))
         && (forall id :: 0 <= id < |loc| && (loc[id] == InBatch(n) || loc[id] == Incoming(n)) ==> id in rest)
       case Ended(_) =>
         && w.incoming.None?
         && (forall id :: 0 <= id < |loc| ==> loc[id] != InBatch(n))
  }

  ghost predicate SendersPlaced(s: State) {
    && (forall id :: 0 <= id < |s.loc| ==> LocAtSender(s.senders, id, s.loc[id]))
    && (forall n :: 0 <= n < |s.senders| ==> PhaseOk(s.loc, s.senders[n], n))
  }

  /** The sender's own counts are right and its batch stays within the bounds. */
  ghost predicate BatchOk(job: Job, loc: seq<Loc>, w: Sender, n: nat)
    requires Usable(job.cfg)
  {
    w.phase.Select? || w.phase.Flush? || w.phase.Free? ==>
      && w.count == |Batch(loc, n)| <= job.cfg.dataBatchMaxCount
      && w.accum == Sum(DataLens(job), Batch(loc, n)) <= BatchBytesBound(job.cfg)
      && (w.phase.Free? ==> w.count == 0)
  }

  ghost predicate Counted(job: Job, s: State)
    requires Usable(job.cfg)
  {
    forall n :: 0 <= n < |s.senders| ==> BatchOk(job, s.loc, s.senders[n], n)
  }

  // ---- what a chunk holds, by where it is

  /** Membership of one chunk in the five sets of the resources. */
  datatype Claim = Claim(mem: bool, memWait: bool, win: bool, winWait: bool, rel: bool)

  ghost function ClaimOf(r: Res, id: nat): Claim {
    Claim(id in r.hasMem, id in MemWait(r), id in r.hasWin, id in WinWait(r), id in r.rel)
  }

  const NOTHING := Claim(false, false, false, false, false)

  ghost predicate ReaderClaim(job: Job, id: nat, p: Phase, c: Claim)
    requires id < |job.blocks| && Usable(job.cfg)
  {
    && !c.rel
    && match p
       case Start => c == NOTHING
       case WaitMem => c.mem != c.memWait && !c.win && !c.winWait && !job.blocks[id].isZero
       case WaitWin => !c.memWait && c.win != c.winWait && (c.mem <==> !job.blocks[id].isZero)
       case Reading => c == NOTHING.(mem := true, win := true) && !job.blocks[id].isZero
       case ZeroFree => c == NOTHING.(mem := true, win := true) && WireOf(job, id).ZeroRun?
       case Emit => c == NOTHING.(mem := WireOf(job, id).Data?, win := true)
       case Abort => !c.memWait && !c.winWait
  }

  ghost predicate Linked(job: Job, s: State, id: nat, c: Claim)
    requires Usable(job.cfg) && id < |s.loc| == |job.blocks|
    requires ReadersPlaced(s) && SendersPlaced(s)
  {
    assert LocAtSender(s.senders, id, s.loc[id]);
    match s.loc[id]
    case Queued => c == NOTHING
    case Lost => c == NOTHING
    case AtReader(r) => ReaderClaim(job, id, s.readers[r].phase, c)
    case InReadCh => c == NOTHING.(mem := WireOf(job, id).Data?, win := true)
    case Incoming(n) => BatchClaim(job, s.senders[n].phase, id, c)
    case InBatch(n) => BatchClaim(job, s.senders[n].phase, id, c)
    case OnWire(n, _) => c == NOTHING.(mem := c.mem, win := true) && (c.mem ==> Freeing(s.senders[n].phase, id))
    case Written(n, _) => c == NOTHING.(mem := c.mem, win := true) && (c.mem ==> Freeing(s.senders[n].phase, id))
    case Acked(n) => c == NOTHING.(mem := c.mem, rel := true) && (c.mem ==> Freeing(s.senders[n].phase, id))
    case Dropped => c == NOTHING.(rel := true)
  }

  ghost predicate BatchClaim(job: Job, p: SendPhase, id: nat, c: Claim)
    requires id < |job.blocks| && Usable(job.cfg)
  {
    c == NOTHING.(mem := c.mem, win := true)
    && (if p.AbortBatch? then c.mem ==> WireOf(job, id).Data? else c.mem <==> WireOf(job, id).Data?)
  }

  ghost predicate Freeing(p: SendPhase, id: nat) {
    p.Free? && id in p.rest
  }

  ghost predicate Held(job: Job, s: State)
    requires Usable(job.cfg) && |s.loc| == |job.blocks|
    requires ReadersPlaced(s) && SendersPlaced(s)
  {
    && Ok(Sizes(job), s.res)
    && s.res.win.ring.limit == 2 * job.cfg.maxWindow
    && s.res.mem.capacity == job.cfg.maxRawMemoryBytes
    && (forall id :: 0 <= id < |s.loc| ==> Linked(job, s, id, ClaimOf(s.res, id)))
    && (forall id :: id in s.res.hasWin + WinWait(s.res) + s.res.rel ==> id < |s.loc|)
    && (!s.cancelled ==> M.Tight(s.res.mem))
  }

  // ---- endings and failures

  ghost predicate BadReader(r: Reader) {
    r == Exited(false) || (r.Busy? && r.phase == Abort)
  }

  ghost predicate BadSender(w: Sender) {
    w.phase.AbortBatch? || w.phase == Ended(false) || w.ack == AckEnded(false)
  }

  /** Some worker has returned an error or is on its way to. */
  ghost predicate Bad(s: State) {
    || s.feeder == FeedEnded(false)
    || (exists r :: 0 <= r < |s.readers| && BadReader(s.readers[r]))
    || (exists n :: 0 <= n < |s.senders| && BadSender(s.senders[n]))
  }

  ghost predicate Failing(s: State) {
    s.failed <==> Bad(s)
  }

  /** What an ended worker tells about the others. */
  ghost predicate Endings(job: Job, s: State) {
    && (s.failed ==> s.cancelled)
    && (forall id :: 0 <= id < |s.loc| && (s.loc[id] == Dropped || s.loc[id] == Lost) ==> s.failed)
    && (s.feeder == FeedEnded(true) ==> s.fed == |job.blocks|)
    && (forall r :: 0 <= r < |s.readers| && s.readers[r] == Exited(true) ==>
          s.feeder.FeedEnded? && s.taken == s.fed)
    && (forall n :: 0 <= n < |s.senders| && InputOver(s.senders[n].phase) ==>
          s.readQ == [] && forall r :: 0 <= r < |s.readers| ==> s.readers[r].Exited?)
    && (forall n :: 0 <= n < |s.senders| && s.senders[n].ack == AckEnded(true) ==>
          s.senders[n].phase.Ended? && s.senders[n].acked == s.senders[n].recv == s.senders[n].sent)
  }

  /** The sender has seen its input closed. */
  ghost predicate InputOver(p: SendPhase) {
    p == Ended(true) || (p.Flush? && p.last) || (p.Free? && p.last)
  }

  ghost predicate Inv(job: Job, s: State) {
    && Usable(job.cfg)
    && Shape(job, s) && ReadersPlaced(s) && QueuePlaced(s) && SendersPlaced(s)
    && Counted(job, s) && Held(job, s) && Failing(s) && Endings(job, s)
  }
}
