/** The steps of the send workers keep the invariant. */
module SenderSteps {
  import opened Wrappers
  import opened Contents
  import opened Configuration
  import opened Resources
  import opened Sums
  import opened Protocol
  import opened Invariant
  import opened Claims
  import M = Memory
  import W = Window

  ghost predicate AtSenders(l: Loc) {
    !(l.Queued? || l.AtReader? || l.InReadCh?)
  }

  /** Nothing that the readers or the read channel depend on has changed. */
  ghost predicate ReadersSee(s: State, t: State) {
    && t.readers == s.readers && t.taken == s.taken && t.fed == s.fed && |t.loc| == |s.loc|
    && (forall i :: 0 <= i < |s.loc| ==> s.loc[i] == t.loc[i] || (AtSenders(s.loc[i]) && AtSenders(t.loc[i])))
  }

  lemma ReadersSeen(job: Job, s: State, t: State)
    requires ReadersSee(s, t) && |t.senders| == |s.senders| && t.readQ == s.readQ
    requires Shape(job, s) && ReadersPlaced(s) && QueuePlaced(s)
    ensures Shape(job, t) && ReadersPlaced(t) && QueuePlaced(t)
  {
  }

  lemma TakePlaced(job: Job, s: State, t: State)
    requires s.readQ != [] && t.readQ == s.readQ[1..] && |t.senders| == |s.senders|
    requires Shape(job, s) && ReadersPlaced(s) && QueuePlaced(s)
    requires t.readers == s.readers && t.taken == s.taken && t.fed == s.fed && |t.loc| == |s.loc|
    requires AtSenders(t.loc[s.readQ[0]]) && t.loc == s.loc[s.readQ[0] := t.loc[s.readQ[0]]]
    ensures Shape(job, t) && ReadersPlaced(t) && QueuePlaced(t)
  {
    assert forall i :: 0 <= i < |t.readQ| ==> t.readQ[i] == s.readQ[i + 1];
    forall id | 0 <= id < |t.loc| && t.loc[id] == InReadCh ensures id in t.readQ {
      assert id in s.readQ;
      var i :| 0 <= i < |s.readQ| && s.readQ[i] == id;
      assert t.readQ[i - 1] == id;
    }
  }

  // ---- placement at the senders

  /** Which chunk locations a send worker's step changes, and how. */
  lemma SendLocs(job: Job, s: State, n: nat, a: SendAct, id: nat)
    requires Usable(job.cfg) && Shape(job, s) && SendersPlaced(s)
    requires SendEnabled(job, s, n, a) && id < |s.loc|
    ensures var l, m, w := s.loc[id], SendApply(job, s, n, a).loc[id], s.senders[n];
            match a
            case TakeChunk => if id == s.readQ[0] then m == InBatch(n) || m == Incoming(n) else m == l
            case SendOk => m == if l == InBatch(n) then OnWire(n, w.sent) else l
            case FlushEnd => m == if !w.phase.last && id == w.incoming.value then InBatch(n) else l
            case AbortOneWin(i) => m == if id == i then Dropped else l
            case _ => m == l
  {
  }

  lemma SendOthers(job: Job, s: State, n: nat, a: SendAct)
    requires Usable(job.cfg) && |s.loc| == |job.blocks| && SendEnabled(job, s, n, a)
    ensures var t := SendApply(job, s, n, a);
            && |t.senders| == |s.senders|
            && (forall k :: 0 <= k < |s.senders| && k != n ==> t.senders[k] == s.senders[k])
            && t.readers == s.readers && t.feeder == s.feeder && t.taken == s.taken && t.fed == s.fed
  {
  }

  lemma TakeKeepsPlacement(job: Job, s: State, n: nat)
    requires Usable(job.cfg) && Shape(job, s) && ReadersPlaced(s) && QueuePlaced(s) && SendEnabled(job, s, n, TakeChunk)
    ensures var t := SendApply(job, s, n, TakeChunk);
            Shape(job, t) && ReadersPlaced(t) && QueuePlaced(t)
  {
    TakePlaced(job, s, SendApply(job, s, n, TakeChunk));
  }

  /** A step that takes no chunk from the channel moves only chunks of the senders. */
  lemma SendSeen(job: Job, s: State, n: nat, a: SendAct, id: nat)
    requires Usable(job.cfg) && Shape(job, s) && SendersPlaced(s)
    requires SendEnabled(job, s, n, a) && a != TakeChunk && id < |s.loc|
    ensures var t := SendApply(job, s, n, a);
            s.loc[id] == t.loc[id] || (AtSenders(s.loc[id]) && AtSenders(t.loc[id]))
  {
    assert PhaseOk(s.loc, s.senders[n], n);
    SendLocs(job, s, n, a, id);
  }

  lemma SendKeepsQueue(job: Job, s: State, n: nat, a: SendAct)
    requires Usable(job.cfg) && |s.loc| == |job.blocks| && SendEnabled(job, s, n, a) && a != TakeChunk
    ensures SendApply(job, s, n, a).readQ == s.readQ
  {
  }

  lemma SendKeepsPlacement(job: Job, s: State, n: nat, a: SendAct)
    requires Usable(job.cfg) && Shape(job, s) && ReadersPlaced(s) && QueuePlaced(s) && SendersPlaced(s)
    requires SendEnabled(job, s, n, a)
    ensures var t := SendApply(job, s, n, a);
            Shape(job, t) && ReadersPlaced(t) && QueuePlaced(t)
  {
    if a == TakeChunk {
      TakeKeepsPlacement(job, s, n);
    } else {
      var t := SendApply(job, s, n, a);
      forall id | 0 <= id < |s.loc|
        ensures s.loc[id] == t.loc[id] || (AtSenders(s.loc[id]) && AtSenders(t.loc[id]))
      {
        SendSeen(job, s, n, a, id);
      }
      SendOthers(job, s, n, a);
      SendKeepsQueue(job, s, n, a);
      ReadersSeen(job, s, t);
    }
  }

  lemma BatchEmpty(loc: seq<Loc>, n: nat, id: nat)
    requires |Batch(loc, n)| == 0 && id < |loc|
    ensures loc[id] != InBatch(n)
  {
    assert id !in Batch(loc, n);
  }

  /** What a step does to the counts of its sender, and to the chunk it has not appended. */
  ghost predicate OwnMoves(w: Sender, v: Sender, a: SendAct) {
    && v.recv == w.recv && v.acked == w.acked && v.sent == (if a == SendOk then w.sent + 1 else w.sent)
    && match a
       case TakeChunk => true
       case FlushEnd => w.incoming.Some? ==> v.incoming == None
       case AbortOneWin(id) => v.incoming == if w.incoming == Some(id) then None else w.incoming
       case _ => v.incoming == w.incoming
  }

  lemma SendOwn(job: Job, s: State, n: nat, a: SendAct)
    requires Usable(job.cfg) && |s.loc| == |job.blocks| && SendEnabled(job, s, n, a)
    ensures n < |SendApply(job, s, n, a).senders| && OwnMoves(s.senders[n], SendApply(job, s, n, a).senders[n], a)
  {
    if a.TakeChunk? || a.FlushEnd? {
      OwnAppends(job, s, n, a);
    }
  }

  lemma OwnAppends(job: Job, s: State, n: nat, a: SendAct)
    requires Usable(job.cfg) && |s.loc| == |job.blocks| && SendEnabled(job, s, n, a) && (a.TakeChunk? || a.FlushEnd?)
    ensures n < |SendApply(job, s, n, a).senders| && OwnMoves(s.senders[n], SendApply(job, s, n, a).senders[n], a)
  {
  }

  /** A chunk that the step does not move. */
  lemma LocStill(s: State, t: State, n: nat, a: SendAct, id: nat)
    requires n < |s.senders| == |t.senders| && OwnMoves(s.senders[n], t.senders[n], a)
    requires forall k :: 0 <= k < |s.senders| && k != n ==> t.senders[k] == s.senders[k]
    requires id < |s.loc| && LocAtSender(s.senders, id, s.loc[id])
    requires s.loc[id] == Incoming(n) ==> t.senders[n].incoming == Some(id)
    ensures LocAtSender(t.senders, id, s.loc[id])
  {
  }

  /** And one that it moves. */
  lemma SendMovesLoc(job: Job, s: State, n: nat, a: SendAct, id: nat)
    requires Usable(job.cfg) && Shape(job, s) && QueuePlaced(s) && SendersPlaced(s)
    requires SendEnabled(job, s, n, a) && id < |s.loc| && SendApply(job, s, n, a).loc[id] != s.loc[id]
    ensures LocAtSender(SendApply(job, s, n, a).senders, id, SendApply(job, s, n, a).loc[id])
  {
    assert PhaseOk(s.loc, s.senders[n], n);
    SendLocs(job, s, n, a, id);
  }

  lemma IncomingStill(job: Job, s: State, n: nat, a: SendAct, id: nat)
    requires Usable(job.cfg) && Shape(job, s) && SendersPlaced(s)
    requires SendEnabled(job, s, n, a) && id < |s.loc| && SendApply(job, s, n, a).loc[id] == s.loc[id] == Incoming(n)
    ensures SendApply(job, s, n, a).senders[n].incoming == Some(id)
  {
    assert PhaseOk(s.loc, s.senders[n], n);
    assert LocAtSender(s.senders, id, s.loc[id]);
  }

  lemma SendKeepsLocs(job: Job, s: State, n: nat, a: SendAct, id: nat)
    requires Usable(job.cfg) && Shape(job, s) && QueuePlaced(s) && SendersPlaced(s)
    requires SendEnabled(job, s, n, a) && id < |s.loc|
    ensures LocAtSender(SendApply(job, s, n, a).senders, id, SendApply(job, s, n, a).loc[id])
  {
    var t := SendApply(job, s, n, a);
    if t.loc[id] == s.loc[id] {
      SendOthers(job, s, n, a);
      SendOwn(job, s, n, a);
      if s.loc[id] == Incoming(n) {
        IncomingStill(job, s, n, a, id);
      }
      LocStill(s, t, n, a, id);
    } else {
      SendMovesLoc(job, s, n, a, id);
    }
  }

  lemma SendKeepsOtherPhases(job: Job, s: State, n: nat, a: SendAct, k: nat)
    requires Usable(job.cfg) && Shape(job, s) && QueuePlaced(s) && SendersPlaced(s)
    requires SendEnabled(job, s, n, a) && k < |s.senders| && k != n
    ensures PhaseOk(SendApply(job, s, n, a).loc, SendApply(job, s, n, a).senders[k], k)
  {
    var t := SendApply(job, s, n, a);
    SendOthers(job, s, n, a);
    assert PhaseOk(s.loc, s.senders[k], k);
    assert PhaseOk(s.loc, s.senders[n], n);
    forall id | 0 <= id < |s.loc|
      ensures t.loc[id] == s.loc[id]
           || (s.loc[id] != InBatch(k) && s.loc[id] != Incoming(k) && !Sending(s.loc[id], k)
               && t.loc[id] != InBatch(k) && t.loc[id] != Incoming(k) && !Sending(t.loc[id], k))
    {
      SendLocs(job, s, n, a, id);
    }
  }

  lemma SendKeepsOwnPhase(job: Job, s: State, n: nat, a: SendAct)
    requires Usable(job.cfg) && Shape(job, s) && QueuePlaced(s) && SendersPlaced(s) && Counted(job, s)
    requires SendEnabled(job, s, n, a)
    ensures PhaseOk(SendApply(job, s, n, a).loc, SendApply(job, s, n, a).senders[n], n)
  {
    match a
    case TakeChunk => TakingPhase(job, s, n);
    case InputClosed => EndingPhase(job, s, n, a);
    case OpenErr => EndingPhase(job, s, n, a);
    case FlushEnd => EndingPhase(job, s, n, a);
    case SendOk => SentPhase(job, s, n);
    case SendQuit => AbortingPhase(job, s, n, a);
    case SendErr => AbortingPhase(job, s, n, a);
    case AbortDone => OneDonePhase(job, s, n, a);
    case AbortOneWin(_) => OneDonePhase(job, s, n, a);
    case FreeOne(_) => OneDonePhase(job, s, n, a);
    case AbortOneMem(_) => OneDonePhase(job, s, n, a);
  }

  lemma TakingPhase(job: Job, s: State, n: nat)
    requires Usable(job.cfg) && Shape(job, s) && QueuePlaced(s) && SendersPlaced(s)
    requires SendEnabled(job, s, n, TakeChunk)
    ensures PhaseOk(SendApply(job, s, n, TakeChunk).loc, SendApply(job, s, n, TakeChunk).senders[n], n)
  {
    assert PhaseOk(s.loc, s.senders[n], n);
  }

  lemma SentPhase(job: Job, s: State, n: nat)
    requires Usable(job.cfg) && Shape(job, s) && SendersPlaced(s)
    requires SendEnabled(job, s, n, SendOk)
    ensures PhaseOk(SendApply(job, s, n, SendOk).loc, SendApply(job, s, n, SendOk).senders[n], n)
  {
    assert PhaseOk(s.loc, s.senders[n], n);
    assert forall id :: id in Batch(s.loc, n) ==> id < |s.loc| && s.loc[id] == InBatch(n);
  }

  lemma OneDonePhase(job: Job, s: State, n: nat, a: SendAct)
    requires Usable(job.cfg) && Shape(job, s) && SendersPlaced(s)
    requires SendEnabled(job, s, n, a) && (a.FreeOne? || a.AbortOneMem? || a.AbortOneWin? || a.AbortDone?)
    ensures PhaseOk(SendApply(job, s, n, a).loc, SendApply(job, s, n, a).senders[n], n)
  {
    assert PhaseOk(s.loc, s.senders[n], n);
  }

  lemma EndingPhase(job: Job, s: State, n: nat, a: SendAct)
    requires Usable(job.cfg) && Shape(job, s) && SendersPlaced(s) && Counted(job, s)
    requires SendEnabled(job, s, n, a) && (a == InputClosed || a == OpenErr || a == FlushEnd)
    ensures PhaseOk(SendApply(job, s, n, a).loc, SendApply(job, s, n, a).senders[n], n)
  {
    var w := s.senders[n];
    assert PhaseOk(s.loc, w, n);
    assert BatchOk(job, s.loc, w, n);
    if w.count == 0 {
      forall id | 0 <= id < |s.loc| ensures s.loc[id] != InBatch(n) {
        BatchEmpty(s.loc, n, id);
      }
    }
  }

  lemma AbortingPhase(job: Job, s: State, n: nat, a: SendAct)
    requires Usable(job.cfg) && Shape(job, s) && SendersPlaced(s)
    requires SendEnabled(job, s, n, a) && (a == SendQuit || a == SendErr)
    ensures PhaseOk(SendApply(job, s, n, a).loc, SendApply(job, s, n, a).senders[n], n)
  {
    var w := s.senders[n];
    assert PhaseOk(s.loc, w, n);
    forall id | 0 <= id < |s.loc| && s.loc[id] == Incoming(n) ensures w.incoming == Some(id) {
      assert LocAtSender(s.senders, id, s.loc[id]);
    }
  }

  lemma SendKeepsSendersPlaced(job: Job, s: State, n: nat, a: SendAct)
    requires Inv(job, s) && SendEnabled(job, s, n, a)
    ensures SendersPlaced(SendApply(job, s, n, a))
  {
    var t := SendApply(job, s, n, a);
    SendOthers(job, s, n, a);
    forall k | 0 <= k < |t.senders| ensures PhaseOk(t.loc, t.senders[k], k) {
      if k == n { SendKeepsOwnPhase(job, s, n, a); } else { SendKeepsOtherPhases(job, s, n, a, k); }
    }
    forall id | 0 <= id < |t.loc| ensures LocAtSender(t.senders, id, t.loc[id]) {
      SendKeepsLocs(job, s, n, a, id);
    }
  }

  // ---- the batches

  lemma AppendCounted(job: Job, s: State, n: nat, id: nat)
    requires Usable(job.cfg) && id < |s.loc| == |job.blocks| && n < |s.senders|
    requires BatchOk(job, s.loc, s.senders[n], n) && s.loc[id] != InBatch(n)
    requires s.senders[n].phase.Select? || s.senders[n].phase.Free?
    requires !MustFlush(job, s.senders[n], id)
    ensures BatchOk(job, Append(job, s, n, id).loc, Append(job, s, n, id).senders[n], n)
  {
    var t := Append(job, s, n, id);
    var b := Batch(s.loc, n);
    assert Batch(t.loc, n) == b + {id};
    SumAdd(DataLens(job), b, id);
    if s.senders[n].count == 0 {
      SumEmpty(DataLens(job), b);
    }
  }

  lemma OtherBatchSame(job: Job, s: State, n: nat, a: SendAct, k: nat)
    requires Usable(job.cfg) && Shape(job, s) && QueuePlaced(s) && SendersPlaced(s)
    requires SendEnabled(job, s, n, a) && k != n
    ensures Batch(SendApply(job, s, n, a).loc, k) == Batch(s.loc, k)
  {
    var t := SendApply(job, s, n, a);
    assert PhaseOk(s.loc, s.senders[n], n);
    forall id | 0 <= id < |s.loc| ensures t.loc[id] == InBatch(k) <==> s.loc[id] == InBatch(k) {
      SendLocs(job, s, n, a, id);
    }
  }

  lemma SendKeepsCounted(job: Job, s: State, n: nat, a: SendAct)
    requires Usable(job.cfg) && Shape(job, s) && QueuePlaced(s) && SendersPlaced(s) && Counted(job, s)
    requires SendEnabled(job, s, n, a)
    ensures Counted(job, SendApply(job, s, n, a))
  {
    var t := SendApply(job, s, n, a);
    SendOthers(job, s, n, a);
    forall k | 0 <= k < |t.senders| ensures BatchOk(job, t.loc, t.senders[k], k) {
      assert BatchOk(job, s.loc, s.senders[k], k);
      if k != n {
        OtherBatchSame(job, s, n, a, k);
      } else {
        OwnBatchCounted(job, s, n, a);
      }
    }
  }

  lemma OwnBatchCounted(job: Job, s: State, n: nat, a: SendAct)
    requires Usable(job.cfg) && Shape(job, s) && QueuePlaced(s) && SendersPlaced(s) && Counted(job, s)
    requires SendEnabled(job, s, n, a)
    ensures BatchOk(job, SendApply(job, s, n, a).loc, SendApply(job, s, n, a).senders[n], n)
  {
    var t := SendApply(job, s, n, a);
    var w := s.senders[n];
    assert BatchOk(job, s.loc, w, n);
    assert PhaseOk(s.loc, w, n);
    match a
    case TakeChunk =>
      if MustFlush(job, w, s.readQ[0]) {
        assert Batch(t.loc, n) == Batch(s.loc, n);
      } else {
        AppendCounted(job, s.(readQ := s.readQ[1..]), n, s.readQ[0]);
      }
    case FlushEnd =>
      if !w.phase.last {
        AppendCounted(job, s, n, w.incoming.value);
      }
    case SendOk =>
      assert Batch(t.loc, n) == {};
      SumEmpty(DataLens(job), {});
    case _ =>
  }

  // ---- the holdings

  ghost predicate UsesRes(s: State, a: SendAct) {
    a.AbortOneMem? || a.AbortOneWin? || (a.FreeOne? && a.id in s.res.hasMem)
  }

  ghost predicate IsAt(l: Loc, n: nat) {
    (l.Incoming? || l.InBatch? || l.OnWire? || l.Written? || l.Acked?) && l.s == n
  }

  lemma OwnLinkedStill(job: Job, s: State, n: nat, a: SendAct, id: nat, c: Claim)
    requires Usable(job.cfg) && Shape(job, s) && ReadersPlaced(s) && SendersPlaced(s)
    requires SendEnabled(job, s, n, a) && id < |s.loc| && !UsesRes(s, a)
    requires var t := SendApply(job, s, n, a); |t.loc| == |s.loc| && ReadersPlaced(t) && SendersPlaced(t)
    requires Linked(job, s, id, c) && (a.FreeOne? ==> !(id == a.id && c.mem))
    requires IsAt(s.loc[id], n) && !(a == TakeChunk && id == s.readQ[0])
    ensures Linked(job, SendApply(job, s, n, a), id, c)
  {
    var t := SendApply(job, s, n, a);
    assert LocAtSender(t.senders, id, t.loc[id]);
    assert PhaseOk(s.loc, s.senders[n], n);
    SendLocs(job, s, n, a, id);
  }

  lemma TakenIsLinked(job: Job, s: State, n: nat, id: nat, c: Claim)
    requires Usable(job.cfg) && Shape(job, s) && ReadersPlaced(s) && SendersPlaced(s)
    requires SendEnabled(job, s, n, TakeChunk) && id == s.readQ[0] && s.loc[id] == InReadCh
    requires var t := SendApply(job, s, n, TakeChunk); |t.loc| == |s.loc| && ReadersPlaced(t) && SendersPlaced(t)
    requires Linked(job, s, id, c)
    ensures Linked(job, SendApply(job, s, n, TakeChunk), id, c)
  {
    var t := SendApply(job, s, n, TakeChunk);
    assert LocAtSender(t.senders, id, t.loc[id]);
  }

  /** A step that touches no semaphore leaves every chunk with what its new place asks. */
  lemma SendLinkedStill(job: Job, s: State, n: nat, a: SendAct, id: nat, c: Claim)
    requires Usable(job.cfg) && Shape(job, s) && ReadersPlaced(s) && QueuePlaced(s) && SendersPlaced(s)
    requires SendEnabled(job, s, n, a) && id < |s.loc| && !UsesRes(s, a)
    requires var t := SendApply(job, s, n, a); |t.loc| == |s.loc| && ReadersPlaced(t) && SendersPlaced(t)
    requires Linked(job, s, id, c) && (a.FreeOne? ==> !(id == a.id && c.mem))
    ensures Linked(job, SendApply(job, s, n, a), id, c)
  {
    if a == TakeChunk && id == s.readQ[0] {
      TakenIsLinked(job, s, n, id, c);
    } else if IsAt(s.loc[id], n) {
      OwnLinkedStill(job, s, n, a, id, c);
    } else {
      var t := SendApply(job, s, n, a);
      assert LocAtSender(s.senders, id, s.loc[id]);
      assert PhaseOk(s.loc, s.senders[n], n);
      SendLocs(job, s, n, a, id);
      SendOthers(job, s, n, a);
      LinkUnmoved(job, s, t, id, c);
    }
  }

  lemma SendHeldStill(job: Job, s: State, n: nat, a: SendAct)
    requires Inv(job, s) && SendEnabled(job, s, n, a) && !UsesRes(s, a)
    requires var t := SendApply(job, s, n, a); Shape(job, t) && ReadersPlaced(t) && SendersPlaced(t)
    ensures Held(job, SendApply(job, s, n, a))
  {
    var t := SendApply(job, s, n, a);
    assert t.res == s.res;
    forall id | 0 <= id < |t.loc| ensures Linked(job, t, id, ClaimOf(t.res, id)) {
      SendLinkedStill(job, s, n, a, id, ClaimOf(s.res, id));
    }
  }

  lemma FreeOneLinked(job: Job, s: State, n: nat, id: nat, j: nat, c: Claim)
    requires Usable(job.cfg) && Shape(job, s) && ReadersPlaced(s) && SendersPlaced(s)
    requires SendEnabled(job, s, n, FreeOne(id)) && j < |s.loc|
    requires var t := SendApply(job, s, n, FreeOne(id)); |t.loc| == |s.loc| && ReadersPlaced(t) && SendersPlaced(t)
    requires Linked(job, s, j, c)
    ensures Linked(job, SendApply(job, s, n, FreeOne(id)), j, if j == id then c.(mem := false) else c)
  {
    assert LocAtSender(s.senders, j, s.loc[j]);
    assert PhaseOk(s.loc, s.senders[n], n);
  }

  lemma FreeOneHeld(job: Job, s: State, n: nat, id: nat)
    requires Inv(job, s) && SendEnabled(job, s, n, FreeOne(id)) && id in s.res.hasMem
    requires var t := SendApply(job, s, n, FreeOne(id)); Shape(job, t) && ReadersPlaced(t) && SendersPlaced(t)
    ensures Held(job, SendApply(job, s, n, FreeOne(id)))
  {
    var t := SendApply(job, s, n, FreeOne(id));
    FreeMemClaims(Sizes(job), s.res, id);
    forall j | 0 <= j < |t.loc| ensures Linked(job, t, j, ClaimOf(t.res, j)) {
      if j == id {
        FreeOneLinked(job, s, n, id, j, ClaimOf(s.res, j));
      } else {
        LinkWoken(job, s, j, ClaimOf(s.res, j), ClaimOf(t.res, j));
        FreeOneLinked(job, s, n, id, j, ClaimOf(t.res, j));
      }
    }
    OutOfRangeStill(s, t, id);
  }

  lemma OutOfRangeStill(s: State, t: State, id: nat)
    requires OthersWoke(s.res, t.res, id) && id < |s.loc| == |t.loc|
    requires forall j :: j in s.res.hasWin + WinWait(s.res) + s.res.rel ==> j < |s.loc|
    ensures forall j :: j in t.res.hasWin + WinWait(t.res) + t.res.rel ==> j < |t.loc|
  {
    forall j | j in t.res.hasWin + WinWait(t.res) + t.res.rel ensures j < |t.loc| {
      if j != id {
        assert Woke(ClaimOf(s.res, j), ClaimOf(t.res, j));
        assert j in s.res.hasWin + WinWait(s.res) + s.res.rel;
      }
    }
  }

  lemma AbortLinked(job: Job, s: State, n: nat, a: SendAct, j: nat, c: Claim)
    requires Usable(job.cfg) && Shape(job, s) && ReadersPlaced(s) && SendersPlaced(s)
    requires SendEnabled(job, s, n, a) && (a.AbortOneMem? || a.AbortOneWin?) && j < |s.loc|
    requires var t := SendApply(job, s, n, a); |t.loc| == |s.loc| && ReadersPlaced(t) && SendersPlaced(t)
    requires Linked(job, s, j, c)
    ensures j != a.id ==> Linked(job, SendApply(job, s, n, a), j, c)
    ensures j == a.id ==> c.win
    ensures j == a.id && a.AbortOneMem? ==> Linked(job, SendApply(job, s, n, a), j, c.(mem := false))
    ensures j == a.id && a.AbortOneWin? && !c.mem ==>
              Linked(job, SendApply(job, s, n, a), j, c.(win := false, rel := true))
  {
    assert LocAtSender(s.senders, j, s.loc[j]);
    assert PhaseOk(s.loc, s.senders[n], n);
  }

  lemma AbortHeld(job: Job, s: State, n: nat, a: SendAct)
    requires Inv(job, s) && SendEnabled(job, s, n, a) && (a.AbortOneMem? || a.AbortOneWin?)
    requires var t := SendApply(job, s, n, a); Shape(job, t) && ReadersPlaced(t) && SendersPlaced(t)
    ensures Held(job, SendApply(job, s, n, a))
  {
    var t := SendApply(job, s, n, a);
    var id := a.id;
    AbortLinked(job, s, n, a, id, ClaimOf(s.res, id));
    if a.AbortOneMem? { FreeMemClaims(Sizes(job), s.res, id); } else { FreeWinClaims(Sizes(job), s.res, id); }
    forall j | 0 <= j < |t.loc| ensures Linked(job, t, j, ClaimOf(t.res, j)) {
      if j != id {
        LinkWoken(job, s, j, ClaimOf(s.res, j), ClaimOf(t.res, j));
        AbortLinked(job, s, n, a, j, ClaimOf(t.res, j));
      }
    }
    OutOfRangeStill(s, t, id);
    AbortingIsFailed(s, n);
  }

  lemma AbortingIsFailed(s: State, n: nat)
    requires Failing(s) && n < |s.senders| && s.senders[n].phase.AbortBatch?
    ensures s.failed
  {
    assert BadSender(s.senders[n]);
  }

  lemma SendKeepsHeld(job: Job, s: State, n: nat, a: SendAct)
    requires Inv(job, s) && SendEnabled(job, s, n, a)
    requires var t := SendApply(job, s, n, a); Shape(job, t) && ReadersPlaced(t) && SendersPlaced(t)
    ensures Held(job, SendApply(job, s, n, a))
  {
    if !UsesRes(s, a) {
      SendHeldStill(job, s, n, a);
    } else if a.FreeOne? {
      FreeOneHeld(job, s, n, a.id);
    } else {
      AbortHeld(job, s, n, a);
    }
  }

  // ---- endings and failures

  lemma SendKeepsFailing(job: Job, s: State, n: nat, a: SendAct)
    requires Usable(job.cfg) && Shape(job, s) && Failing(s) && SendEnabled(job, s, n, a)
    ensures Failing(SendApply(job, s, n, a))
  {
    var t := SendApply(job, s, n, a);
    SendOthers(job, s, n, a);
    SendFails(job, s, n, a);
    OneSenderChanged(s, t, n);
  }

  lemma SendFails(job: Job, s: State, n: nat, a: SendAct)
    requires Usable(job.cfg) && Shape(job, s) && Failing(s) && SendEnabled(job, s, n, a)
    ensures var t := SendApply(job, s, n, a);
            && (t.failed <==> s.failed || BadSender(t.senders[n]))
            && (BadSender(s.senders[n]) ==> BadSender(t.senders[n]))
  {
    assert BadSender(s.senders[n]) ==> s.failed;
  }

  lemma OneSenderChanged(s: State, t: State, n: nat)
    requires Failing(s) && n < |s.senders| == |t.senders|
    requires forall k :: 0 <= k < |s.senders| && k != n ==> t.senders[k] == s.senders[k]
    requires t.feeder == s.feeder && t.readers == s.readers
    requires BadSender(s.senders[n]) ==> BadSender(t.senders[n])
    requires t.failed <==> s.failed || BadSender(t.senders[n])
    ensures Failing(t)
  {
    if i :| 0 <= i < |s.senders| && BadSender(s.senders[i]) {
      assert BadSender(t.senders[i]);
    }
    if i :| 0 <= i < |t.senders| && BadSender(t.senders[i]) {
      assert i == n || BadSender(s.senders[i]);
    }
  }

  lemma SendDrops(job: Job, s: State, n: nat, a: SendAct, id: nat)
    requires Usable(job.cfg) && Shape(job, s) && SendersPlaced(s) && Failing(s) && Endings(job, s)
    requires SendEnabled(job, s, n, a) && id < |s.loc|
    requires var t := SendApply(job, s, n, a); t.loc[id] == Dropped || t.loc[id] == Lost
    ensures s.failed
  {
    SendLocs(job, s, n, a, id);
    if SendApply(job, s, n, a).loc[id] != s.loc[id] {
      AbortingIsFailed(s, n);
    }
  }

  lemma SendKeepsEndings(job: Job, s: State, n: nat, a: SendAct)
    requires Usable(job.cfg) && Shape(job, s) && SendersPlaced(s) && Failing(s) && Endings(job, s)
    requires SendEnabled(job, s, n, a)
    ensures Endings(job, SendApply(job, s, n, a))
  {
    var t := SendApply(job, s, n, a);
    SendOthers(job, s, n, a);
    SendInputOver(job, s, n, a);
    forall id | 0 <= id < |t.loc| && (t.loc[id] == Dropped || t.loc[id] == Lost) ensures t.failed {
      SendDrops(job, s, n, a, id);
    }
  }

  lemma SendInputOver(job: Job, s: State, n: nat, a: SendAct)
    requires Usable(job.cfg) && Shape(job, s) && Endings(job, s) && SendEnabled(job, s, n, a)
    ensures var t := SendApply(job, s, n, a);
            && (t.failed ==> t.cancelled) && (s.failed ==> t.failed) && |t.loc| == |s.loc|
            && (t.readQ == s.readQ || t.readQ == s.readQ[1..])
            && (s.readQ == [] ==> t.readQ == [])
            && (InputOver(t.senders[n].phase) ==> InputOver(s.senders[n].phase) || a == InputClosed)
            && (t.senders[n].ack == AckEnded(true) ==>
                  s.senders[n].ack == AckEnded(true) && t.senders[n].phase.Ended?
                  && t.senders[n].acked == t.senders[n].recv == t.senders[n].sent)
  {
  }

  lemma SendKeepsInv(job: Job, s: State, n: nat, a: SendAct)
    requires Inv(job, s) && SendEnabled(job, s, n, a)
    ensures Inv(job, SendApply(job, s, n, a))
  {
    SendKeepsPlacement(job, s, n, a);
    SendKeepsSendersPlaced(job, s, n, a);
    SendKeepsCounted(job, s, n, a);
    SendKeepsHeld(job, s, n, a);
    SendKeepsFailing(job, s, n, a);
    SendKeepsEndings(job, s, n, a);
  }
}
