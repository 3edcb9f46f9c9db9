/** The steps of the destination and of the ack receivers keep the invariant. */
module StreamSteps {
  import opened Contents
  import opened Configuration
  import opened Resources
  import opened Protocol
  import opened Invariant
  import opened Claims
  import opened SenderSteps
  import M = Memory
  import W = Window

  lemma WireLocs(job: Job, s: State, n: nat, a: WireAct)
    requires Usable(job.cfg) && |s.loc| == |job.blocks| && WireEnabled(job, s, n, a)
    ensures var t := WireApply(job, s, n, a);
            && t.loc == (match a
                         case Write(id) => s.loc[id := Written(n, s.senders[n].recv)]
                         case Release(id) => s.loc[id := Acked(n)]
                         case _ => s.loc)
            && |t.senders| == |s.senders| && t.senders == s.senders[n := t.senders[n]]
            && t.senders[n].phase == s.senders[n].phase && t.senders[n].incoming == s.senders[n].incoming
            && t.senders[n].count == s.senders[n].count && t.senders[n].accum == s.senders[n].accum
            && t.senders[n].sent == s.senders[n].sent
            && t.senders[n].recv == s.senders[n].recv + (if a.Answer? then 1 else 0)
            && t.senders[n].acked == s.senders[n].acked + (if a.AnswerDone? then 1 else 0)
            && t.readers == s.readers && t.readQ == s.readQ && t.feeder == s.feeder
            && t.taken == s.taken && t.fed == s.fed
  {
  }

  lemma WireKeepsPlacement(job: Job, s: State, n: nat, a: WireAct)
    requires Usable(job.cfg) && Shape(job, s) && ReadersPlaced(s) && QueuePlaced(s)
    requires WireEnabled(job, s, n, a)
    ensures var t := WireApply(job, s, n, a); Shape(job, t) && ReadersPlaced(t) && QueuePlaced(t)
  {
    WireLocs(job, s, n, a);
    ReadersSeen(job, s, WireApply(job, s, n, a));
  }

  /** A sender's phase does not look at how far its requests have come. */
  lemma PhaseMoved(loc: seq<Loc>, moved: seq<Loc>, w: Sender, v: Sender, k: nat, n: nat)
    requires PhaseOk(loc, w, k) && |moved| == |loc| && v.acked <= v.recv <= v.sent
    requires v.phase == w.phase && v.incoming == w.incoming && v.count == w.count
    requires forall i :: 0 <= i < |loc| ==> moved[i] == loc[i] || (Sending(loc[i], n) && Sending(moved[i], n))
    ensures PhaseOk(moved, v, k)
  {
  }

  lemma WireKeepsPhases(job: Job, s: State, n: nat, a: WireAct, k: nat)
    requires Usable(job.cfg) && Shape(job, s) && SendersPlaced(s) && WireEnabled(job, s, n, a)
    requires k < |s.senders|
    ensures PhaseOk(WireApply(job, s, n, a).loc, WireApply(job, s, n, a).senders[k], k)
  {
    var t := WireApply(job, s, n, a);
    WireLocs(job, s, n, a);
    assert PhaseOk(s.loc, s.senders[k], k);
    PhaseMoved(s.loc, t.loc, s.senders[k], t.senders[k], k, n);
  }

  lemma WireKeepsLocs(job: Job, s: State, n: nat, a: WireAct, id: nat)
    requires Usable(job.cfg) && Shape(job, s) && SendersPlaced(s) && WireEnabled(job, s, n, a)
    requires id < |s.loc|
    ensures LocAtSender(WireApply(job, s, n, a).senders, id, WireApply(job, s, n, a).loc[id])
  {
    WireLocs(job, s, n, a);
    assert PhaseOk(s.loc, s.senders[n], n);
    assert LocAtSender(s.senders, id, s.loc[id]);
  }

  lemma WireKeepsSendersPlaced(job: Job, s: State, n: nat, a: WireAct)
    requires Usable(job.cfg) && Shape(job, s) && SendersPlaced(s) && WireEnabled(job, s, n, a)
    ensures SendersPlaced(WireApply(job, s, n, a))
  {
    var t := WireApply(job, s, n, a);
    WireLocs(job, s, n, a);
    forall k | 0 <= k < |t.senders| ensures PhaseOk(t.loc, t.senders[k], k) {
      WireKeepsPhases(job, s, n, a, k);
    }
    forall id | 0 <= id < |t.loc| ensures LocAtSender(t.senders, id, t.loc[id]) {
      WireKeepsLocs(job, s, n, a, id);
    }
  }

  lemma WireKeepsCounted(job: Job, s: State, n: nat, a: WireAct)
    requires Usable(job.cfg) && Shape(job, s) && Counted(job, s) && WireEnabled(job, s, n, a)
    ensures Counted(job, WireApply(job, s, n, a))
  {
    var t := WireApply(job, s, n, a);
    WireLocs(job, s, n, a);
    forall k | 0 <= k < |t.senders| ensures BatchOk(job, t.loc, t.senders[k], k) {
      assert BatchOk(job, s.loc, s.senders[k], k);
      assert Batch(t.loc, k) == Batch(s.loc, k);
    }
  }

  lemma WireLinked(job: Job, s: State, n: nat, a: WireAct, id: nat, c: Claim)
    requires Usable(job.cfg) && Shape(job, s) && ReadersPlaced(s) && SendersPlaced(s)
    requires WireEnabled(job, s, n, a) && id < |s.loc| && Linked(job, s, id, c)
    requires var t := WireApply(job, s, n, a); |t.loc| == |s.loc| && ReadersPlaced(t) && SendersPlaced(t)
    ensures a.Release? && id == a.id ==>
              c.win && Linked(job, WireApply(job, s, n, a), id, c.(win := false, rel := true))
    ensures !(a.Release? && id == a.id) ==> Linked(job, WireApply(job, s, n, a), id, c)
  {
    assert LocAtSender(s.senders, id, s.loc[id]);
    if a.Release? && id == a.id {
    } else {
      OtherLinked(job, s, n, a, id, c);
    }
  }

  lemma OtherLinked(job: Job, s: State, n: nat, a: WireAct, id: nat, c: Claim)
    requires Usable(job.cfg) && Shape(job, s) && ReadersPlaced(s) && SendersPlaced(s)
    requires WireEnabled(job, s, n, a) && id < |s.loc| && Linked(job, s, id, c) && !(a.Release? && id == a.id)
    requires var t := WireApply(job, s, n, a); |t.loc| == |s.loc| && ReadersPlaced(t) && SendersPlaced(t)
    ensures Linked(job, WireApply(job, s, n, a), id, c)
  {
    WireLocs(job, s, n, a);
    assert LocAtSender(s.senders, id, s.loc[id]);
    assert LocAtSender(WireApply(job, s, n, a).senders, id, WireApply(job, s, n, a).loc[id]);
  }

  lemma WireKeepsHeld(job: Job, s: State, n: nat, a: WireAct)
    requires Inv(job, s) && WireEnabled(job, s, n, a)
    requires var t := WireApply(job, s, n, a); Shape(job, t) && ReadersPlaced(t) && SendersPlaced(t)
    ensures Held(job, WireApply(job, s, n, a))
  {
    var t := WireApply(job, s, n, a);
    if a.Release? {
      WireLinked(job, s, n, a, a.id, ClaimOf(s.res, a.id));
      FreeWinClaims(Sizes(job), s.res, a.id);
      OutOfRangeStill(s, t, a.id);
    }
    forall j | 0 <= j < |t.loc| ensures Linked(job, t, j, ClaimOf(t.res, j)) {
      if !(a.Release? && j == a.id) {
        LinkWoken(job, s, j, ClaimOf(s.res, j), ClaimOf(t.res, j));
        WireLinked(job, s, n, a, j, ClaimOf(t.res, j));
      }
    }
  }

  lemma WireKeepsFlags(job: Job, s: State, n: nat, a: WireAct)
    requires Usable(job.cfg) && Shape(job, s) && SendersPlaced(s) && Failing(s) && Endings(job, s)
    requires WireEnabled(job, s, n, a)
    ensures Failing(WireApply(job, s, n, a)) && Endings(job, WireApply(job, s, n, a))
  {
    WireKeepsFailing(job, s, n, a);
    WireKeepsEndings(job, s, n, a);
  }

  lemma WireKeepsFailing(job: Job, s: State, n: nat, a: WireAct)
    requires Usable(job.cfg) && Shape(job, s) && Failing(s) && WireEnabled(job, s, n, a)
    ensures Failing(WireApply(job, s, n, a))
  {
    var t := WireApply(job, s, n, a);
    assert t.failed <==> s.failed || BadSender(t.senders[n]) by {
      assert BadSender(s.senders[n]) ==> s.failed;
    }
    OneSenderChanged(s, t, n);
  }

  lemma WireKeepsEndings(job: Job, s: State, n: nat, a: WireAct)
    requires Usable(job.cfg) && Shape(job, s) && SendersPlaced(s) && Endings(job, s) && WireEnabled(job, s, n, a)
    ensures Endings(job, WireApply(job, s, n, a))
  {
    WireLocs(job, s, n, a);
    assert PhaseOk(s.loc, s.senders[n], n);
  }

  lemma WireKeepsInv(job: Job, s: State, n: nat, a: WireAct)
    requires Inv(job, s) && WireEnabled(job, s, n, a)
    ensures Inv(job, WireApply(job, s, n, a))
  {
    WireKeepsPlacement(job, s, n, a);
    WireKeepsSendersPlaced(job, s, n, a);
    WireKeepsCounted(job, s, n, a);
    WireKeepsHeld(job, s, n, a);
    WireKeepsFlags(job, s, n, a);
  }
}
