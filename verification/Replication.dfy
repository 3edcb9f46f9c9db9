/** What the destination holds, at every moment of every run, and what a commit may
    rely on. */
module Replication {
  import opened Wrappers
  import opened Contents
  import opened Configuration
  import opened Resources
  import opened Protocol
  import opened Invariant
  import Runs
  import S = SenderSteps
  import T = StreamSteps
  import R = ReaderSteps
  import W = Window

  /** The blocks describe the source: within the file and the chunk size, and marked
      as zero only where the source is zero. */
  ghost predicate Describes(job: Job, b: Block) {
    var c := File(job.src, b.path);
    && b.len <= job.cfg.chunkSize
    && b.off + b.len <= b.total == |c|
    && (b.isZero ==> forall x :: b.off <= x < b.off + b.len ==> c[x] == 0)
  }

  ghost predicate Faithful(job: Job) {
    Usable(job.cfg) && forall i :: 0 <= i < |job.blocks| ==> Describes(job, job.blocks[i])
  }

  predicate Covers(b: Block, p: Path, x: nat) {
    b.path == p && b.off <= x < b.off + b.len
  }

  ghost predicate Landed(l: Loc) {
    l.Written? || l.Acked?
  }

  /** A block on this byte has been written. */
  ghost predicate Stored(job: Job, loc: seq<Loc>, p: Path, x: nat)
    requires |loc| == |job.blocks|
  {
    exists id :: 0 <= id < |loc| && Landed(loc[id]) && Covers(job.blocks[id], p, x)
  }

  ghost predicate Touched(job: Job, loc: seq<Loc>, p: Path)
    requires |loc| == |job.blocks|
  {
    exists id :: 0 <= id < |loc| && Landed(loc[id]) && job.blocks[id].path == p
  }

  /** Every byte is that of the source where a block has been written, and that of
      the destination's first contents elsewhere. */
  ghost predicate Mixed(job: Job, s: State, p: Path)
    requires |s.loc| == |job.blocks|
  {
    && (forall x: nat :: ByteAt(File(s.dest, p), x) ==
          if Stored(job, s.loc, p, x) then ByteAt(File(job.src, p), x) else ByteAt(File(job.dest0, p), x))
    && |File(s.dest, p)| ==
         if Touched(job, s.loc, p) then Max(|File(job.dest0, p)|, |File(job.src, p)|) else |File(job.dest0, p)|
  }

  /** The payload of a faithful block is the source's own bytes: reads are not cut
      short, and a run of zeros stands for zeros. */
  lemma PayloadIsSource(job: Job, id: nat)
    requires Faithful(job) && id < |job.blocks|
    ensures var b, d := job.blocks[id], Payload(WireOf(job, id));
            && |d| == b.len
            && (forall i :: 0 <= i < |d| ==> d[i] == File(job.src, b.path)[b.off + i])
  {
    var b := job.blocks[id];
    assert Describes(job, b);
    var c := File(job.src, b.path);
    if !b.isZero {
      var d := ReadAt(c, b.off, AcquireSize(job, id));
      assert forall i :: 0 <= i < |d| ==> d[i] == c[b.off + i];
    }
  }

  lemma OverlayWithSource(c: seq<Byte>, src: seq<Byte>, off: nat, d: seq<Byte>)
    requires off + |d| <= |src|
    requires forall i :: 0 <= i < |d| ==> d[i] == src[off + i]
    ensures var r := Overlay(Grow(c, |src|), off, d);
            && |r| == Max(|c|, |src|)
            && forall x: nat :: ByteAt(r, x) == if off <= x < off + |d| then ByteAt(src, x) else ByteAt(c, x)
  {
    var r := Overlay(Grow(c, |src|), off, d);
    forall x: nat ensures ByteAt(r, x) == if off <= x < off + |d| then ByteAt(src, x) else ByteAt(c, x) {
      assert ByteAt(Grow(c, |src|), x) == ByteAt(c, x);
      if off <= x < off + |d| {
        assert d[x - off] == src[off + (x - off)];
      }
    }
  }

  /** Storing a faithful block sets its bytes to the source's and no others. */
  lemma StoreSetsBlock(job: Job, dest: Files, id: nat, p: Path)
    requires Faithful(job) && id < |job.blocks|
    ensures var b, d := job.blocks[id], Store(job, dest, id);
            && (forall x: nat :: ByteAt(File(d, p), x) ==
                  if Covers(b, p, x) then ByteAt(File(job.src, p), x) else ByteAt(File(dest, p), x))
            && |File(d, p)| ==
                 if b.path == p then Max(|File(dest, p)|, |File(job.src, p)|) else |File(dest, p)|
  {
    var b := job.blocks[id];
    assert Describes(job, b);
    PayloadIsSource(job, id);
    if b.path == p {
      OverlayWithSource(File(dest, p), File(job.src, p), b.off, Payload(WireOf(job, id)));
    }
  }

  lemma WriteKeepsMixed(job: Job, s: State, t: State, id: nat, p: Path)
    requires Faithful(job) && id < |s.loc| == |job.blocks| == |t.loc| && Mixed(job, s, p)
    requires t.dest == Store(job, s.dest, id) && Landed(t.loc[id]) && t.loc == s.loc[id := t.loc[id]]
    ensures Mixed(job, t, p)
  {
    StoreSetsBlock(job, s.dest, id, p);
    forall x: nat ensures Stored(job, t.loc, p, x) <==> Stored(job, s.loc, p, x) || Covers(job.blocks[id], p, x) {
      StoredAfterWrite(job, s.loc, t.loc, id, p, x);
    }
    TouchedAfterWrite(job, s.loc, t.loc, id, p);
  }

  lemma StoredAfterWrite(job: Job, loc: seq<Loc>, loc': seq<Loc>, id: nat, p: Path, x: nat)
    requires |loc| == |loc'| == |job.blocks| && id < |loc| && Landed(loc'[id])
    requires loc' == loc[id := loc'[id]]
    ensures Stored(job, loc', p, x) <==> Stored(job, loc, p, x) || Covers(job.blocks[id], p, x)
  {
    if i :| 0 <= i < |loc| && Landed(loc[i]) && Covers(job.blocks[i], p, x) {
      assert Landed(loc'[i]);
    }
    if i :| 0 <= i < |loc'| && Landed(loc'[i]) && Covers(job.blocks[i], p, x) {
      assert i == id || Landed(loc[i]);
    }
  }

  lemma TouchedAfterWrite(job: Job, loc: seq<Loc>, loc': seq<Loc>, id: nat, p: Path)
    requires |loc| == |loc'| == |job.blocks| && id < |loc| && Landed(loc'[id])
    requires loc' == loc[id := loc'[id]]
    ensures Touched(job, loc', p) <==> Touched(job, loc, p) || job.blocks[id].path == p
  {
    if i :| 0 <= i < |loc| && Landed(loc[i]) && job.blocks[i].path == p {
      assert Landed(loc'[i]);
    }
    if i :| 0 <= i < |loc'| && Landed(loc'[i]) && job.blocks[i].path == p {
      assert i == id || Landed(loc[i]);
    }
  }

  // ---- no other step writes or unwrites

  ghost predicate SameLanded(a: seq<Loc>, b: seq<Loc>) {
    |a| == |b| && forall i :: 0 <= i < |a| ==> (Landed(a[i]) <==> Landed(b[i]))
  }

  lemma SendDoesNotWrite(job: Job, s: State, n: nat, a: SendAct)
    requires Usable(job.cfg) && Shape(job, s) && QueuePlaced(s) && SendersPlaced(s) && SendEnabled(job, s, n, a)
    ensures SameLanded(s.loc, SendApply(job, s, n, a).loc)
  {
    var t := SendApply(job, s, n, a);
    assert PhaseOk(s.loc, s.senders[n], n);
    forall id | 0 <= id < |s.loc| ensures Landed(s.loc[id]) <==> Landed(t.loc[id]) {
      S.SendLocs(job, s, n, a, id);
    }
  }

  lemma ReadDoesNotWrite(job: Job, s: State, r: nat, a: ReadAct)
    requires Usable(job.cfg) && Shape(job, s) && ReadersPlaced(s) && ReadEnabled(job, s, r, a)
    ensures SameLanded(s.loc, ReadApply(job, s, r, a).loc)
  {
    R.ReadMoves(job, s, r, a);
  }

  lemma OtherStepsDoNotWrite(job: Job, s: State, step: Step)
    requires Inv(job, s) && Enabled(job, s, step) && !(step.Stream? && step.wa.Write?)
    ensures SameLanded(s.loc, Apply(job, s, step).loc)
  {
    match step
    case Feeds(_) =>
    case Read(r, a) => ReadDoesNotWrite(job, s, r, a);
    case Send(n, a) => SendDoesNotWrite(job, s, n, a);
    case Stream(n, a) => T.WireLocs(job, s, n, a);
    case Cancel =>
    case Commit(_) =>
  }

  lemma MixedSame(job: Job, s: State, t: State, p: Path)
    requires |s.loc| == |job.blocks| && SameLanded(s.loc, t.loc) && t.dest == s.dest && Mixed(job, s, p)
    ensures Mixed(job, t, p)
  {
    forall x: nat ensures Stored(job, t.loc, p, x) <==> Stored(job, s.loc, p, x) {}
    assert Touched(job, t.loc, p) <==> Touched(job, s.loc, p);
  }

  /** In every state of every run, whatever the interleaving of readers, batches and
      streams, the destination is the source on the blocks written so far and its
      first contents elsewhere. */
  lemma {:induction false} DestinationIsMixed(job: Job, steps: seq<Step>, p: Path)
    requires Faithful(job) && Valid(job, steps)
    ensures Mixed(job, After(job, steps), p)
  {
    if steps == [] {
      assert forall x: nat :: !Stored(job, Init(job).loc, p, x);
    } else {
      var front, step := steps[..|steps| - 1], steps[|steps| - 1];
      var s := After(job, front);
      DestinationIsMixed(job, front, p);
      Runs.RunKeepsInv(job, front);
      if step.Stream? && step.wa.Write? {
        WriteKeepsMixed(job, s, Apply(job, s, step), step.wa.id, p);
      } else {
        OtherStepsDoNotWrite(job, s, step);
        StepFrame(job, s, step);
        MixedSame(job, s, Apply(job, s, step), p);
      }
    }
  }

  ghost predicate CoveredBy(blocks: seq<Block>, p: Path, x: nat) {
    exists id :: 0 <= id < |blocks| && Covers(blocks[id], p, x)
  }

  /** The blocks account for every byte in which a file of the destination may differ
      from the source, and the destination's file is no longer than the source's. */
  ghost predicate Accounts(job: Job, p: Path) {
    && |File(job.dest0, p)| <= |File(job.src, p)|
    && (|File(job.dest0, p)| < |File(job.src, p)| ==> HasBlock(job.blocks, p))
    && (forall x: nat :: !CoveredBy(job.blocks, p, x) ==> ByteAt(File(job.src, p), x) == ByteAt(File(job.dest0, p), x))
  }

  /** What a run that returns no error leaves: the source's bytes on every block, the first
      contents elsewhere, and at least the source's length if there is a block at all. */
  lemma SuccessfulRunLeaves(job: Job, steps: seq<Step>, p: Path)
    requires Faithful(job) && Valid(job, steps) && Succeeded(After(job, steps))
    ensures forall x: nat :: ByteAt(File(After(job, steps).dest, p), x) ==
              if CoveredBy(job.blocks, p, x) then ByteAt(File(job.src, p), x) else ByteAt(File(job.dest0, p), x)
    ensures |File(After(job, steps).dest, p)| ==
              if HasBlock(job.blocks, p) then Max(|File(job.dest0, p)|, |File(job.src, p)|) else |File(job.dest0, p)|
  {
    var s := After(job, steps);
    Runs.SuccessfulRunIsComplete(job, steps);
    DestinationIsMixed(job, steps, p);
    AllLanded(job, s.loc, p);
  }

  ghost predicate HasBlock(blocks: seq<Block>, p: Path) {
    exists id :: 0 <= id < |blocks| && blocks[id].path == p
  }

  lemma AllLanded(job: Job, loc: seq<Loc>, p: Path)
    requires |loc| == |job.blocks| && forall id :: 0 <= id < |loc| ==> loc[id].Acked?
    ensures forall x: nat :: Stored(job, loc, p, x) <==> CoveredBy(job.blocks, p, x)
    ensures Touched(job, loc, p) <==> HasBlock(job.blocks, p)
  {
    forall x: nat ensures Stored(job, loc, p, x) <==> CoveredBy(job.blocks, p, x) {
      if CoveredBy(job.blocks, p, x) {
        var id :| 0 <= id < |job.blocks| && Covers(job.blocks[id], p, x);
        assert Landed(loc[id]);
      }
    }
    if HasBlock(job.blocks, p) {
      var id :| 0 <= id < |job.blocks| && job.blocks[id].path == p;
      assert Landed(loc[id]);
    }
  }

  lemma SameBytes(d: seq<Byte>, c: seq<Byte>)
    requires |d| == |c| && forall x: nat :: ByteAt(d, x) == ByteAt(c, x)
    ensures d == c
  {
    assert forall x :: 0 <= x < |d| ==> d[x] == ByteAt(d, x) == ByteAt(c, x) == c[x];
  }

  /** Replication, exactly: a run that returns no error makes a file equal to the source's,
      byte for byte and in length, if and only if the blocks account for its differences. */
  lemma SuccessfulRunReplicatesIff(job: Job, steps: seq<Step>, p: Path)
    requires Faithful(job) && Valid(job, steps) && Succeeded(After(job, steps))
    ensures File(After(job, steps).dest, p) == File(job.src, p) <==> Accounts(job, p)
  {
    var d, c, c0 := File(After(job, steps).dest, p), File(job.src, p), File(job.dest0, p);
    SuccessfulRunLeaves(job, steps, p);
    if d == c {
      assert forall x: nat :: !CoveredBy(job.blocks, p, x) ==> ByteAt(c, x) == ByteAt(d, x) == ByteAt(c0, x);
    }
    if Accounts(job, p) {
      SameBytes(d, c);
    }
  }

  lemma SuccessfulRunReplicates(job: Job, steps: seq<Step>, p: Path)
    requires Faithful(job) && Valid(job, steps) && Succeeded(After(job, steps)) && Accounts(job, p)
    ensures File(After(job, steps).dest, p) == File(job.src, p)
  {
    SuccessfulRunReplicatesIff(job, steps, p);
  }

  /** The same at any moment, for a file all of whose blocks have been written. */
  lemma LandedFileIsSource(job: Job, s: State, p: Path)
    requires |s.loc| == |job.blocks| && Mixed(job, s, p) && Accounts(job, p)
    requires forall id :: 0 <= id < |s.loc| && job.blocks[id].path == p ==> Landed(s.loc[id])
    ensures File(s.dest, p) == File(job.src, p)
  {
    var d, c := File(s.dest, p), File(job.src, p);
    forall x: nat ensures ByteAt(d, x) == ByteAt(c, x) {
      if CoveredBy(job.blocks, p, x) {
        var id :| 0 <= id < |job.blocks| && Covers(job.blocks[id], p, x);
        assert Landed(s.loc[id]);
      } else {
        assert !Stored(job, s.loc, p, x);
      }
    }
    if |File(job.dest0, p)| < |c| {
      var id :| 0 <= id < |job.blocks| && job.blocks[id].path == p;
      assert Landed(s.loc[id]);
    }
    assert forall x :: 0 <= x < |d| ==> d[x] == ByteAt(d, x) == ByteAt(c, x) == c[x];
  }

  // ---- commits

  lemma ReadKeepsBase(job: Job, s: State, r: nat, a: ReadAct)
    requires Usable(job.cfg) && |s.loc| == |job.blocks| && W.Settled(s.res.win.ring) && ReadEnabled(job, s, r, a)
    ensures ReadApply(job, s, r, a).res.win.ring.base >= s.res.win.ring.base
  {
  }

  lemma SendKeepsBase(job: Job, s: State, n: nat, a: SendAct)
    requires Usable(job.cfg) && |s.loc| == |job.blocks| && W.Settled(s.res.win.ring) && SendEnabled(job, s, n, a)
    ensures SendApply(job, s, n, a).res.win.ring.base >= s.res.win.ring.base
  {
  }

  lemma BaseNeverRetreats(job: Job, s: State, step: Step)
    requires Usable(job.cfg) && |s.loc| == |job.blocks| && W.Settled(s.res.win.ring) && Enabled(job, s, step)
    ensures Apply(job, s, step).res.win.ring.base >= s.res.win.ring.base
  {
    match step
    case Feeds(_) =>
    case Read(r, a) => ReadKeepsBase(job, s, r, a);
    case Send(n, a) => SendKeepsBase(job, s, n, a);
    case Stream(_, a) =>
    case Cancel =>
    case Commit(_) =>
  }

  lemma {:induction false} CommitsAreBelowBase(job: Job, steps: seq<Step>, b: Boundary)
    requires Usable(job.cfg) && Valid(job, steps) && b in After(job, steps).commits
    ensures b.last < After(job, steps).res.win.ring.base
  {
    if steps != [] {
      var front := steps[..|steps| - 1];
      Runs.RunKeepsInv(job, front);
      BaseNeverRetreats(job, After(job, front), steps[|steps| - 1]);
      StepFrame(job, After(job, front), steps[|steps| - 1]);
      if b in After(job, front).commits {
        CommitsAreBelowBase(job, front, b);
      }
    }
  }

  /** Commit safety, in every run: once a file has been committed, each id up to its
      last block is acknowledged, or has been given up and then the run has failed. */
  lemma CommittedIdsAreAcked(job: Job, steps: seq<Step>, b: Boundary, id: nat)
    requires Usable(job.cfg) && Valid(job, steps) && b in After(job, steps).commits && id <= b.last
    ensures var s := After(job, steps);
            && id < |s.loc|
            && (s.loc[id].Acked? || (s.loc[id] == Dropped && s.failed))
  {
    var s := After(job, steps);
    Runs.RunKeepsInv(job, steps);
    CommitsAreBelowBase(job, steps, b);
    W.BaseIsLeastUnreleased(s.res.win.ring, id);
    Runs.WindowIdsInRange(job, s, id);
    assert Linked(job, s, id, ClaimOf(s.res, id));
    assert LocAtSender(s.senders, id, s.loc[id]);
  }

  /** So in a run that has not failed, a file whose blocks all lie at or below its
      boundary is, from the moment of its commit on, equal to the source's file. */
  lemma CommittedFileIsSource(job: Job, steps: seq<Step>, b: Boundary)
    requires Faithful(job) && Valid(job, steps) && b in After(job, steps).commits && !After(job, steps).failed
    requires forall id :: 0 <= id < |job.blocks| && job.blocks[id].path == b.path ==> id <= b.last
    requires Accounts(job, b.path)
    ensures File(After(job, steps).dest, b.path) == File(job.src, b.path)
  {
    var s := After(job, steps);
    DestinationIsMixed(job, steps, b.path);
    forall id | 0 <= id < |s.loc| && job.blocks[id].path == b.path ensures Landed(s.loc[id]) {
      CommittedIdsAreAcked(job, steps, b, id);
    }
    LandedFileIsSource(job, s, b.path);
  }

  // ---- failure

  /** A run in which a chunk was given up never returns without an error, however it
      goes on. */
  lemma {:induction false} AbandonmentIsReported(job: Job, steps: seq<Step>, more: seq<Step>)
    requires Usable(job.cfg) && Valid(job, steps) && Valid(job, steps + more)
    requires exists id :: 0 <= id < |job.blocks| &&
               (After(job, steps).loc[id] == Dropped || After(job, steps).loc[id] == Lost)
    ensures After(job, steps + more).failed && !Succeeded(After(job, steps + more))
  {
    if more == [] {
      assert steps + more == steps;
      Runs.RunKeepsInv(job, steps);
    } else {
      var front := steps + more[..|more| - 1];
      assert (steps + more)[..|steps + more| - 1] == front;
      AbandonmentIsReported(job, steps, more[..|more| - 1]);
      Runs.RunKeepsInv(job, front);
      StepFrame(job, After(job, front), (steps + more)[|steps + more| - 1]);
    }
    if Succeeded(After(job, steps + more)) {
      Runs.RunKeepsInv(job, steps + more);
      Runs.SucceededIsNotFailed(job, After(job, steps + more));
    }
  }
}
