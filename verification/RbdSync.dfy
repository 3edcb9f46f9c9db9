/** A whole sync of a block device: the pipeline, the wait for the last ack, the commit at
    the destination, and the Done signal. */
module RbdSync {
  import opened Contents
  import opened Configuration
  import P = Protocol
  import Runs
  import opened RbdTiling
  import opened RbdReplication

  /** Where the source is. */
  datatype Phase =
    | Piping
    | Waiting              // for the last id to be released
    | CommitDue
    | CommitSent
    | Committed            // the destination has synced, its answer is under way
    | DoneDue
    | Done
    | Failed

  /** `run` are the pipeline's steps so far, and `unsynced` the blocks that have been written
      to the device and that no sync has covered. */
  datatype State = State(run: seq<P.Step>, phase: Phase, unsynced: set<nat>)

  datatype Step =
    | Pipe(step: P.Step)
    | StreamSync                       // a write stream of the destination ends with a sync
    | PipeReturns(ok: bool)
    | SeeReleased
    | SendCommit(ok: bool)
    | CommitSync(ok: bool)
    | Answer(ok: bool)
    | SignalDone
    | GiveUp                           // the context is done

  ghost predicate Sane(job: P.Job, s: State) {
    Usable(job.cfg) && P.Valid(job, s.run)
  }

  ghost predicate Enabled(job: P.Job, s: State, step: Step)
    requires Sane(job, s)
  {
    match step
    case Pipe(p) => P.Enabled(job, P.After(job, s.run), p)
    case StreamSync => true
    case PipeReturns(ok) => s.phase.Piping? && (ok ==> P.Succeeded(P.After(job, s.run)))
    case SeeReleased => s.phase.Waiting? && |job.blocks| <= P.After(job, s.run).res.win.ring.base
    case SendCommit(_) => s.phase.CommitDue?
    case CommitSync(_) => s.phase.CommitSent?
    case Answer(_) => s.phase.Committed?
    case SignalDone => s.phase.DoneDue?
    case GiveUp => s.phase.Waiting?
  }

  ghost function Writes(step: P.Step): set<nat> {
    if step.Stream? && step.wa.Write? then {step.wa.id} else {}
  }

  /** Without a block nothing is committed. */
  ghost function Apply(job: P.Job, s: State, step: Step): State
    requires Sane(job, s) && Enabled(job, s, step)
  {
    match step
    case Pipe(p) => s.(run := s.run + [p], unsynced := s.unsynced + Writes(p))
    case StreamSync => s.(unsynced := {})
    case PipeReturns(ok) => s.(phase := if !ok then Failed else if job.blocks == [] then DoneDue else Waiting)
    case SeeReleased => s.(phase := CommitDue)
    case SendCommit(ok) => s.(phase := if ok then CommitSent else Failed)
    case CommitSync(ok) => if ok then s.(phase := Committed, unsynced := {}) else s.(phase := Failed)
    case Answer(ok) => s.(phase := if ok then DoneDue else Failed)
    case SignalDone => s.(phase := Done)
    case GiveUp => s.(phase := Failed)
  }

  const START := State([], Piping, {})

  ghost predicate Valid(job: P.Job, s: State, steps: seq<Step>)
    requires Sane(job, s)
    decreases |steps|
  {
    steps == [] ||
    (Enabled(job, s, steps[0]) && Sane(job, Apply(job, s, steps[0])) && Valid(job, Apply(job, s, steps[0]), steps[1..]))
  }

  ghost function After(job: P.Job, s: State, steps: seq<Step>): (t: State)
    requires Sane(job, s) && Valid(job, s, steps)
    ensures Sane(job, t)
    decreases |steps|
  {
    if steps == [] then s else After(job, Apply(job, s, steps[0]), steps[1..])
  }

  // ---- what every step keeps

  /** No worker does anything after the pipeline has returned without an error. */
  lemma SuccessStays(job: P.Job, s: P.State, step: P.Step)
    requires Usable(job.cfg) && |s.loc| == |job.blocks| && P.Succeeded(s) && P.Enabled(job, s, step)
    ensures P.Succeeded(P.Apply(job, s, step))
  {
    match step
    case Feeds(_) =>
    case Read(_, _) =>
    case Send(_, _) =>
    case Stream(n, a) => assert s.senders[n].ack == P.AckEnded(true);
    case Cancel =>
    case Commit(_) =>
  }

  /** In particular nothing is written. */
  lemma NoWriteAfterSuccess(job: P.Job, run: seq<P.Step>, step: P.Step)
    requires Usable(job.cfg) && P.Valid(job, run) && P.Succeeded(P.After(job, run))
    requires P.Enabled(job, P.After(job, run), step)
    ensures Writes(step) == {}
  {
    Runs.SuccessfulRunIsComplete(job, run);
  }

  ghost predicate PipeIsOver(p: Phase) {
    !p.Piping? && !p.Failed?
  }

  ghost predicate IsSynced(p: Phase) {
    p.Committed? || p.DoneDue? || p.Done?
  }

  ghost predicate Inv(job: P.Job, s: State) {
    && Sane(job, s)
    && (PipeIsOver(s.phase) ==> P.Succeeded(P.After(job, s.run)))
    && (IsSynced(s.phase) ==> s.unsynced == {})
    && (s.phase.Waiting? ==> job.blocks != [])
    && (forall id :: id in s.unsynced ==> id < |job.blocks|)
  }

  lemma PipeStep(job: P.Job, run: seq<P.Step>, step: P.Step)
    requires Usable(job.cfg) && P.Valid(job, run) && P.Enabled(job, P.After(job, run), step)
    ensures P.Valid(job, run + [step]) && P.After(job, run + [step]) == P.Apply(job, P.After(job, run), step)
  {
    assert (run + [step])[..|run|] == run;
  }

  lemma PipeKeepsInv(job: P.Job, s: State, p: P.Step)
    requires Inv(job, s) && Enabled(job, s, Pipe(p))
    ensures Inv(job, Apply(job, s, Pipe(p)))
  {
    PipeStep(job, s.run, p);
    if PipeIsOver(s.phase) {
      SuccessStays(job, P.After(job, s.run), p);
      NoWriteAfterSuccess(job, s.run, p);
    }
  }

  lemma StepKeepsInv(job: P.Job, s: State, step: Step)
    requires Inv(job, s) && Enabled(job, s, step)
    ensures Inv(job, Apply(job, s, step))
  {
    if step.Pipe? {
      PipeKeepsInv(job, s, step.step);
    }
  }

  lemma {:induction false} RunKeepsInv(job: P.Job, s: State, steps: seq<Step>)
    requires Inv(job, s) && Valid(job, s, steps)
    ensures Inv(job, After(job, s, steps))
    decreases |steps|
  {
    if steps != [] {
      StepKeepsInv(job, s, steps[0]);
      RunKeepsInv(job, Apply(job, s, steps[0]), steps[1..]);
    }
  }

  // ---- the results

  /** Done means durable: in every run in which the source has signalled Done, the pipeline
      has returned no error, every block is acknowledged, and no write to the device is
      left that a sync has not covered. */
  lemma DoneIsDurable(job: P.Job, steps: seq<Step>)
    requires Usable(job.cfg) && Valid(job, START, steps) && After(job, START, steps).phase.Done?
    ensures var s := After(job, START, steps);
            && P.Succeeded(P.After(job, s.run)) && s.unsynced == {}
            && (forall id :: 0 <= id < |job.blocks| ==> P.After(job, s.run).loc[id].Acked?)
  {
    var s := After(job, START, steps);
    RunKeepsInv(job, START, steps);
    Runs.SuccessfulRunIsComplete(job, s.run);
  }

  // ---- the same about the steps of the run

  /** How a step moves the source on. */
  ghost predicate Moves(job: P.Job, p: Phase, step: Step, q: Phase) {
    match step
    case Pipe(_) => q == p
    case StreamSync => q == p
    case PipeReturns(ok) => p.Piping? && q == if !ok then Failed else if job.blocks == [] then DoneDue else Waiting
    case SeeReleased => p.Waiting? && q.CommitDue?
    case SendCommit(ok) => p.CommitDue? && q == if ok then CommitSent else Failed
    case CommitSync(ok) => p.CommitSent? && q == if ok then Committed else Failed
    case Answer(ok) => p.Committed? && q == if ok then DoneDue else Failed
    case SignalDone => p.DoneDue? && q.Done?
    case GiveUp => p.Waiting? && q.Failed?
  }

  /** The phases that a run goes through. */
  ghost predicate Path(job: P.Job, ph: seq<Phase>, steps: seq<Step>) {
    |ph| == |steps| + 1 && forall i :: 0 <= i < |steps| ==> Moves(job, ph[i], steps[i], ph[i + 1])
  }

  lemma {:induction false} PathOf(job: P.Job, s: State, steps: seq<Step>) returns (ph: seq<Phase>)
    requires Sane(job, s) && Valid(job, s, steps)
    ensures Path(job, ph, steps) && ph[0] == s.phase && ph[|steps|] == After(job, s, steps).phase
    decreases |steps|
  {
    if steps == [] {
      ph := [s.phase];
    } else {
      var t := Apply(job, s, steps[0]);
      var rest := PathOf(job, t, steps[1..]);
      assert Moves(job, s.phase, steps[0], t.phase);
      ph := OneMore(job, s.phase, steps, rest);
    }
  }

  lemma OneMore(job: P.Job, p: Phase, steps: seq<Step>, rest: seq<Phase>) returns (ph: seq<Phase>)
    requires steps != [] && Path(job, rest, steps[1..]) && Moves(job, p, steps[0], rest[0])
    ensures Path(job, ph, steps) && ph[0] == p && ph[|steps|] == rest[|steps| - 1]
  {
    ph := [p] + rest;
    forall i | 0 <= i < |steps| ensures Moves(job, ph[i], steps[i], ph[i + 1]) {
      assert i > 0 ==> steps[i] == steps[1..][i - 1];
    }
  }

  lemma {:induction false} FailedStays(job: P.Job, ph: seq<Phase>, steps: seq<Step>, i: nat)
    requires Path(job, ph, steps) && i <= |steps| && ph[i].Failed?
    ensures ph[|steps|].Failed?
    decreases |steps| - i
  {
    if i < |steps| {
      assert Moves(job, ph[i], steps[i], ph[i + 1]);
      FailedStays(job, ph, steps, i + 1);
    }
  }

  /** An error of the pipeline, of the commit request, of the sync or of the answer, and a
      wait that is given up, fail the sync, however it goes on. */
  lemma FailureIsFinal(job: P.Job, s: State, steps: seq<Step>, i: nat)
    requires Sane(job, s) && Valid(job, s, steps) && i < |steps|
    requires steps[i] in {PipeReturns(false), SendCommit(false), CommitSync(false), Answer(false), GiveUp}
    ensures After(job, s, steps).phase.Failed?
  {
    var ph := PathOf(job, s, steps);
    assert Moves(job, ph[i], steps[i], ph[i + 1]);
    FailedStays(job, ph, steps, i + 1);
  }

  ghost predicate ToDone(job: P.Job, ph: seq<Phase>, steps: seq<Step>) {
    Path(job, ph, steps) && ph[|steps|].Done?
  }

  /** On the way to Done, the step at which the source leaves one of the phases `before`. */
  lemma {:induction false} LeavesAt(job: P.Job, ph: seq<Phase>, steps: seq<Step>, before: set<Phase>, i: nat)
    returns (j: nat)
    requires ToDone(job, ph, steps) && i <= |steps| && ph[i] in before && Done !in before
    ensures i <= j < |steps| && ph[j] in before && ph[j + 1] !in before && !ph[j + 1].Failed?
    ensures Moves(job, ph[j], steps[j], ph[j + 1])
    decreases |steps| - i
  {
    assert i < |steps|;
    assert Moves(job, ph[i], steps[i], ph[i + 1]);
    if ph[i + 1].Failed? {
      FailedStays(job, ph, steps, i + 1);
    }
    j := i;
    if ph[i + 1] in before {
      j := LeavesAt(job, ph, steps, before, i + 1);
    }
  }

  /** A sync of any block signals Done only after the pipeline, the commit request, the sync
      at the destination and its answer, in this order and each without an error. */
  lemma DoneFollowsCommit(job: P.Job, steps: seq<Step>)
    requires Usable(job.cfg) && Valid(job, START, steps) && After(job, START, steps).phase.Done?
    requires job.blocks != []
    ensures exists i: nat, j: nat, k: nat, l: nat ::
              && i < j < k < l < |steps| && steps[i] == PipeReturns(true)
              && steps[j] == SendCommit(true) && steps[k] == CommitSync(true) && steps[l] == Answer(true)
  {
    var ph := PathOf(job, START, steps);
    var i, j, k, l := AllInOrder(job, ph, steps);
  }

  lemma AllInOrder(job: P.Job, ph: seq<Phase>, steps: seq<Step>) returns (i: nat, j: nat, k: nat, l: nat)
    requires ToDone(job, ph, steps) && ph[0].Piping? && job.blocks != []
    ensures i < j < k < l < |steps| && steps[i] == PipeReturns(true)
    ensures steps[j] == SendCommit(true) && steps[k] == CommitSync(true) && steps[l] == Answer(true)
  {
    i := LeavesAt(job, ph, steps, {Piping}, 0);
    j := LeavesAt(job, ph, steps, {Waiting, CommitDue}, i + 1);
    k := LeavesAt(job, ph, steps, {CommitSent}, j + 1);
    l := LeavesAt(job, ph, steps, {Committed}, k + 1);
  }

  lemma {:induction false} WithoutCommit(job: P.Job, ph: seq<Phase>, steps: seq<Step>, i: nat)
    requires Path(job, ph, steps) && job.blocks == [] && i <= |steps| && ph[0].Piping?
    ensures ph[i] in {Piping, DoneDue, Done, Failed}
  {
    if i > 0 {
      WithoutCommit(job, ph, steps, i - 1);
      assert Moves(job, ph[i - 1], steps[i - 1], ph[i]);
    }
  }

  /** And a sync without a block commits nothing. */
  lemma NothingToCommit(job: P.Job, steps: seq<Step>, i: nat)
    requires Usable(job.cfg) && Valid(job, START, steps) && job.blocks == [] && i < |steps|
    ensures !steps[i].SendCommit? && !steps[i].CommitSync? && !steps[i].Answer?
  {
    var ph := PathOf(job, START, steps);
    WithoutCommit(job, ph, steps, i);
    assert Moves(job, ph[i], steps[i], ph[i + 1]);
  }

  lemma {:induction false} NoWriteFrom(job: P.Job, s: State, steps: seq<Step>, i: nat)
    requires Sane(job, s) && Valid(job, s, steps) && P.Succeeded(P.After(job, s.run)) && i < |steps|
    ensures steps[i].Pipe? && steps[i].step.Stream? ==> !steps[i].step.wa.Write?
    decreases |steps|
  {
    if steps[0].Pipe? {
      var p := steps[0].step;
      PipeStep(job, s.run, p);
      SuccessStays(job, P.After(job, s.run), p);
      NoWriteAfterSuccess(job, s.run, p);
    }
    if i > 0 {
      NoWriteFrom(job, Apply(job, s, steps[0]), steps[1..], i - 1);
    }
  }

  /** Every write comes before the pipeline returns without an error, hence before the sync
      that the commit asks for. */
  lemma {:induction false} WritesPrecedeReturn(job: P.Job, s: State, steps: seq<Step>, w: nat, i: nat)
    requires Sane(job, s) && Valid(job, s, steps) && w < |steps| && i < |steps|
    requires steps[w].Pipe? && steps[w].step.Stream? && steps[w].step.wa.Write? && steps[i] == PipeReturns(true)
    ensures w < i
    decreases |steps|
  {
    if i == 0 {
      NoWriteFrom(job, s, steps, w);
    } else if w > 0 {
      WritesPrecedeReturn(job, Apply(job, s, steps[0]), steps[1..], w - 1, i - 1);
    }
  }

  /** With a full diff of an image that is zero outside its extents, Done means that the
      device holds the image, durably. */
  lemma DoneFullDiffIsReplicated(job: P.Job, exts: Extents, steps: seq<Step>)
    requires DiffJob(job, true, exts)
    requires forall x :: 0 <= x < |File(job.src, DEVICE)| && !InUnion(exts, x) ==> File(job.src, DEVICE)[x] == 0
    requires Valid(job, START, steps) && After(job, START, steps).phase.Done?
    ensures var s := After(job, START, steps);
            && Holds(File(P.After(job, s.run).dest, DEVICE), File(job.src, DEVICE), File(job.dest0, DEVICE))
            && s.unsynced == {}
  {
    DoneIsDurable(job, steps);
    FullDiffReplicates(job, exts, After(job, START, steps).run);
  }

  /** With an incremental diff, if and only if image and device agreed outside its extents. */
  lemma DoneIncrementalIff(job: P.Job, exts: Extents, steps: seq<Step>)
    requires DiffJob(job, false, exts)
    requires Valid(job, START, steps) && After(job, START, steps).phase.Done?
    ensures var s := After(job, START, steps);
            && s.unsynced == {}
            && (Holds(File(P.After(job, s.run).dest, DEVICE), File(job.src, DEVICE), File(job.dest0, DEVICE)) <==>
                  forall x :: 0 <= x < |File(job.src, DEVICE)| && !InUnion(exts, x) ==>
                    File(job.src, DEVICE)[x] == File(job.dest0, DEVICE)[x])
  {
    DoneIsDurable(job, steps);
    IncrementalReplicatesIff(job, exts, After(job, START, steps).run);
  }

  /** The wait for the acks never waits: the last id is released when it begins. */
  lemma WaitIsOver(job: P.Job, steps: seq<Step>)
    requires Usable(job.cfg) && Valid(job, START, steps) && After(job, START, steps).phase.Waiting?
    ensures Enabled(job, After(job, START, steps), SeeReleased)
  {
    RunKeepsInv(job, START, steps);
    DoneFollowsEveryAck(job, After(job, START, steps).run);
  }
}
