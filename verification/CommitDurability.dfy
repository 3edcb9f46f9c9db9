/** One file at the destination, end to end: the pipeline together with the open handles of
    the path. A stream opens the file when it has a block of it to write, and the commit
    server starts on the path when its boundary has been committed. That no stream opens or
    writes the file after that is not assumed but follows from the pipeline. */
module CommitDurability {
  import opened Contents
  import opened Configuration
  import P = Protocol
  import H = HandleSafety
  import FileCaches
  import FI = FileIterator
  import opened FileReplication
  import Guards

  /** The pipeline's steps, what has become of the path's handles, and how: the processes
      of `h` are the write streams and, last, the commit of the path. */
  datatype State = State(run: seq<P.Step>, h: H.State, trace: seq<H.Step>)

  datatype Step =
    | Pipe(step: P.Step)
    | Open(n: nat)
    | Write(n: nat, id: nat)
    | Handle(a: H.Step)

  ghost function Streams(job: P.Job): nat
    requires Usable(job.cfg)
  {
    job.cfg.dataSendWorkers
  }

  ghost function Fresh(k: nat): (h: H.State)
    ensures H.Start(h) && |h.procs| == k + 1 && h.writes == 0
    ensures forall i :: 0 <= i <= k ==> h.procs[i].commit == (i == k)
  {
    H.State(FileCaches.FRESH, seq(k + 1, i requires 0 <= i < k + 1 => H.Proc(i == k, H.Out)), 0, 0, {}, false)
  }

  ghost function Start(job: P.Job): State
    requires Usable(job.cfg)
  {
    State([], Fresh(Streams(job)), [])
  }

  ghost predicate IsWriteTo(job: P.Job, p: Path, step: P.Step) {
    step.Stream? && step.wa.Write? && step.wa.id < |job.blocks| && job.blocks[step.wa.id].path == p
  }

  /** How often a run writes to a path. */
  ghost function WritesTo(job: P.Job, run: seq<P.Step>, p: Path): nat {
    if run == [] then 0
    else WritesTo(job, run[..|run| - 1], p) + if IsWriteTo(job, p, run[|run| - 1]) then 1 else 0
  }

  /** A block of the path has arrived on the stream and is to be written. */
  ghost predicate Due(job: P.Job, p: Path, run: seq<P.Step>, n: nat, id: nat)
    requires Usable(job.cfg) && P.Valid(job, run)
  {
    IsWriteTo(job, p, P.Stream(n, P.Write(id))) && P.Enabled(job, P.After(job, run), P.Stream(n, P.Write(id)))
  }

  ghost predicate Enabled(job: P.Job, b: Boundary, s: State, step: Step)
    requires Usable(job.cfg) && P.Valid(job, s.run)
  {
    match step
    case Pipe(p) => P.Enabled(job, P.After(job, s.run), p) && !IsWriteTo(job, b.path, p)
    case Open(n) => H.Ready(s.h, H.Step(n, H.Acquire)) && exists id :: Due(job, b.path, s.run, n, id)
    case Write(n, id) => H.Ready(s.h, H.Step(n, H.Write)) && Due(job, b.path, s.run, n, id)
    case Handle(a) =>
      && H.Ready(s.h, a) && !a.act.Acquire? && !a.act.Write?
      && (a.proc == Streams(job) && a.act.Begin? ==> b in P.After(job, s.run).commits)
  }

  ghost function Moved(s: State, a: H.Step): State
    requires H.Ready(s.h, a)
  {
    s.(h := H.Apply(s.h, a), trace := s.trace + [a])
  }

  ghost function Apply(job: P.Job, b: Boundary, s: State, step: Step): State
    requires Usable(job.cfg) && P.Valid(job, s.run) && Enabled(job, b, s, step)
  {
    match step
    case Pipe(p) => s.(run := s.run + [p])
    case Open(n) => Moved(s, H.Step(n, H.Acquire))
    case Write(n, id) => Moved(s, H.Step(n, H.Write)).(run := s.run + [P.Stream(n, P.Write(id))])
    case Handle(a) => Moved(s, a)
  }

  ghost predicate Valid(job: P.Job, b: Boundary, s: State, steps: seq<Step>)
    requires Usable(job.cfg) && P.Valid(job, s.run)
    decreases |steps|
  {
    steps == [] ||
    (&& Enabled(job, b, s, steps[0])
     && var t := Apply(job, b, s, steps[0]);
        P.Valid(job, t.run) && Valid(job, b, t, steps[1..]))
  }

  ghost function After(job: P.Job, b: Boundary, s: State, steps: seq<Step>): (t: State)
    requires Usable(job.cfg) && P.Valid(job, s.run) && Valid(job, b, s, steps)
    ensures P.Valid(job, t.run)
    decreases |steps|
  {
    if steps == [] then s else After(job, b, Apply(job, b, s, steps[0]), steps[1..])
  }

  // ---- what every step keeps

  /** The handles have a history of their own, and the commit is not started before the
      boundary is committed. */
  ghost predicate Inv(job: P.Job, b: Boundary, s: State) {
    && Usable(job.cfg) && P.Valid(job, s.run)
    && H.Valid(Fresh(Streams(job)), s.trace) && s.h == H.After(Fresh(Streams(job)), s.trace)
    && |s.h.procs| == Streams(job) + 1
    && (forall i :: 0 <= i < |s.h.procs| ==> s.h.procs[i].commit == (i == Streams(job)))
    && (!s.h.procs[Streams(job)].phase.Out? ==> b in P.After(job, s.run).commits)
    && s.h.writes == WritesTo(job, s.run, b.path)
  }

  lemma Longer(job: P.Job, run: seq<P.Step>, step: P.Step, p: Path)
    requires Usable(job.cfg) && P.Valid(job, run) && P.Enabled(job, P.After(job, run), step)
    ensures P.Valid(job, run + [step]) && P.After(job, run + [step]) == P.Apply(job, P.After(job, run), step)
    ensures P.After(job, run).commits <= P.After(job, run + [step]).commits
    ensures WritesTo(job, run + [step], p) == WritesTo(job, run, p) + if IsWriteTo(job, p, step) then 1 else 0
  {
    assert (run + [step])[..|run|] == run;
    P.StepFrame(job, P.After(job, run), step);
  }

  lemma MovedKeeps(k: nat, s: State, a: H.Step)
    requires H.Valid(Fresh(k), s.trace) && s.h == H.After(Fresh(k), s.trace) && H.Enabled(s.h, a)
    ensures H.Valid(Fresh(k), Moved(s, a).trace) && Moved(s, a).h == H.After(Fresh(k), Moved(s, a).trace)
  {
    H.Extend(Fresh(k), s.trace, a);
  }

  lemma ProcsKept(h: H.State, a: H.Step)
    requires H.Ready(h, a)
    ensures var t := H.Apply(h, a);
            && |t.procs| == |h.procs| && (forall i :: 0 <= i < |h.procs| ==> t.procs[i].commit == h.procs[i].commit)
            && (forall i :: 0 <= i < |h.procs| && i != a.proc ==> t.procs[i] == h.procs[i])
            && t.writes == h.writes + if a.act.Write? then 1 else 0
  {
  }

  /** While a block of the path is to be written, its commit has not started. */
  lemma DueIsBeforeCommit(job: P.Job, m: FI.Mode, fs: seq<FI.FileIn>, b: Boundary, s: State, n: nat, id: nat)
    requires FileJob(job, m, fs) && b in FI.Bounds(m, fs, 0) && Inv(job, b, s) && Due(job, b.path, s.run, n, id)
    ensures H.NoCommitYet(s.h)
  {
    if b in P.After(job, s.run).commits {
      Guards.NoWriteAfterCommit(job, m, fs, b, s.run, n, id);
    }
  }

  lemma OpenKeepsInv(job: P.Job, m: FI.Mode, fs: seq<FI.FileIn>, b: Boundary, s: State, n: nat)
    requires FileJob(job, m, fs) && b in FI.Bounds(m, fs, 0) && Inv(job, b, s) && Enabled(job, b, s, Open(n))
    ensures Inv(job, b, Apply(job, b, s, Open(n)))
  {
    var id :| Due(job, b.path, s.run, n, id);
    DueIsBeforeCommit(job, m, fs, b, s, n, id);
    MovedKeeps(Streams(job), s, H.Step(n, H.Acquire));
    ProcsKept(s.h, H.Step(n, H.Acquire));
  }

  lemma WriteKeepsInv(job: P.Job, m: FI.Mode, fs: seq<FI.FileIn>, b: Boundary, s: State, n: nat, id: nat)
    requires FileJob(job, m, fs) && b in FI.Bounds(m, fs, 0) && Inv(job, b, s) && Enabled(job, b, s, Write(n, id))
    ensures Inv(job, b, Apply(job, b, s, Write(n, id)))
  {
    DueIsBeforeCommit(job, m, fs, b, s, n, id);
    MovedKeeps(Streams(job), s, H.Step(n, H.Write));
    ProcsKept(s.h, H.Step(n, H.Write));
    Longer(job, s.run, P.Stream(n, P.Write(id)), b.path);
  }

  lemma HandleKeepsInv(job: P.Job, b: Boundary, s: State, a: H.Step)
    requires Inv(job, b, s) && Enabled(job, b, s, Handle(a))
    ensures Inv(job, b, Apply(job, b, s, Handle(a)))
  {
    MovedKeeps(Streams(job), s, a);
    ProcsKept(s.h, a);
  }

  lemma StepKeepsInv(job: P.Job, m: FI.Mode, fs: seq<FI.FileIn>, b: Boundary, s: State, step: Step)
    requires FileJob(job, m, fs) && b in FI.Bounds(m, fs, 0) && Inv(job, b, s) && Enabled(job, b, s, step)
    ensures Inv(job, b, Apply(job, b, s, step))
  {
    match step
    case Pipe(p) => Longer(job, s.run, p, b.path);
    case Open(n) => OpenKeepsInv(job, m, fs, b, s, n);
    case Write(n, id) => WriteKeepsInv(job, m, fs, b, s, n, id);
    case Handle(a) => HandleKeepsInv(job, b, s, a);
  }

  lemma {:induction false} RunKeepsInv(job: P.Job, m: FI.Mode, fs: seq<FI.FileIn>, b: Boundary,
                                       s: State, steps: seq<Step>)
    requires FileJob(job, m, fs) && b in FI.Bounds(m, fs, 0) && Inv(job, b, s) && Valid(job, b, s, steps)
    ensures Inv(job, b, After(job, b, s, steps))
    decreases |steps|
  {
    if steps != [] {
      StepKeepsInv(job, m, fs, b, s, steps[0]);
      RunKeepsInv(job, m, fs, b, Apply(job, b, s, steps[0]), steps[1..]);
    }
  }

  // ---- the result

  /** A committed file is the source's file, durably: in every run of the pipeline and the
      handles together, once the commit of a boundary is through, no sync has failed and
      the run has not, the destination's file equals the source's and every one of the
      writes to it has been synced. */
  lemma CommittedFileIsDurable(job: P.Job, m: FI.Mode, fs: seq<FI.FileIn>, b: Boundary, steps: seq<Step>)
    requires FileJob(job, m, fs) && b in FI.Bounds(m, fs, 0)
    requires forall k :: 0 <= k < |fs| && fs[k].path == b.path ==> Agreed(job, m, fs[k])
    requires Valid(job, b, Start(job), steps)
    requires var s := After(job, b, Start(job), steps);
             && |s.h.procs| > Streams(job) && s.h.procs[Streams(job)].phase.Done?
             && !s.h.failed && !P.After(job, s.run).failed
    ensures var s := After(job, b, Start(job), steps);
            && File(P.After(job, s.run).dest, b.path) == File(job.src, b.path)
            && s.h.unsynced == {} && s.h.writes == WritesTo(job, s.run, b.path)
  {
    var s := After(job, b, Start(job), steps);
    RunKeepsInv(job, m, fs, b, Start(job), steps);
    CommitIsSafe(job, m, fs, b, s.run);
    H.CommitIsDurable(Fresh(Streams(job)), s.trace, Streams(job));
  }

  /** In the steps of its handles: every write is followed by the begin of a sync and by its
      end without an error. */
  lemma WritesAreSynced(job: P.Job, m: FI.Mode, fs: seq<FI.FileIn>, b: Boundary, steps: seq<Step>, i: nat)
    requires FileJob(job, m, fs) && b in FI.Bounds(m, fs, 0) && Valid(job, b, Start(job), steps)
    requires var s := After(job, b, Start(job), steps);
             && |s.h.procs| > Streams(job) && s.h.procs[Streams(job)].phase.Done? && !s.h.failed
             && i < |s.trace| && s.trace[i].act.Write?
    ensures var t := After(job, b, Start(job), steps).trace;
            exists k: nat, l: nat ::
              i < k < l < |t| && t[k] == H.Step(t[l].proc, H.Begin) && t[l].act == H.EndSync(true)
  {
    RunKeepsInv(job, m, fs, b, Start(job), steps);
    H.CommittedWritesAreSynced(Fresh(Streams(job)), After(job, b, Start(job), steps).trace, Streams(job), i);
  }
}
