/** The source's reader on one path: any number of reads, each of which acquires the file,
    marks the path or finds it marked, and reads; and the close of the path by the commit
    drainer. */
module ReaderHandles {
  import opened Wrappers
  import opened FileCaches
  import HandleSafety
  import C = Contents
  import P = Protocol
  import I = Invariant
  import R = Resources
  import Runs
  import Configuration
  import W = Window

  datatype Phase =
    | Out
    | Acquired(h: nat)        // acquired, not yet looked at the mark
    | Surplus(h: nat)         // found the mark: its reference goes back
    | Reading(h: nat)
    | Finished

  /** The close deletes the mark and then releases; `owed` says whether the mark stood for
      a reference. */
  datatype Closer = Waiting | ReleaseDue(owed: bool) | Closed

  datatype State = State(slot: Slot, marked: bool, readers: seq<Phase>, closer: Closer)

  datatype Step =
    | Acquire(r: nat)
    | Mark(r: nat)
    | GiveBack(r: nat)
    | Finish(r: nat)
    | Unmark
    | CloseRelease

  ghost predicate AllFinished(s: State) {
    forall i :: 0 <= i < |s.readers| ==> s.readers[i].Finished?
  }

  /** The drainer closes a path when all its ids are released, and by then every read of
      it is over: `Guards.CloseFindsNoReader` is the proof. */
  ghost predicate Enabled(s: State, step: Step) {
    match step
    case Acquire(r) => r < |s.readers| && s.readers[r].Out?
    case Mark(r) => r < |s.readers| && s.readers[r].Acquired?
    case GiveBack(r) => r < |s.readers| && s.readers[r].Surplus?
    case Finish(r) => r < |s.readers| && s.readers[r].Reading?
    case Unmark => s.closer.Waiting? && AllFinished(s)
    case CloseRelease => s.closer.ReleaseDue?
  }

  ghost function Apply(s: State, step: Step): State
    requires Enabled(s, step)
  {
    match step
    case Acquire(r) =>
      var slot := FileCaches.Acquired(s.slot);
      s.(slot := slot, readers := s.readers[r := Phase.Acquired(slot.entry.value.handle)])
    case Mark(r) =>
      var h := s.readers[r].h;
      if s.marked then s.(readers := s.readers[r := Surplus(h)])
      else s.(marked := true, readers := s.readers[r := Reading(h)])
    case GiveBack(r) => s.(slot := Released(s.slot), readers := s.readers[r := Reading(s.readers[r].h)])
    case Finish(r) => s.(readers := s.readers[r := Finished])
    case Unmark => s.(marked := false, closer := ReleaseDue(s.marked))
    case CloseRelease => s.(slot := Released(s.slot), closer := Closed)
  }

  ghost predicate Start(s: State) {
    s.slot == FRESH && !s.marked && s.closer.Waiting? && forall i :: 0 <= i < |s.readers| ==> s.readers[i].Out?
  }

  ghost predicate Valid(s: State, steps: seq<Step>)
    decreases |steps|
  {
    steps == [] || (Enabled(s, steps[0]) && Valid(Apply(s, steps[0]), steps[1..]))
  }

  ghost function After(s: State, steps: seq<Step>): State
    requires Valid(s, steps)
    decreases |steps|
  {
    if steps == [] then s else After(Apply(s, steps[0]), steps[1..])
  }

  // ---- the count

  ghost function Ref(p: Phase): nat {
    if p.Acquired? || p.Surplus? then 1 else 0
  }

  ghost function Between(ps: seq<Phase>): nat {
    if ps == [] then 0 else Ref(ps[0]) + Between(ps[1..])
  }

  lemma {:induction false} BetweenUpdate(ps: seq<Phase>, i: nat, p: Phase)
    requires i < |ps|
    ensures Between(ps[i := p]) == Between(ps) - Ref(ps[i]) + Ref(p)
  {
    if i == 0 {
      assert ps[i := p][1..] == ps[1..];
    } else {
      assert ps[i := p][1..] == ps[1..][i - 1 := p];
      BetweenUpdate(ps[1..], i - 1, p);
    }
  }

  lemma {:induction false} BetweenAtLeast(ps: seq<Phase>, i: nat)
    requires i < |ps|
    ensures Ref(ps[i]) <= Between(ps)
  {
    if i > 0 {
      BetweenAtLeast(ps[1..], i - 1);
    }
  }

  lemma {:induction false} BetweenZero(ps: seq<Phase>)
    requires forall i :: 0 <= i < |ps| ==> Ref(ps[i]) == 0
    ensures Between(ps) == 0
  {
    if ps != [] {
      BetweenZero(ps[1..]);
    }
  }

  /** One for the mark, or for the release that is due in its place, and one for each
      reader between its acquire and the step that balances it. */
  ghost function Expected(s: State): nat {
    (if s.marked || s.closer == ReleaseDue(true) then 1 else 0) + Between(s.readers)
  }

  ghost predicate Counted(s: State) {
    match s.slot.entry
    case Some(e) => e.refCount == Expected(s) >= 1
    case None => Expected(s) == 0
  }

  /** A reader past its acquire uses the handle of the entry, and one that reads does so
      under the mark. */
  ghost predicate Uses(s: State) {
    forall i :: 0 <= i < |s.readers| ==>
      var p := s.readers[i];
      && (p.Acquired? || p.Surplus? || p.Reading? ==> s.slot.entry.Some? && p.h == s.slot.entry.value.handle)
      && (p.Surplus? || p.Reading? ==> s.marked)
  }

  ghost predicate Inv(s: State) {
    && Counted(s) && Uses(s)
    && (!s.closer.Waiting? ==> !s.marked && AllFinished(s))
    && HandleSafety.Handles(s.slot)
  }

  lemma StepCounts(s: State, step: Step)
    requires Inv(s) && Enabled(s, step)
    ensures Counted(Apply(s, step))
  {
    var t := Apply(s, step);
    if step.Acquire? || step.Mark? || step.GiveBack? || step.Finish? {
      BetweenUpdate(s.readers, step.r, t.readers[step.r]);
      BetweenAtLeast(s.readers, step.r);
    } else {
      BetweenZero(s.readers);
    }
  }

  lemma StepUses(s: State, step: Step)
    requires Inv(s) && Enabled(s, step)
    ensures Uses(Apply(s, step))
  {
    StepCounts(s, step);
    if step.GiveBack? {
      BetweenAtLeast(s.readers, step.r);
    }
  }

  lemma StepKeepsInv(s: State, step: Step)
    requires Inv(s) && Enabled(s, step)
    ensures Inv(Apply(s, step))
  {
    StepCounts(s, step);
    StepUses(s, step);
    HandleSafety.AcquiredHandles(s.slot);
    HandleSafety.ReleasedHandles(s.slot);
  }

  lemma {:induction false} RunKeepsInv(s: State, steps: seq<Step>)
    requires Inv(s) && Valid(s, steps)
    ensures Inv(After(s, steps))
    decreases |steps|
  {
    if steps != [] {
      StepKeepsInv(s, steps[0]);
      RunKeepsInv(Apply(s, steps[0]), steps[1..]);
    }
  }

  /** The reader's handle invariant in every interleaving: the count is what it should be,
      and nobody reads from a closed handle. */
  lemma ReadsUseAnOpenHandle(s: State, steps: seq<Step>, r: nat)
    requires Start(s) && Valid(s, steps) && r < |After(s, steps).readers|
    ensures var t := After(s, steps);
            && Counted(t)
            && (t.readers[r].Reading? ==>
                  t.slot.entry.Some? && t.readers[r].h == t.slot.entry.value.handle && t.readers[r].h !in t.slot.closes)
  {
    BetweenZero(s.readers);
    RunKeepsInv(s, steps);
  }

  /** After the close every handle that was opened for the path has been closed, exactly
      once, however many reads there were. */
  lemma CloseLeavesNothingOpen(s: State, steps: seq<Step>, h: nat)
    requires Start(s) && Valid(s, steps) && After(s, steps).closer.Closed? && h < After(s, steps).slot.opens
    ensures After(s, steps).slot.entry.None? && multiset(After(s, steps).slot.closes)[h] == 1
  {
    BetweenZero(s.readers);
    RunKeepsInv(s, steps);
    BetweenZero(After(s, steps).readers);
    HandleSafety.DistinctOnce(After(s, steps).slot.closes, h);
  }

  // ---- why no read is left when the drainer closes

  lemma ReleasedIdIsThrough(job: P.Job, s: P.State, id: nat)
    requires Configuration.Usable(job.cfg) && I.Inv(job, s) && id < s.res.win.ring.base
    ensures id < |s.loc| && (s.loc[id].Acked? || s.loc[id].Dropped?)
  {
    W.BaseIsLeastUnreleased(s.res.win.ring, id);
    Runs.WindowIdsInRange(job, s, id);
    assert I.Linked(job, s, id, I.ClaimOf(s.res, id));
  }

  /** In every state of every run of the pipeline, no reader is busy with an id that is
      released, in whatever phase. */
  lemma NoReadOfAReleasedId(job: P.Job, steps: seq<P.Step>, r: nat)
    requires Configuration.Usable(job.cfg) && P.Valid(job, steps) && r < |P.After(job, steps).readers|
    ensures var s := P.After(job, steps);
            s.readers[r].Busy? ==> s.res.win.ring.base <= s.readers[r].id < |job.blocks|
  {
    var s := P.After(job, steps);
    Runs.RunKeepsInv(job, steps);
    if s.readers[r].Busy? {
      if s.res.win.ring.base > s.readers[r].id {
        ReleasedIdIsThrough(job, s, s.readers[r].id);
      }
    }
  }

  // ---- the reader object

  class CephFSReader {
    const cache: FileCache
    var acquired: set<C.Path>

    /** Between calls, exactly the marked paths are open, each with one reference. */
    ghost predicate Valid()
      reads this, cache
    {
      && cache.Valid() && !cache.create
      && forall p :: match cache.SlotOf(p).entry
                     case Some(e) => p in acquired && e.refCount == 1 && p in cache.disk
                     case None => p !in acquired
    }

    constructor (disk: C.Files)
      ensures Valid() && fresh(cache) && cache.disk == disk && acquired == {}
    {
      cache := new FileCache(disk, false);
      acquired := {};
    }

    /** Reads the file's bytes, cut short at its end; the first read of a path leaves it
        open and marked, even if the read itself fails, and the others leave no trace. */
    method ReadAt(p: C.Path, off: nat, n: nat) returns (d: Option<seq<C.Byte>>)
      requires Valid()
      modifies this, cache
      ensures Valid() && cache.disk == old(cache.disk)
      ensures d.Some? ==> p in cache.disk && d.value == C.ReadAt(cache.disk[p], off, n)
      ensures acquired == old(acquired) + {p} || (d.None? && acquired == old(acquired))
      ensures forall q :: q != p || q in old(acquired) ==> cache.SlotOf(q) == old(cache.SlotOf(q))
    {
      var h := cache.Acquire(p, 0);
      if h.None? {
        return None;
      }
      if p in acquired {
        cache.Release(p);
      } else {
        acquired := acquired + {p};
      }
      if * {
        return None;
      }
      d := Some(C.ReadAt(cache.disk[p], off, n));
    }

    method CloseFile(p: C.Path)
      requires Valid()
      modifies this, cache
      ensures Valid() && cache.disk == old(cache.disk) && acquired == old(acquired) - {p}
      ensures cache.SlotOf(p).entry.None?
      ensures forall q :: q != p ==> cache.SlotOf(q) == old(cache.SlotOf(q))
    {
      acquired := acquired - {p};
      cache.Release(p);
    }
  }
}
