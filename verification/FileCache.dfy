/** The reference-counted cache of open files. Every operation locks, and looks at, the
    entry of one path only; `Slot` is what one path sees of the cache, and the functions
    on it are the locked sections. */
module FileCaches {
  import opened Wrappers
  import opened Contents

  datatype Entry = Entry(handle: nat, refCount: int)

  /** The entry, how many handles have been opened, and which have been closed. */
  datatype Slot = Slot(entry: Option<Entry>, opens: nat, closes: seq<nat>)

  const FRESH := Slot(None, 0, [])

  function Acquired(s: Slot): Slot {
    match s.entry
    case Some(e) => s.(entry := Some(e.(refCount := e.refCount + 1)))
    case None => s.(entry := Some(Entry(s.opens, 1)), opens := s.opens + 1)
  }

  function Released(s: Slot): Slot {
    match s.entry
    case None => s
    case Some(e) =>
      if e.refCount - 1 <= 0 then s.(entry := None, closes := s.closes + [e.handle])
      else s.(entry := Some(e.(refCount := e.refCount - 1)))
  }

  /** The first locked section of a sync takes a reference that keeps the file open. */
  function Guarded(s: Slot): Slot {
    match s.entry
    case None => s
    case Some(e) => s.(entry := Some(e.(refCount := e.refCount + 1)))
  }

  ghost function SlotIn(slots: map<Path, Slot>, p: Path): Slot {
    if p in slots then slots[p] else FRESH
  }

  class FileCache {
    const create: bool                // opened for writing, or for reading only
    var slots: map<Path, Slot>
    var disk: Files

    ghost function SlotOf(p: Path): Slot
      reads this
    {
      SlotIn(slots, p)
    }

    /** Whatever is in the cache has a reference. */
    ghost predicate Valid()
      reads this
    {
      forall p :: p in slots && slots[p].entry.Some? ==> slots[p].entry.value.refCount >= 1
    }

    constructor (disk: Files, create: bool)
      ensures Valid() && this.disk == disk && this.create == create && forall p :: SlotOf(p) == FRESH
    {
      slots, this.disk, this.create := map[], disk, create;
    }

    method Get(p: Path) returns (s: Slot)
      ensures s == SlotOf(p)
    {
      s := if p in slots then slots[p] else FRESH;
    }

    method Put(p: Path, s: Slot)
      requires Valid() && (s.entry.Some? ==> s.entry.value.refCount >= 1)
      modifies this`slots
      ensures Valid()
      ensures SlotOf(p) == s && forall q :: q != p ==> SlotOf(q) == old(SlotOf(q))
    {
      slots := slots[p := s];
    }

    /** Only the first reference opens the file and extends it to its size, creating it if
        it may. It may fail before or after the file was created; then no reference is taken,
        and an empty file may be left behind. */
    method Acquire(p: Path, total: nat) returns (h: Option<nat>)
      requires Valid()
      modifies this
      ensures Valid()
      ensures forall q :: q != p ==> SlotOf(q) == old(SlotOf(q))
      ensures old(SlotOf(p)).entry.Some? ==> h == Some(old(SlotOf(p)).entry.value.handle) && disk == old(disk)
      ensures h.None? ==> SlotOf(p) == old(SlotOf(p))
      ensures h.None? ==> disk == old(disk) || (create && p !in old(disk) && disk == old(disk)[p := []])
      ensures h.Some? ==> SlotOf(p) == Acquired(old(SlotOf(p))) && SlotOf(p).entry.value.handle == h.value
      ensures h.Some? && old(SlotOf(p)).entry.None? ==>
                (create || p in old(disk)) && disk == old(disk)[p := Grow(File(old(disk), p), total)]
    {
      var s := Get(p);
      if s.entry.Some? {
        Put(p, Acquired(s));
        return Some(s.entry.value.handle);
      }
      if !create && p !in disk {
        return None;
      }
      if * {
        return None;
      }
      disk := disk[p := if p in disk then disk[p] else []];
      if total > 0 {
        if * {
          return None;
        }
        if |disk[p]| < total {
          if * {
            return None;
          }
          disk := disk[p := disk[p] + Zeros(total - |disk[p]|)];
        }
      }
      Put(p, Acquired(s));
      h := Some(s.opens);
    }

    method Release(p: Path)
      requires Valid()
      modifies this`slots
      ensures Valid()
      ensures SlotOf(p) == Released(old(SlotOf(p)))
      ensures forall q :: q != p ==> SlotOf(q) == old(SlotOf(q))
    {
      var s := Get(p);
      Put(p, Released(s));
    }

    /** Without interference the guard reference comes and goes: one reference is given
        back, whether the sync succeeds or not, and the file is closed if it was the last. A
        path that is not open is no error. */
    method SyncAndRelease(p: Path) returns (ok: bool)
      requires Valid()
      modifies this`slots
      ensures Valid() && SlotOf(p) == Released(old(SlotOf(p))) && (old(SlotOf(p)).entry.None? ==> ok)
      ensures forall q :: q != p ==> SlotOf(q) == old(SlotOf(q))
    {
      var s := Get(p);
      if s.entry.None? {
        return true;
      }
      Put(p, Guarded(s));
      ok := *;
      Release(p);
      Release(p);
    }
  }
}

/** Streams and the commit server on one path of the destination's cache. A stream
    acquires the file with its first block, writes, and at its end syncs and releases; the
    commit server syncs and releases without having acquired. All of them interleave. */
module HandleSafety {
  import opened Wrappers
  import opened FileCaches

  /** Between the two locked sections of a sync the file is synced; `covers` are the
      writes that were there when the sync began. */
  datatype Phase =
    | Out
    | Holds(h: nat)
    | Syncing(h: nat, covers: set<(nat, nat)>)
    | GuardDue
    | OwnDue
    | Done

  datatype Proc = Proc(commit: bool, phase: Phase)

  /** `unsynced` are the writes no sync has covered yet, by writer and number; `stolen`
      counts the references that were released without having been acquired. */
  datatype State = State(slot: Slot, procs: seq<Proc>, stolen: nat,
                         writes: nat, unsynced: set<(nat, nat)>, failed: bool)

  datatype Act = Acquire | Write | Begin | EndSync(ok: bool) | ReleaseGuard | ReleaseOwn

  datatype Step = Step(proc: nat, act: Act)

  ghost predicate NoCommitYet(s: State) {
    forall i :: 0 <= i < |s.procs| && s.procs[i].commit ==> s.procs[i].phase.Out?
  }

  /** What the process itself must be at. */
  ghost predicate Ready(s: State, step: Step) {
    step.proc < |s.procs| &&
    var p := s.procs[step.proc];
    match step.act
    case Acquire => !p.commit && p.phase.Out?
    case Write => p.phase.Holds?
    case Begin => if p.commit then p.phase.Out? else p.phase.Holds?
    case EndSync(_) => p.phase.Syncing?
    case ReleaseGuard => p.phase.GuardDue?
    case ReleaseOwn => p.phase.OwnDue?
  }

  /** A stream takes the file and writes only before the path is committed, because a
      commit is sent after the path's last block is acknowledged: in `CommitDurability` this
      is proved of the pipeline. */
  ghost predicate Enabled(s: State, step: Step) {
    Ready(s, step) && (step.act.Acquire? || step.act.Write? ==> NoCommitYet(s))
  }

  ghost function Move(s: State, i: nat, ph: Phase): State
    requires i < |s.procs|
  {
    s.(procs := s.procs[i := s.procs[i].(phase := ph)])
  }

  ghost function Apply(s: State, step: Step): State
    requires Ready(s, step)
  {
    var i := step.proc;
    var p := s.procs[i];
    match step.act
    case Acquire =>
      var slot := Acquired(s.slot);
      Move(s, i, Holds(slot.entry.value.handle)).(slot := slot)
    case Write => s.(writes := s.writes + 1, unsynced := s.unsynced + {(i, s.writes)})
    case Begin =>
      if s.slot.entry.None? then Move(s, i, Done)
      else Move(s, i, Syncing(s.slot.entry.value.handle, s.unsynced)).(slot := Guarded(s.slot))
    case EndSync(ok) =>
      Move(s, i, GuardDue).(failed := s.failed || !ok,
                            unsynced := if ok then s.unsynced - p.phase.covers else s.unsynced)
    case ReleaseGuard => Move(s, i, OwnDue).(slot := Released(s.slot))
    case ReleaseOwn =>
      Move(s, i, Done).(slot := Released(s.slot),
                        stolen := s.stolen + if p.commit && s.slot.entry.Some? then 1 else 0)
  }

  ghost predicate Start(s: State) {
    && s.slot == FRESH && s.stolen == 0 && s.unsynced == {} && !s.failed
    && forall i :: 0 <= i < |s.procs| ==> s.procs[i].phase.Out?
  }

  ghost predicate Valid(s: State, steps: seq<Step>)
    decreases |steps|
  {
    steps == [] || (Enabled(s, steps[0]) && Valid(Apply(s, steps[0]), steps[1..]))
  }

  ghost function After(s: State, steps: seq<Step>): State
    requires Valid(s, steps)
    decreases |steps|
  {
    if steps == [] then s else After(Apply(s, steps[0]), steps[1..])
  }

  // ---- counting references

  /** The references a process has taken and not given back. */
  ghost function Refs(p: Proc): nat {
    match p.phase
    case Out => 0
    case Holds(_) => 1
    case Syncing(_, _) => if p.commit then 1 else 2
    case GuardDue => if p.commit then 1 else 2
    case OwnDue => if p.commit then 0 else 1
    case Done => 0
  }

  ghost function Total(ps: seq<Proc>): nat {
    if ps == [] then 0 else Refs(ps[0]) + Total(ps[1..])
  }

  lemma {:induction false} TotalUpdate(ps: seq<Proc>, i: nat, p: Proc)
    requires i < |ps|
    ensures Total(ps[i := p]) == Total(ps) - Refs(ps[i]) + Refs(p)
  {
    if i == 0 {
      assert ps[i := p][1..] == ps[1..];
    } else {
      assert ps[i := p][1..] == ps[1..][i - 1 := p];
      TotalUpdate(ps[1..], i - 1, p);
    }
  }

  lemma {:induction false} TotalAtLeast(ps: seq<Proc>, i: nat)
    requires i < |ps|
    ensures Refs(ps[i]) <= Total(ps)
  {
    if i > 0 {
      TotalAtLeast(ps[1..], i - 1);
    }
  }

  lemma {:induction false} TotalZero(ps: seq<Proc>)
    requires forall i :: 0 <= i < |ps| ==> Refs(ps[i]) == 0
    ensures Total(ps) == 0
  {
    if ps != [] {
      TotalZero(ps[1..]);
    }
  }

  // ---- the invariant

  /** At most one process releases a reference that is not its own: at most one commit of a
      path is ever sent (`CommitDrainer.NoFileIsCommittedTwice`). */
  ghost predicate OneCommit(ps: seq<Proc>) {
    forall i, j :: 0 <= i < |ps| && 0 <= j < |ps| && ps[i].commit && ps[j].commit ==> i == j
  }

  ghost predicate Counted(s: State) {
    match s.slot.entry
    case Some(e) => e.refCount == Total(s.procs) - s.stolen >= 1
    case None => Total(s.procs) <= s.stolen
  }

  ghost predicate Stolen(s: State) {
    && s.stolen <= 1
    && (forall i :: 0 <= i < |s.procs| && s.procs[i].commit && s.stolen == 1 ==> s.procs[i].phase.Done?)
    && (s.stolen == 1 ==> exists i :: 0 <= i < |s.procs| && s.procs[i].commit)
  }

  /** Every handle but that of the entry has been closed, and none twice. */
  ghost predicate Handles(slot: Slot) {
    && (forall i :: 0 <= i < |slot.closes| ==> slot.closes[i] < slot.opens)
    && (forall i, j :: 0 <= i < j < |slot.closes| ==> slot.closes[i] != slot.closes[j])
    && (slot.entry.Some? ==> slot.entry.value.handle < slot.opens)
    && (forall h :: 0 <= h < slot.opens ==> (h in slot.closes <==> slot.entry.None? || slot.entry.value.handle != h))
  }

  ghost predicate Current(s: State) {
    forall i :: 0 <= i < |s.procs| && (s.procs[i].phase.Holds? || s.procs[i].phase.Syncing?) && s.slot.entry.Some? ==>
      s.procs[i].phase.h == s.slot.entry.value.handle
  }

  ghost predicate Inv(s: State) {
    OneCommit(s.procs) && Counted(s) && Stolen(s) && Handles(s.slot) && Current(s)
  }

  /** A reference taken keeps the entry there, except for the one that may be stolen. */
  lemma SyncingIsOpen(s: State, i: nat)
    requires OneCommit(s.procs) && Counted(s) && Stolen(s)
    requires i < |s.procs| && (s.procs[i].phase.Syncing? || s.procs[i].phase.GuardDue?)
    ensures s.slot.entry.Some?
  {
    TotalAtLeast(s.procs, i);
  }

  lemma ReleasedHandles(slot: Slot)
    requires Handles(slot)
    ensures Handles(Released(slot))
  {
    var r := Released(slot);
    if slot.entry.Some? && r.entry.None? {
      assert slot.entry.value.handle !in slot.closes;
      forall h | 0 <= h < r.opens ensures h in r.closes {
        assert h in slot.closes || h == slot.entry.value.handle;
      }
    }
  }

  lemma AcquiredHandles(slot: Slot)
    requires Handles(slot)
    ensures Handles(Acquired(slot))
  {
    if slot.entry.None? {
      var r := Acquired(slot);
      forall h | 0 <= h < r.opens ensures h in r.closes <==> r.entry.value.handle != h {
        if h < slot.opens { assert h in slot.closes; }
      }
    }
  }

  lemma NothingStolenYet(s: State)
    requires Stolen(s) && NoCommitYet(s)
    ensures s.stolen == 0
  {
  }

  lemma StepCounts(s: State, step: Step)
    requires OneCommit(s.procs) && Counted(s) && Stolen(s) && Enabled(s, step)
    ensures Counted(Apply(s, step))
  {
    match step.act
    case Acquire => AcquireCounts(s, step);
    case Begin => BeginCounts(s, step);
    case ReleaseGuard => ReleaseCounts(s, step);
    case ReleaseOwn => ReleaseCounts(s, step);
    case _ => TotalUpdate(s.procs, step.proc, Apply(s, step).procs[step.proc]);
  }

  lemma AcquireCounts(s: State, step: Step)
    requires Counted(s) && Stolen(s) && Enabled(s, step) && step.act.Acquire?
    ensures Counted(Apply(s, step))
  {
    TotalUpdate(s.procs, step.proc, Apply(s, step).procs[step.proc]);
    NothingStolenYet(s);
  }

  lemma BeginCounts(s: State, step: Step)
    requires Counted(s) && Stolen(s) && Enabled(s, step) && step.act.Begin?
    ensures Counted(Apply(s, step))
  {
    TotalUpdate(s.procs, step.proc, Apply(s, step).procs[step.proc]);
    TotalAtLeast(s.procs, step.proc);
  }

  lemma ReleaseCounts(s: State, step: Step)
    requires OneCommit(s.procs) && Counted(s) && Stolen(s) && Enabled(s, step)
    requires step.act.ReleaseGuard? || step.act.ReleaseOwn?
    ensures Counted(Apply(s, step))
  {
    TotalUpdate(s.procs, step.proc, Apply(s, step).procs[step.proc]);
    TotalAtLeast(s.procs, step.proc);
    if step.act.ReleaseGuard? {
      SyncingIsOpen(s, step.proc);
    }
  }

  lemma StepSteals(s: State, step: Step)
    requires OneCommit(s.procs) && Stolen(s) && Enabled(s, step)
    ensures OneCommit(Apply(s, step).procs) && Stolen(Apply(s, step))
  {
    var t, i := Apply(s, step), step.proc;
    assert forall j :: 0 <= j < |s.procs| ==> t.procs[j].commit == s.procs[j].commit;
    assert t.procs[i].commit == s.procs[i].commit;
  }

  lemma StepKeepsInv(s: State, step: Step)
    requires Inv(s) && Enabled(s, step)
    ensures Inv(Apply(s, step))
  {
    StepCounts(s, step);
    StepSteals(s, step);
    StepKeepsHandles(s, step);
    StepKeepsCurrent(s, step);
  }

  lemma StepKeepsHandles(s: State, step: Step)
    requires Handles(s.slot) && Enabled(s, step)
    ensures Handles(Apply(s, step).slot)
  {
    AcquiredHandles(s.slot);
    ReleasedHandles(s.slot);
  }

  /** Before the first acquire nobody holds a handle, and no other step opens one. */
  lemma StepKeepsCurrent(s: State, step: Step)
    requires Counted(s) && Stolen(s) && Current(s) && Enabled(s, step)
    ensures Current(Apply(s, step))
  {
    if step.act.Acquire? && s.slot.entry.None? {
      NothingStolenYet(s);
      forall j | 0 <= j < |s.procs| ensures !s.procs[j].phase.Holds? && !s.procs[j].phase.Syncing? {
        TotalAtLeast(s.procs, j);
      }
    }
  }

  lemma {:induction false} RunKeepsInv(s: State, steps: seq<Step>)
    requires Inv(s) && Valid(s, steps)
    ensures Inv(After(s, steps))
    decreases |steps|
  {
    if steps != [] {
      StepKeepsInv(s, steps[0]);
      RunKeepsInv(Apply(s, steps[0]), steps[1..]);
    }
  }

  lemma StartInv(s: State)
    requires Start(s) && OneCommit(s.procs)
    ensures Inv(s)
  {
    TotalZero(s.procs);
  }

  /** In every interleaving with at most one commit of the path, no handle is closed while
      a sync on it is running, and no handle is closed twice. */
  lemma NoCloseDuringSync(s: State, steps: seq<Step>, i: nat)
    requires Start(s) && OneCommit(s.procs) && Valid(s, steps) && i < |After(s, steps).procs|
    ensures var t := After(s, steps);
            && (t.procs[i].phase.Syncing? ==> t.procs[i].phase.h !in t.slot.closes)
            && (forall a, b :: 0 <= a < b < |t.slot.closes| ==> t.slot.closes[a] != t.slot.closes[b])
  {
    StartInv(s);
    RunKeepsInv(s, steps);
    var t := After(s, steps);
    if t.procs[i].phase.Syncing? {
      SyncingIsOpen(t, i);
    }
  }

  /** When all are through, every handle that was opened has been closed, exactly once. */
  lemma EveryHandleIsClosed(s: State, steps: seq<Step>, h: nat)
    requires Start(s) && OneCommit(s.procs) && Valid(s, steps) && h < After(s, steps).slot.opens
    requires forall i :: 0 <= i < |After(s, steps).procs| ==>
               After(s, steps).procs[i].phase.Done? || After(s, steps).procs[i].phase.Out?
    ensures After(s, steps).slot.entry.None? && multiset(After(s, steps).slot.closes)[h] == 1
  {
    StartInv(s);
    RunKeepsInv(s, steps);
    var t := After(s, steps);
    TotalZero(t.procs);
    DistinctOnce(t.slot.closes, h);
  }

  lemma {:induction false} DistinctOnce(s: seq<nat>, h: nat)
    requires h in s && forall i, j :: 0 <= i < j < |s| ==> s[i] != s[j]
    ensures multiset(s)[h] == 1
  {
    assert s == [s[0]] + s[1..];
    if s[0] == h {
      assert h !in s[1..];
    } else {
      DistinctOnce(s[1..], h);
    }
  }

  // ---- what has reached the disk

  /** Every write that is not yet synced is that of a stream which will still sync it. */
  ghost predicate Owed(s: State) {
    forall w :: w in s.unsynced ==>
      w.0 < |s.procs| && !s.procs[w.0].commit
      && (s.procs[w.0].phase.Holds? || (s.procs[w.0].phase.Syncing? && w in s.procs[w.0].phase.covers))
  }

  ghost predicate CommitCovers(s: State) {
    forall i :: 0 <= i < |s.procs| && s.procs[i].commit ==>
      match s.procs[i].phase
      case Syncing(_, covers) => s.unsynced <= covers
      case GuardDue => s.unsynced == {}
      case OwnDue => s.unsynced == {}
      case Done => s.unsynced == {}
      case _ => true
  }

  ghost predicate Durable(s: State) {
    s.failed || (Owed(s) && CommitCovers(s))
  }

  /** A path without an entry has nothing left to sync. */
  lemma NoEntryIsSynced(s: State)
    requires Counted(s) && Stolen(s) && Owed(s) && CommitCovers(s) && s.slot.entry.None?
    ensures s.unsynced == {}
  {
    if s.stolen == 1 {
      var c :| 0 <= c < |s.procs| && s.procs[c].commit;
      assert s.procs[c].phase.Done?;
    } else {
      forall w | w in s.unsynced ensures false {
        TotalAtLeast(s.procs, w.0);
      }
    }
  }

  lemma StepKeepsOwed(s: State, step: Step)
    requires Inv(s) && Owed(s) && CommitCovers(s) && Enabled(s, step) && !Apply(s, step).failed
    ensures Owed(Apply(s, step))
  {
    if step.act.Begin? && s.slot.entry.None? {
      NoEntryIsSynced(s);
    }
  }

  lemma StepKeepsCovers(s: State, step: Step)
    requires Inv(s) && Owed(s) && CommitCovers(s) && Enabled(s, step) && !Apply(s, step).failed
    ensures CommitCovers(Apply(s, step))
  {
    if step.act.Begin? && s.slot.entry.None? {
      NoEntryIsSynced(s);
    }
  }

  lemma {:induction false} RunKeepsDurable(s: State, steps: seq<Step>)
    requires Inv(s) && Durable(s) && Valid(s, steps)
    ensures Durable(After(s, steps))
    decreases |steps|
  {
    if steps != [] {
      var t := Apply(s, steps[0]);
      StepKeepsInv(s, steps[0]);
      if !t.failed {
        StepKeepsOwed(s, steps[0]);
        StepKeepsCovers(s, steps[0]);
      }
      RunKeepsDurable(t, steps[1..]);
    }
  }

  /** A commit is durable: when the commit server is through with the path, and no sync has
      failed, every write to the file has been synced, although the streams still run. And
      whenever no handle is open, nothing unsynced is left behind. */
  lemma CommitIsDurable(s: State, steps: seq<Step>, c: nat)
    requires Start(s) && OneCommit(s.procs) && Valid(s, steps) && !After(s, steps).failed
    requires c < |After(s, steps).procs|
    ensures var t := After(s, steps);
            (t.procs[c].commit && t.procs[c].phase.Done?) || t.slot.entry.None? ==> t.unsynced == {}
  {
    StartInv(s);
    RunKeepsInv(s, steps);
    RunKeepsDurable(s, steps);
    if After(s, steps).slot.entry.None? {
      NoEntryIsSynced(After(s, steps));
    }
  }

  // ---- the same about the steps of the run

  ghost predicate Covers(s: State, p: nat, w: (nat, nat)) {
    p < |s.procs| && s.procs[p].phase.Syncing? && w in s.procs[p].phase.covers
  }

  /** A write that is no longer unsynced was covered by a sync that has ended well. */
  lemma {:induction false} SyncEnded(s: State, steps: seq<Step>, w: (nat, nat)) returns (e: nat)
    requires Valid(s, steps) && w in s.unsynced && w !in After(s, steps).unsynced
    ensures e < |steps| && steps[e].act == EndSync(true)
    ensures Valid(s, steps[..e]) && Covers(After(s, steps[..e]), steps[e].proc, w)
    decreases |steps|
  {
    var t := Apply(s, steps[0]);
    if w in t.unsynced {
      e := SyncEnded(t, steps[1..], w);
      assert steps[..e + 1][1..] == steps[1..][..e];
      e := e + 1;
    } else {
      e := 0;
    }
  }

  lemma {:induction false} SyncBegan(s: State, steps: seq<Step>, p: nat, w: (nat, nat)) returns (b: nat)
    requires Valid(s, steps) && !Covers(s, p, w) && Covers(After(s, steps), p, w)
    ensures b < |steps| && steps[b] == Step(p, Begin)
    decreases |steps|
  {
    var t := Apply(s, steps[0]);
    if Covers(t, p, w) {
      b := 0;
    } else {
      b := SyncBegan(t, steps[1..], p, w);
      b := b + 1;
    }
  }

  /** The writes are numbered in order. */
  ghost predicate InSequence(s: State) {
    && (forall w :: w in s.unsynced ==> w.1 < s.writes)
    && (forall p: nat, w: (nat, nat) :: Covers(s, p, w) ==> w.1 < s.writes)
  }

  lemma StepKeepsSequence(s: State, step: Step)
    requires InSequence(s) && Enabled(s, step)
    ensures InSequence(Apply(s, step))
  {
    var t := Apply(s, step);
    forall p: nat, w: (nat, nat) | Covers(t, p, w) ensures w.1 < t.writes {
      assert Covers(s, p, w) || w in s.unsynced;
    }
  }

  /** Every write that is no longer unsynced is followed by a sync that began after it and
      has ended well. */
  lemma {:induction false} SyncFollowsWrite(s: State, steps: seq<Step>, i: nat) returns (b: nat, e: nat)
    requires InSequence(s) && Valid(s, steps) && After(s, steps).unsynced == {}
    requires i < |steps| && steps[i].act.Write?
    ensures i < b < e < |steps| && steps[b] == Step(steps[e].proc, Begin) && steps[e].act == EndSync(true)
    decreases |steps|
  {
    var t, rest := Apply(s, steps[0]), steps[1..];
    if i > 0 {
      StepKeepsSequence(s, steps[0]);
      b, e := SyncFollowsWrite(t, rest, i - 1);
      b, e := b + 1, e + 1;
    } else {
      var w := (steps[0].proc, s.writes);
      e := SyncEnded(t, rest, w);
      assert t.procs == s.procs;
      if Covers(t, rest[e].proc, w) {
        assert Covers(s, rest[e].proc, w);
      }
      b := SyncBegan(t, rest[..e], rest[e].proc, w);
      b, e := b + 1, e + 1;
    }
  }

  /** So when a commit is through and no sync has failed, every write is followed by the
      begin of a sync and by its end without an error. */
  lemma CommittedWritesAreSynced(s: State, steps: seq<Step>, c: nat, i: nat)
    requires Start(s) && OneCommit(s.procs) && Valid(s, steps) && !After(s, steps).failed
    requires c < |After(s, steps).procs| && After(s, steps).procs[c].commit && After(s, steps).procs[c].phase.Done?
    requires i < |steps| && steps[i].act.Write?
    ensures exists b: nat, e: nat ::
              i < b < e < |steps| && steps[b] == Step(steps[e].proc, Begin) && steps[e].act == EndSync(true)
  {
    CommitIsDurable(s, steps, c);
    var b, e := SyncFollowsWrite(s, steps, i);
  }

  /** A stream writes only to an open handle. */
  lemma WritesGoToAnOpenHandle(s: State, steps: seq<Step>, step: Step)
    requires Start(s) && OneCommit(s.procs) && Valid(s, steps) && step.act.Write? && Enabled(After(s, steps), step)
    ensures var t := After(s, steps);
            && t.slot.entry.Some? && t.procs[step.proc].phase.h == t.slot.entry.value.handle
            && t.procs[step.proc].phase.h !in t.slot.closes
  {
    StartInv(s);
    RunKeepsInv(s, steps);
    NothingStolenYet(After(s, steps));
    TotalAtLeast(After(s, steps).procs, step.proc);
  }

  // ---- two commits of one path

  lemma {:induction false} Extend(s: State, steps: seq<Step>, step: Step)
    requires Valid(s, steps) && Enabled(After(s, steps), step)
    ensures Valid(s, steps + [step]) && After(s, steps + [step]) == Apply(After(s, steps), step)
    decreases |steps|
  {
    if steps == [] {
      assert [] + [step] == [step];
    } else {
      Extend(Apply(s, steps[0]), steps[1..], step);
      assert (steps + [step])[1..] == steps[1..] + [step];
    }
  }

  /** A commit that runs without interruption takes one reference off the entry. */
  lemma CommitTakesOne(s: State, steps: seq<Step>, c: nat) returns (more: seq<Step>)
    requires Valid(s, steps) && c < |After(s, steps).procs| && After(s, steps).procs[c] == Proc(true, Out)
    requires After(s, steps).slot.entry.Some? && After(s, steps).slot.entry.value.refCount >= 1
    ensures Valid(s, more)
    ensures After(s, more).slot == Released(After(s, steps).slot)
    ensures After(s, more).procs == After(s, steps).procs[c := Proc(true, Done)]
  {
    more := steps + [Step(c, Begin)];
    Extend(s, steps, Step(c, Begin));
    Extend(s, more, Step(c, EndSync(true)));
    more := more + [Step(c, EndSync(true))];
    Extend(s, more, Step(c, ReleaseGuard));
    more := more + [Step(c, ReleaseGuard)];
    Extend(s, more, Step(c, ReleaseOwn));
    more := more + [Step(c, ReleaseOwn)];
  }

  /** The guard reference does not withstand a second commit of the same path: a handle is
      closed under the sync of a stream. */
  lemma SecondCommitClosesDuringSync(s: State, i: nat, c: nat, d: nat) returns (steps: seq<Step>)
    requires Start(s) && i < |s.procs| && c < |s.procs| && d < |s.procs| && c != d
    requires !s.procs[i].commit && s.procs[c].commit && s.procs[d].commit
    ensures Valid(s, steps) && ClosedUnderSync(After(s, steps))
  {
    steps := [];
    Extend(s, steps, Step(i, Acquire));
    steps := steps + [Step(i, Acquire)];
    Extend(s, steps, Step(i, Begin));
    steps := steps + [Step(i, Begin)];
    assert After(s, steps).slot == Slot(Some(Entry(0, 2)), 1, []);
    steps := CommitTakesOne(s, steps, c);
    steps := CommitTakesOne(s, steps, d);
    assert After(s, steps).slot.closes == [0] && After(s, steps).procs[i].phase.Syncing?;
  }

  ghost predicate ClosedUnderSync(s: State) {
    exists i :: 0 <= i < |s.procs| && s.procs[i].phase.Syncing? && s.procs[i].phase.h in s.slot.closes
  }

  lemma NothingClosedUnderSync(s: State, steps: seq<Step>)
    requires Start(s) && OneCommit(s.procs) && Valid(s, steps)
    ensures !ClosedUnderSync(After(s, steps))
  {
    var t := After(s, steps);
    forall j | 0 <= j < |t.procs| && t.procs[j].phase.Syncing? ensures t.procs[j].phase.h !in t.slot.closes {
      NoCloseDuringSync(s, steps, j);
    }
  }

  /** In no run is a handle closed under a sync. */
  ghost predicate AlwaysSafe(s: State) {
    forall steps :: Valid(s, steps) ==> !ClosedUnderSync(After(s, steps))
  }

  /** As long as there is a stream at all, no handle is ever closed under a sync if and only
      if at most one commit of the path is sent. */
  lemma HandlesAreSafeIff(s: State, i: nat)
    requires Start(s) && i < |s.procs| && !s.procs[i].commit
    ensures AlwaysSafe(s) <==> OneCommit(s.procs)
  {
    if OneCommit(s.procs) {
      forall steps | Valid(s, steps) ensures !ClosedUnderSync(After(s, steps)) {
        NothingClosedUnderSync(s, steps);
      }
    } else {
      var c, d :| 0 <= c < |s.procs| && 0 <= d < |s.procs| && s.procs[c].commit && s.procs[d].commit && c != d;
      var steps := SecondCommitClosesDuringSync(s, i, c, d);
      assert Valid(s, steps) && ClosedUnderSync(After(s, steps));
    }
  }
}
