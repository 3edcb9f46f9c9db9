/** The final flush of the commit drainer against the window: the drainer alone takes
    from the one-slot release channel, while readers and ack receivers use the window at
    any moment. */
module WakeUp {
  import W = Window

  /** The drainer is about to check the id at its position, or waits on the channel; `seen`
      is the ring as it was at its last check. */
  datatype At = Checking | Blocked(seen: W.Ring)

  datatype State = State(win: W.Win, ids: seq<nat>, pos: nat, at: At)

  datatype Step =
    | Check
    | Receive
    | Acquire(id: nat, ticket: nat)
    | Release(id: nat)
    | Cancel(ticket: nat)

  predicate IsDrainers(step: Step) { step.Check? || step.Receive? }

  ghost predicate Enabled(s: State, step: Step) {
    match step
    case Check => s.at.Checking? && s.pos < |s.ids|
    case Receive => s.at.Blocked? && s.win.signal
    case _ => true
  }

  ghost function Apply(s: State, step: Step): (t: State)
    requires W.Settled(s.win.ring) && Enabled(s, step)
    ensures W.Settled(t.win.ring) && t.win.ring.base >= s.win.ring.base && t.ids == s.ids
  {
    match step
    case Check =>
      if s.win.ring.base > s.ids[s.pos] then s.(pos := s.pos + 1) else s.(at := Blocked(s.win.ring))
    case Receive => s.(win := s.win.(signal := false), at := Checking)
    case Acquire(id, ticket) => s.(win := W.Acquire(s.win, id, ticket))
    case Release(id) => s.(win := W.Release(s.win, id))
    case Cancel(ticket) => s.(win := W.Cancel(s.win, ticket))
  }

  ghost predicate Start(s: State) {
    W.Settled(s.win.ring) && s.pos == 0 && s.at.Checking?
  }

  /** While the drainer is blocked and the channel is empty, the window is as it was at the
      last check. */
  ghost predicate Inv(s: State) {
    && W.Settled(s.win.ring) && s.pos <= |s.ids|
    && (forall i :: 0 <= i < s.pos ==> s.ids[i] < s.win.ring.base)
    && (s.at.Blocked? ==>
          && s.pos < |s.ids| && s.at.seen.base <= s.ids[s.pos]
          && (s.win.signal || s.win.ring == s.at.seen))
  }

  lemma StepKeepsInv(s: State, step: Step)
    requires Inv(s) && Enabled(s, step)
    ensures Inv(Apply(s, step))
  {
  }

  ghost predicate Valid(s: State, steps: seq<Step>)
    requires W.Settled(s.win.ring)
    decreases |steps|
  {
    steps == [] || (Enabled(s, steps[0]) && Valid(Apply(s, steps[0]), steps[1..]))
  }

  ghost function After(s: State, steps: seq<Step>): (t: State)
    requires W.Settled(s.win.ring) && Valid(s, steps)
    decreases |steps|
  {
    if steps == [] then s else After(Apply(s, steps[0]), steps[1..])
  }

  lemma {:induction false} RunKeepsInv(s: State, steps: seq<Step>)
    requires Inv(s) && Valid(s, steps)
    ensures Inv(After(s, steps))
    decreases |steps|
  {
    if steps != [] {
      StepKeepsInv(s, steps[0]);
      RunKeepsInv(Apply(s, steps[0]), steps[1..]);
    }
  }

  /** No lost wake-up: in every run, whenever the drainer is blocked on the empty channel
      there has been no release since its last check, and the id it waits for is not
      released. */
  lemma NoLostWakeUp(s: State, steps: seq<Step>)
    requires Start(s) && Valid(s, steps)
    ensures var t := After(s, steps);
            t.at.Blocked? && !t.win.signal ==>
              t.win.ring == t.at.seen && t.pos < |t.ids| && t.win.ring.base <= t.ids[t.pos]
  {
    RunKeepsInv(s, steps);
  }

  /** The drainer passes only released ids: in every run those before its position are. */
  lemma PassedIsReleased(s: State, steps: seq<Step>, i: nat)
    requires Start(s) && Valid(s, steps) && i < After(s, steps).pos
    ensures var t := After(s, steps);
            i < |t.ids| && t.ids[i] < t.win.ring.base
  {
    RunKeepsInv(s, steps);
  }

  ghost function Receives(steps: seq<Step>): nat {
    if steps == [] then 0 else (if steps[0].Receive? then 1 else 0) + Receives(steps[1..])
  }

  ghost function Releases(steps: seq<Step>): nat {
    if steps == [] then 0 else (if steps[0].Release? then 1 else 0) + Releases(steps[1..])
  }

  /** The drainer is woken at most once for each release, and once for a signal that was
      there before. */
  lemma {:induction false} WakeUpsAreBounded(s: State, steps: seq<Step>)
    requires W.Settled(s.win.ring) && Valid(s, steps)
    ensures Receives(steps) + (if After(s, steps).win.signal then 1 else 0) <=
            Releases(steps) + if s.win.signal then 1 else 0
    decreases |steps|
  {
    if steps != [] {
      WakeUpsAreBounded(Apply(s, steps[0]), steps[1..]);
    }
  }

  // ---- progress

  /** The steps the drainer needs once everything it waits for is released. */
  ghost function Need(s: State): int {
    |s.ids| - s.pos + if s.at.Blocked? then 1 else 0
  }

  ghost predicate AllReleased(s: State) {
    forall i :: 0 <= i < |s.ids| ==> s.ids[i] < s.win.ring.base
  }

  ghost function DrainerSteps(steps: seq<Step>): nat {
    if steps == [] then 0 else (if IsDrainers(steps[0]) then 1 else 0) + DrainerSteps(steps[1..])
  }

  lemma OneStepNearer(s: State, step: Step)
    requires Inv(s) && AllReleased(s) && Enabled(s, step)
    ensures Inv(Apply(s, step)) && AllReleased(Apply(s, step))
    ensures Need(Apply(s, step)) == if IsDrainers(step) then Need(s) - 1 else Need(s)
  {
    StepKeepsInv(s, step);
  }

  /** Once all the ids are released, the drainer can always go on, every step takes it
      further whatever the others do in between, and so it is through after as many steps
      as there are files left, and one more if it was blocked. */
  lemma {:induction false} FlushComesThrough(s: State, steps: seq<Step>)
    requires Inv(s) && AllReleased(s) && Valid(s, steps)
    ensures DrainerSteps(steps) + Need(After(s, steps)) == Need(s)
    ensures Need(After(s, steps)) != 0 ==>
              Enabled(After(s, steps), Check) || Enabled(After(s, steps), Receive)
    decreases |steps|
  {
    if steps == [] {
    } else {
      OneStepNearer(s, steps[0]);
      FlushComesThrough(Apply(s, steps[0]), steps[1..]);
    }
  }
}
