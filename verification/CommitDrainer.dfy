/** The commit drainer: takes the boundaries of the iterator, waits until the blocks of a
    file are acknowledged, and commits the files in batches. */
module CommitDrainer {
  import opened Wrappers
  import opened Contents
  import opened FileIterator
  import opened FileIds

  const COMMIT_BATCH_SIZE: nat := 1000

  ghost function Paths(bs: seq<Boundary>): (s: seq<string>)
    ensures |s| == |bs|
    ensures forall i :: 0 <= i < |s| ==> s[i] == bs[i].path
  {
    seq(|bs|, i requires 0 <= i < |bs| => bs[i].path)
  }

  lemma PathsConcat(a: seq<Boundary>, b: seq<Boundary>)
    ensures Paths(a + b) == Paths(a) + Paths(b)
  {
  }

  lemma NextInLine(done: seq<Boundary>, line: seq<Boundary>, i: nat)
    requires i < |line|
    ensures done + line[i..] == done + [line[i]] + line[i + 1..]
    ensures line[0..] == line
  {
  }

  ghost predicate AllBelow(bs: seq<Boundary>, base: nat) {
    forall i :: 0 <= i < |bs| ==> bs[i].last < base
  }

  ghost predicate Sized(batches: seq<seq<Boundary>>) {
    forall i :: 0 <= i < |batches| ==> 1 <= |batches[i]| <= COMMIT_BATCH_SIZE
  }

  class Drainer {
    const maxWindow: nat
    const notifies: bool                    // whether somebody listens to committed paths

    // What has happened so far, in order.
    var received: seq<Boundary>             // taken from the boundary channel
    var checked: seq<Boundary>              // found released
    var closed: seq<string>                 // source handles closed
    var sent: seq<Boundary>                 // in commit requests sent
    var batches: seq<seq<Boundary>>         // commit requests answered
    var notified: seq<string>               // passed on for the metadata pass

    // The window as the drainer sees it: others advance it, and signal so.
    var base: nat
    var signals: nat                        // release signals still to come
    var waiting: bool                       // left waiting for one that does not come

    /** Holds between any two of the actions below, also when the drainer gives up: a path
        is passed on only after the request with it has been answered, what is answered
        has been sent, what is sent has been found released, and all that in the order of
        receipt. */
    ghost predicate Valid()
      reads this
    {
      && checked <= received && sent <= checked && Flat(batches) <= sent
      && notified <= Paths(Flat(batches)) && closed <= Paths(checked)
      && AllBelow(checked, base) && Sized(batches)
      && (!notifies ==> notified == [])
    }

    /** Nothing is under way: all that has been checked is committed and passed on. */
    ghost predicate Idle()
      reads this
    {
      && sent == checked && closed == Paths(checked) && Delivered()
    }

    /** Every request has been answered, and its paths passed on. */
    ghost predicate Delivered()
      reads this
    {
      Flat(batches) == sent && notified == if notifies then Paths(sent) else []
    }

    /** `batch` is what has been checked and not yet sent. */
    ghost predicate Filling(batch: seq<Boundary>)
      reads this
    {
      checked == sent + batch && closed == Paths(checked) && Delivered() && |batch| < COMMIT_BATCH_SIZE
    }

    constructor (maxWindow: nat, notifies: bool, base: nat, signals: nat)
      ensures Valid() && Idle() && received == [] && !waiting
      ensures this.notifies == notifies && this.maxWindow == maxWindow
    {
      this.maxWindow, this.notifies := maxWindow, notifies;
      received, checked, closed, sent, batches, notified := [], [], [], [], [], [];
      this.base, this.signals, waiting := base, signals, false;
    }

    // ---- the actions

    /** The window may have advanced since the last look. */
    method IsReleased(id: nat) returns (r: bool)
      modifies this`base
      ensures base >= old(base) && r == (base > id)
    {
      assert base >= base;
      var later: nat :| later >= base;
      base := later;
      r := base > id;
    }

    method Receive(b: Boundary)
      requires Valid()
      modifies this`received
      ensures Valid() && received == old(received) + [b]
    {
      received := received + [b];
    }

    /** Takes a released file into the batch and closes its handle at the source. */
    method Take(b: Boundary, ghost batch: seq<Boundary>)
      requires Valid() && b.last < base && Filling(batch) && checked + [b] <= received
      modifies this`checked, this`closed
      ensures Valid() && checked == old(checked) + [b] && closed == Paths(checked)
    {
      PathsConcat(checked, [b]);
      checked := checked + [b];
      closed := closed + [b.path];
    }

    /** Sends a commit request and waits for the answer; either may fail. */
    method SendCommitBatch(batch: seq<Boundary>) returns (ok: bool)
      requires Valid() && 1 <= |batch| <= COMMIT_BATCH_SIZE && checked == sent + batch && Flat(batches) == sent
      modifies this`sent, this`batches
      ensures Valid() && old(sent) <= sent && old(batches) <= batches
      ensures ok ==> sent == old(sent) + batch && batches == old(batches) + [batch] && Flat(batches) == sent
    {
      if * {
        return false;
      }
      sent := sent + batch;
      if * {
        return false;
      }
      FlatNext(batches, batch);
      PathsConcat(Flat(batches), batch);
      batches := batches + [batch];
      ok := true;
    }

    method NotifyCommitted(paths: seq<string>) returns (ok: bool)
      requires Valid() && Flat(batches) == sent
      requires notifies ==> notified + paths == Paths(sent)
      modifies this`notified
      ensures Valid()
      ensures ok ==> Delivered()
    {
      if !notifies {
        return true;
      }
      ghost var was := notified;
      for i := 0 to |paths|
        invariant notified == was + paths[..i]
      {
        if * {
          return false;
        }
        notified := notified + [paths[i]];
      }
      assert paths[..|paths|] == paths;
      ok := true;
    }

    /** Commits the batch and passes its paths on. */
    method Commit(batch: seq<Boundary>, committed: seq<string>) returns (ok: bool)
      requires Valid() && 1 <= |batch| <= COMMIT_BATCH_SIZE && committed == Paths(batch)
      requires checked == sent + batch && closed == Paths(checked) && Delivered()
      modifies this`sent, this`batches, this`notified
      ensures Valid()
      ensures ok ==> Idle() && batches == old(batches) + [batch]
    {
      PathsConcat(sent, batch);
      ok := SendCommitBatch(batch);
      if ok {
        ok := NotifyCommitted(committed);
      }
    }

    /** Takes a file into the batch, and commits the batch when it is full. */
    method Add(b: Boundary, batch: seq<Boundary>, committed: seq<string>)
      returns (batch': seq<Boundary>, committed': seq<string>, ok: bool)
      requires Valid() && b.last < base && Filling(batch) && committed == Paths(batch) && checked + [b] <= received
      modifies this`checked, this`closed, this`sent, this`batches, this`notified
      ensures Valid() && checked == old(checked) + [b]
      ensures ok ==> Filling(batch') && committed' == Paths(batch')
      ensures |batch| + 1 < 1000 ==> ok && batch' == batch + [b] && batches == old(batches) && sent == old(sent)
      ensures |batch| + 1 == 1000 && ok ==> batch' == [] && batches == old(batches) + [batch + [b]]
    {
      Take(b, batch);
      PathsConcat(batch, [b]);
      batch', committed', ok := batch + [b], committed + [b.path], true;
      assert checked == sent + batch';
      if |batch'| >= COMMIT_BATCH_SIZE {
        ok := Commit(batch', committed');
        batch', committed' := [], [];
      }
    }

    method Finish(batch: seq<Boundary>, committed: seq<string>) returns (ok: bool)
      requires Valid() && Filling(batch) && committed == Paths(batch)
      modifies this`sent, this`batches, this`notified
      ensures Valid()
      ensures ok ==> Idle() && batches == if batch == [] then old(batches) else old(batches) + [batch]
    {
      if |batch| == 0 {
        return true;
      }
      ok := Commit(batch, committed);
    }

    /** What is sent and what is answered has been received, and in that order. */
    lemma CommittedIsReceived()
      requires Valid()
      ensures Flat(batches) <= received && sent <= received
    {
      assert sent <= received;
    }

    // ---- the loops

    /** More than a window and one behind, all of them from that index on. */
    ghost predicate AllFar(bs: seq<Boundary>, from: nat, currentReqID: nat) {
      forall i :: from <= i < |bs| ==> bs[i].last + maxWindow + 2 <= currentReqID
    }

    /** The head of the line does not qualify: it is too near, or not released. */
    ghost predicate Held(line: seq<Boundary>, currentReqID: nat)
      reads this
    {
      line == [] || currentReqID < line[0].last + maxWindow + 2 || base <= line[0].last
    }

    lemma OneMoreFar(bs: seq<Boundary>, b: Boundary, from: nat, currentReqID: nat)
      requires AllFar(bs, from, currentReqID) && b.last + maxWindow + 2 <= currentReqID
      ensures AllFar(bs + [b], from, currentReqID)
    {
    }

    /** One turn: the head of the line is taken if it qualifies. */
    method DrainOne(head: Boundary, currentReqID: nat, batch: seq<Boundary>, committed: seq<string>,
                    ghost rest: seq<Boundary>)
      returns (taken: bool, batch': seq<Boundary>, committed': seq<string>, ok: bool)
      requires Valid() && Filling(batch) && committed == Paths(batch) && received == checked + [head] + rest
      modifies this`base, this`checked, this`closed, this`sent, this`batches, this`notified
      ensures Valid() && checked == if taken then old(checked) + [head] else old(checked)
      ensures taken ==> head.last + maxWindow + 2 <= currentReqID
      ensures taken ==> received == checked + rest
      ensures !taken ==> ok && batch' == batch && committed' == committed && Filling(batch)
      ensures !taken ==> currentReqID < head.last + maxWindow + 2 || base <= head.last
      ensures taken && ok ==> Filling(batch') && committed' == Paths(batch')
    {
      taken, batch', committed', ok := false, batch, committed, true;
      if head.last + maxWindow + 2 > currentReqID {
        return;
      }
      var released := IsReleased(head.last);
      if !released {
        return;
      }
      taken := true;
      batch', committed', ok := Add(head, batch, committed);
    }

    /** Commits the longest run of waiting files that lie far enough behind and are found
        released; the others stay in line. */
    method DrainQualified(pending: seq<Boundary>, currentReqID: nat) returns (rest: seq<Boundary>, ok: bool)
      requires Valid() && Idle() && received == checked + pending
      modifies this`base, this`checked, this`closed, this`sent, this`batches, this`notified
      ensures Valid()
      ensures forall i :: |old(checked)| <= i < |checked| ==> checked[i].last + maxWindow + 2 <= currentReqID
      ensures ok ==> Idle() && received == checked + rest
      ensures ok && rest != [] ==> currentReqID < rest[0].last + maxWindow + 2 || base <= rest[0].last
    {
      rest, ok := DrainLine(pending, currentReqID);
    }

    method DrainLine(pending: seq<Boundary>, currentReqID: nat) returns (rest: seq<Boundary>, ok: bool)
      requires Valid() && Idle() && received == checked + pending
      modifies this`base, this`checked, this`closed, this`sent, this`batches, this`notified
      ensures Valid() && AllFar(checked, |old(checked)|, currentReqID)
      ensures ok ==> Idle() && received == checked + rest
      ensures ok ==> Held(rest, currentReqID)
    {
      var batch, committed := [], [];
      var more := true;
      rest := pending;
      while more && |rest| > 0
        invariant Valid() && Filling(batch) && committed == Paths(batch) && received == checked + rest
        invariant AllFar(checked, |old(checked)|, currentReqID)
        invariant !more ==> Held(rest, currentReqID)
        decreases more, |rest|
      {
        var head, tail := rest[0], rest[1..];
        ghost var done := checked;
        NextInLine(done, rest, 0);
        more, batch, committed, ok := DrainOne(head, currentReqID, batch, committed, tail);
        if more {
          OneMoreFar(done, head, |old(checked)|, currentReqID);
          rest := tail;
        }
        if !ok {
          return;
        }
      }
      ok := Finish(batch, committed);
    }

    /** The drainer is left waiting only for an id that was not released at the last signal,
        and no signal is to come. */
    ghost predicate WaitsInVain()
      reads this
    {
      signals == 0 && |checked| < |received| && base <= received[|checked|].last
    }

    /** Waits for a file's last id, signal after signal; gives up only when cancelled. */
    method Await(id: nat) returns (ok: bool)
      requires !waiting
      modifies this`base, this`signals, this`waiting
      ensures base >= old(base) && (ok ==> base > id && !waiting)
      ensures waiting ==> signals == 0 && base <= id
    {
      var released := IsReleased(id);
      while !released
        invariant base >= old(base) && !waiting && released == (base > id)
        decreases signals
      {
        if * {
          return false;
        }
        if signals == 0 {
          waiting := true;
          return false;
        }
        signals := signals - 1;
        released := IsReleased(id);
      }
      ok := true;
    }

    /** One turn of the final flush. */
    method FlushOne(b: Boundary, batch: seq<Boundary>, committed: seq<string>, ghost rest: seq<Boundary>)
      returns (batch': seq<Boundary>, committed': seq<string>, ok: bool)
      requires Valid() && Filling(batch) && committed == Paths(batch) && received == checked + [b] + rest && !waiting
      modifies this`base, this`signals, this`waiting, this`checked, this`closed, this`sent, this`batches, this`notified
      ensures Valid() && (waiting ==> !ok && WaitsInVain())
      ensures ok ==> Filling(batch') && committed' == Paths(batch') && received == checked + rest
    {
      batch', committed' := batch, committed;
      ok := Await(b.last);
      if ok {
        batch', committed', ok := Add(b, batch, committed);
      }
    }

    /** Commits everything that is left. */
    method FlushAll(pending: seq<Boundary>) returns (ok: bool)
      requires Valid() && Idle() && received == checked + pending && !waiting
      modifies this`base, this`signals, this`waiting, this`checked, this`closed, this`sent, this`batches, this`notified
      ensures Valid() && (waiting ==> !ok && WaitsInVain())
      ensures ok ==> Idle() && checked == received
    {
      var batch, committed := [], [];
      for i := 0 to |pending|
        invariant Valid() && Filling(batch) && committed == Paths(batch)
        invariant received == checked + pending[i..] && !waiting
      {
        NextInLine(checked, pending, i);
        batch, committed, ok := FlushOne(pending[i], batch, committed, pending[i + 1..]);
        if !ok {
          return;
        }
      }
      ok := Finish(batch, committed);
    }

    /** A whole run over what the iterator put into the channel before it was closed. When
        it returns no error, the commit requests hold exactly the boundaries in the order
        of receipt, 1 to 1000 in each, all of them found released, answered and passed on.
        A run that fails has committed a prefix, and one that never ends waits for a file
        that is not released. */
    method Run(boundaries: seq<Boundary>) returns (ok: bool)
      requires Valid() && Idle() && received == [] && !waiting
      modifies this
      ensures Valid() && received <= boundaries && Flat(batches) <= boundaries && sent <= boundaries
      ensures waiting ==> !ok && received == boundaries && WaitsInVain()
      ensures forall i :: 0 <= i < |batches| ==> 1 <= |batches[i]| <= 1000
      ensures ok ==> Flat(batches) == boundaries && forall i :: 0 <= i < |boundaries| ==> boundaries[i].last < base
      ensures ok ==> notified == if notifies then Paths(boundaries) else []
    {
      var pending;
      pending, ok := ReceiveAll(boundaries);
      CommittedIsReceived();
      if !ok {
        return;
      }
      ok := FlushAll(pending);
      CommittedIsReceived();
      if ok {
        AllIsCommitted();
      }
    }

    lemma AllIsCommitted()
      requires Valid() && Idle() && checked == received
      ensures Flat(batches) == received && AllBelow(received, base)
      ensures notified == if notifies then Paths(received) else []
    {
    }

    /** The main loop, until the channel is closed. */
    method ReceiveAll(boundaries: seq<Boundary>) returns (pending: seq<Boundary>, ok: bool)
      requires Valid() && Idle() && received == []
      modifies this`received, this`base, this`checked, this`closed, this`sent, this`batches, this`notified
      ensures Valid() && received <= boundaries
      ensures ok ==> Idle() && received == boundaries && received == checked + pending
    {
      pending := [];
      for i := 0 to |boundaries|
        invariant Valid() && Idle() && received == boundaries[..i] && received == checked + pending
      {
        if * {
          return pending, false;
        }
        assert boundaries[..i + 1] == boundaries[..i] + [boundaries[i]];
        pending, ok := ReceiveAndDrain(boundaries[i], pending);
        if !ok {
          return;
        }
      }
      ok := true;
    }

    /** One turn of the main loop. */
    method ReceiveAndDrain(fb: Boundary, pending: seq<Boundary>) returns (rest: seq<Boundary>, ok: bool)
      requires Valid() && Idle() && received == checked + pending
      modifies this`received, this`base, this`checked, this`closed, this`sent, this`batches, this`notified
      ensures Valid() && received == old(received) + [fb]
      ensures ok ==> Idle() && received == checked + rest
    {
      Receive(fb);
      assert checked + pending + [fb] == checked + (pending + [fb]);
      rest, ok := DrainQualified(pending + [fb], fb.last);
    }
  }

  // ---- with the iterator

  lemma CountOfRemoved(b: seq<Boundary>, i: nat, p: string)
    requires i < |b|
    ensures CountOf(b, p) == CountOf(b[..i] + b[i + 1..], p) + if b[i].path == p then 1 else 0
  {
    assert b == b[..i] + ([b[i]] + b[i + 1..]);
    CountOfConcat(b[..i], [b[i]] + b[i + 1..], p);
    CountOfConcat(b[..i], b[i + 1..], p);
  }

  lemma Cancel(x: multiset<Boundary>, y: multiset<Boundary>, e: Boundary)
    requires x + multiset{e} <= y + multiset{e}
    ensures x <= y
  {
    forall z ensures x[z] <= y[z] {
      assert (x + multiset{e})[z] <= (y + multiset{e})[z];
    }
  }

  lemma RemovedMultiset(b: seq<Boundary>, i: nat)
    requires i < |b|
    ensures multiset(b) == multiset(b[..i] + b[i + 1..]) + multiset{b[i]}
  {
    assert b == b[..i] + ([b[i]] + b[i + 1..]);
  }

  lemma TakeOut(a: seq<Boundary>, b: seq<Boundary>) returns (i: nat)
    requires a != [] && multiset(a) <= multiset(b)
    ensures i < |b| && b[i] == a[0] && multiset(a[1..]) <= multiset(b[..i] + b[i + 1..])
  {
    assert a[0] in multiset(a);
    assert a[0] in multiset(b);
    i :| 0 <= i < |b| && b[i] == a[0];
    assert a[..0] + a[1..] == a[1..];
    RemovedMultiset(a, 0);
    RemovedMultiset(b, i);
    Cancel(multiset(a[1..]), multiset(b[..i] + b[i + 1..]), a[0]);
  }

  lemma {:induction false} CountOfFewer(a: seq<Boundary>, b: seq<Boundary>, p: string)
    requires multiset(a) <= multiset(b)
    ensures CountOf(a, p) <= CountOf(b, p)
  {
    if a != [] {
      var i := TakeOut(a, b);
      CountOfRemoved(b, i, p);
      CountOfFewer(a[1..], b[..i] + b[i + 1..], p);
    }
  }

  lemma CountOfPermuted(a: seq<Boundary>, b: seq<Boundary>, p: string)
    requires multiset(a) == multiset(b)
    ensures CountOf(a, p) == CountOf(b, p)
  {
    CountOfFewer(a, b, p);
    CountOfFewer(b, a, p);
  }

  /** A successful run over the boundaries of an iteration, which may arrive in any order,
      commits every named file with a block exactly once and no other file. */
  lemma EveryFileIsCommittedOnce(m: Mode, fs: seq<FileIn>, batches: seq<seq<Boundary>>, k: nat)
    requires multiset(Flat(batches)) == multiset(Bounds(m, fs, 0)) && Distinct(fs) && k < |fs|
    ensures CountOf(Flat(batches), fs[k].path) == if HasBoundary(m, fs[k]) then 1 else 0
    ensures HasBoundary(m, fs[k]) ==> BoundaryOf(m, fs, k) in Flat(batches)
  {
    CountOfPermuted(Flat(batches), Bounds(m, fs, 0), fs[k].path);
    OneBoundaryPerFile(m, fs, k);
    assert HasBoundary(m, fs[k]) ==> BoundaryOf(m, fs, k) in multiset(Bounds(m, fs, 0));
  }

  lemma AtMostOneBoundary(m: Mode, fs: seq<FileIn>, p: string)
    requires Distinct(fs)
    ensures CountOf(Bounds(m, fs, 0), p) <= 1
  {
    var bs := Bounds(m, fs, 0);
    if k :| 0 <= k < |fs| && fs[k].path == p {
      OneBoundaryPerFile(m, fs, k);
    } else {
      forall i | 0 <= i < |bs| ensures bs[i].path != p {
        var k := EveryBoundaryHasAFile(m, fs, bs[i]);
      }
      CountOfNone(bs, p);
    }
  }

  /** Every run, also one that fails at any point, sends at most one commit of a path: what
      the handles at the destination rely on. */
  lemma NoFileIsCommittedTwice(m: Mode, fs: seq<FileIn>, boundaries: seq<Boundary>, sent: seq<Boundary>, p: string)
    requires Distinct(fs) && multiset(boundaries) <= multiset(Bounds(m, fs, 0)) && sent <= boundaries
    ensures CountOf(sent, p) <= 1
  {
    assert boundaries == sent + boundaries[|sent|..];
    CountOfFewer(sent, Bounds(m, fs, 0), p);
    AtMostOneBoundary(m, fs, p);
  }

  /** The iterator and the drainer together, whatever the surroundings do and however far
      they come: at most one commit is sent for a path, and on success, when no context is
      done, exactly one for each file with a block. */
  method IterateAndDrain(mode: Mode, files: seq<FileIn>, moments: seq<Moment>, limit: nat, d: Drainer)
    returns (ok: bool)
    requires d.Valid() && d.Idle() && d.received == [] && !d.waiting && Distinct(files)
    modifies d
    ensures forall p :: CountOf(d.sent, p) <= 1
    ensures ok && NeverDone(moments) && limit >= |files| ==> forall k :: 0 <= k < |files| ==>
              CountOf(Flat(d.batches), files[k].path) == if HasBoundary(mode, files[k]) then 1 else 0
  {
    var blocks, boundaries := Iterate(mode, files, moments, limit);
    ok := d.Run(boundaries);
    forall p ensures CountOf(d.sent, p) <= 1 {
      NoFileIsCommittedTwice(mode, files, boundaries, d.sent, p);
    }
    if ok && NeverDone(moments) && limit >= |files| {
      forall k | 0 <= k < |files|
        ensures CountOf(Flat(d.batches), files[k].path) == if HasBoundary(mode, files[k]) then 1 else 0
      {
        EveryFileIsCommittedOnce(mode, files, d.batches, k);
      }
    }
  }
}
