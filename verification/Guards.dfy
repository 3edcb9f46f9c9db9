/** What the pipeline guarantees to the two handle protocols: when the drainer closes a
    path at the source, no read of it is under way or to come, and when a path has been
    committed, no write to it is. */
module Guards {
  import opened Contents
  import opened Configuration
  import P = Protocol
  import Runs
  import Replication
  import ReaderHandles
  import FI = FileIterator
  import opened FileIds
  import opened FileReplication

  /** No block of the path comes after `last`. */
  ghost predicate EndsAt(job: P.Job, p: Path, last: nat) {
    forall id :: 0 <= id < |job.blocks| && job.blocks[id].path == p ==> id <= last
  }

  lemma {:induction false} BaseOnlyGrows(job: P.Job, steps: seq<P.Step>, more: seq<P.Step>)
    requires Usable(job.cfg) && P.Valid(job, steps) && P.Valid(job, steps + more)
    ensures P.After(job, steps + more).res.win.ring.base >= P.After(job, steps).res.win.ring.base
  {
    if more == [] {
      assert steps + more == steps;
    } else {
      var front := steps + more[..|more| - 1];
      assert (steps + more)[..|steps + more| - 1] == front;
      BaseOnlyGrows(job, steps, more[..|more| - 1]);
      Runs.RunKeepsInv(job, front);
      Replication.BaseNeverRetreats(job, P.After(job, front), (steps + more)[|steps + more| - 1]);
    }
  }

  /** No read worker is busy with a block of a path whose last id is released, in whatever
      phase it is. */
  lemma NoReaderAtPath(job: P.Job, steps: seq<P.Step>, p: Path, last: nat, r: nat)
    requires Usable(job.cfg) && P.Valid(job, steps) && EndsAt(job, p, last)
    requires last < P.After(job, steps).res.win.ring.base
    requires r < |P.After(job, steps).readers| && P.After(job, steps).readers[r].Busy?
    ensures var id := P.After(job, steps).readers[r].id; id < |job.blocks| && job.blocks[id].path != p
  {
    ReaderHandles.NoReadOfAReleasedId(job, steps, r);
  }

  /** And none of its blocks is still to be read. */
  lemma NoBlockIsLeft(job: P.Job, steps: seq<P.Step>, p: Path, last: nat, id: nat)
    requires Usable(job.cfg) && P.Valid(job, steps) && EndsAt(job, p, last)
    requires last < P.After(job, steps).res.win.ring.base
    requires id < |job.blocks| && job.blocks[id].path == p
    ensures P.After(job, steps).loc[id].Acked? || P.After(job, steps).loc[id].Dropped?
  {
    Runs.RunKeepsInv(job, steps);
    ReaderHandles.ReleasedIdIsThrough(job, P.After(job, steps), id);
  }

  /** The guard of the close at the source: once the drainer finds the last id of a boundary
      released, every block of that file is through and no reader is busy with one, then
      and however the run goes on. */
  lemma CloseFindsNoReader(job: P.Job, m: FI.Mode, fs: seq<FI.FileIn>, b: Boundary,
                           steps: seq<P.Step>, more: seq<P.Step>)
    requires FileJob(job, m, fs) && b in FI.Bounds(m, fs, 0)
    requires P.Valid(job, steps) && P.Valid(job, steps + more) && b.last < P.After(job, steps).res.win.ring.base
    ensures var s := P.After(job, steps + more);
            && (forall id :: 0 <= id < |job.blocks| && job.blocks[id].path == b.path ==>
                  s.loc[id].Acked? || s.loc[id].Dropped?)
            && (forall r :: 0 <= r < |s.readers| && s.readers[r].Busy? ==>
                  s.readers[r].id < |job.blocks| && job.blocks[s.readers[r].id].path != b.path)
  {
    var s := P.After(job, steps + more);
    BoundaryEndsFile(job, m, fs, b);
    BaseOnlyGrows(job, steps, more);
    forall id | 0 <= id < |job.blocks| && job.blocks[id].path == b.path ensures s.loc[id].Acked? || s.loc[id].Dropped? {
      NoBlockIsLeft(job, steps + more, b.path, b.last, id);
    }
    forall r | 0 <= r < |s.readers| && s.readers[r].Busy?
      ensures s.readers[r].id < |job.blocks| && job.blocks[s.readers[r].id].path != b.path
    {
      NoReaderAtPath(job, steps + more, b.path, b.last, r);
    }
  }

  lemma BoundaryEndsFile(job: P.Job, m: FI.Mode, fs: seq<FI.FileIn>, b: Boundary)
    requires FileJob(job, m, fs) && b in FI.Bounds(m, fs, 0)
    ensures EndsAt(job, b.path, b.last)
  {
    var k := EveryBoundaryHasAFile(m, fs, b);
    forall id | 0 <= id < |job.blocks| && job.blocks[id].path == b.path ensures id <= b.last {
      BoundaryDominates(job, m, fs, k, id);
    }
  }

  /** A stream can write only blocks beyond every boundary that has been committed. */
  lemma WritesAreBeyondCommits(job: P.Job, steps: seq<P.Step>, n: nat, id: nat, b: Boundary)
    requires Usable(job.cfg) && P.Valid(job, steps) && b in P.After(job, steps).commits
    requires P.Enabled(job, P.After(job, steps), P.Stream(n, P.Write(id)))
    ensures id > b.last
  {
    if id <= b.last {
      Replication.CommittedIdsAreAcked(job, steps, b, id);
    }
  }

  /** The guard of the open and the write at the destination: after the commit of a file no
      stream opens or writes it. */
  lemma NoWriteAfterCommit(job: P.Job, m: FI.Mode, fs: seq<FI.FileIn>, b: Boundary, steps: seq<P.Step>, n: nat, id: nat)
    requires FileJob(job, m, fs) && b in FI.Bounds(m, fs, 0)
    requires P.Valid(job, steps) && b in P.After(job, steps).commits
    requires P.Enabled(job, P.After(job, steps), P.Stream(n, P.Write(id)))
    ensures id < |job.blocks| && job.blocks[id].path != b.path
  {
    BoundaryEndsFile(job, m, fs, b);
    WritesAreBeyondCommits(job, steps, n, id, b);
  }
}
