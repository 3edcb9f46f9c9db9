/** Which jobs can succeed. */
module Success {
  import opened Contents
  import opened Configuration
  import opened Resources
  import opened Sums
  import opened Protocol
  import opened Stall
  import Replication
  import Termination
  import InOrder
  import StallWitness
  import Starvation
  import W = Window

  lemma FaithfulReadsAreFull(job: Job)
    requires Replication.Faithful(job)
    ensures FullReads(job)
  {
    forall id | 0 <= id < |job.blocks| && WireOf(job, id).Data? ensures DataLen(job, id) == AcquireSize(job, id) {
      Replication.PayloadIsSource(job, id);
      assert Replication.Describes(job, job.blocks[id]);
    }
  }

  ghost predicate Succeeds(job: Job, steps: seq<Step>)
    requires Usable(job.cfg)
  {
    Valid(job, steps) && Succeeded(After(job, steps))
  }

  /** There is a successful run of every job that describes its source and fits the window,
      and of every such job of any size when a batch cannot hold the whole window. */
  lemma SuccessfulRunExists(job: Job) returns (steps: seq<Step>)
    requires Replication.Faithful(job) && MemoryIsPlentiful(job.cfg)
    requires |job.blocks| <= 2 * job.cfg.maxWindow || InOrder.BatchFitsWindow(job.cfg)
    ensures Valid(job, steps) && Succeeded(After(job, steps))
  {
    FaithfulReadsAreFull(job);
    if InOrder.BatchFitsWindow(job.cfg) {
      steps := InOrder.AnySizeSucceeds(job);
    } else {
      steps := Termination.SuccessIsReached(job, []);
      assert [] + steps == steps;
    }
  }

  /** A file of zeros, one block more than the window. */
  ghost function TooManyZeros(c: Config): Job
    requires Usable(c)
  {
    StallWitness.TheJob(c, 2 * c.maxWindow + 1)
  }

  lemma {:induction false} NothingToSum(ws: seq<nat>, s: set<nat>)
    requires forall i :: 0 <= i < |ws| ==> ws[i] == 0
    ensures Sum(ws, s) == 0
  {
    if ws != [] {
      NothingToSum(ws[..|ws| - 1], s);
    }
  }

  lemma ZerosStarve(c: Config)
    requires Usable(c) && !InOrder.BatchFitsWindow(c)
    ensures Replication.Faithful(TooManyZeros(c)) && Starvation.Starves(TooManyZeros(c))
  {
    var job := TooManyZeros(c);
    forall i | 0 <= i < |job.blocks| ensures Replication.Describes(job, job.blocks[i]) {
    }
    NothingToSum(DataLens(job), W.Range(0, |job.blocks|));
  }

  ghost predicate EveryJobCanSucceed(c: Config)
    requires Usable(c)
  {
    forall job: Job | job.cfg == c && Replication.Faithful(job) :: exists steps :: Succeeds(job, steps)
  }

  /** Exactly when every job that describes its source has a run without an error, whatever
      its size: when a batch is sent before it fills the window. Otherwise a file of zeros
      with one block more than the window has none. */
  lemma EveryJobCanSucceedIff(c: Config)
    requires Usable(c) && MemoryIsPlentiful(c)
    ensures EveryJobCanSucceed(c) <==> InOrder.BatchFitsWindow(c)
  {
    if InOrder.BatchFitsWindow(c) {
      forall job: Job | job.cfg == c && Replication.Faithful(job) ensures exists steps :: Succeeds(job, steps) {
        var steps := SuccessfulRunExists(job);
        assert Succeeds(job, steps);
      }
    } else {
      var job := TooManyZeros(c);
      ZerosStarve(c);
      forall steps ensures !Succeeds(job, steps) {
        if Valid(job, steps) {
          Starvation.NoRunSucceeds(job, steps);
        }
      }
    }
  }

  /** With both shipped configurations every such job can succeed. */
  lemma ShippedJobsCanSucceed(c: Config)
    requires c == CEPHFS_CONFIG || c == RBD_CONFIG
    ensures Usable(c) && EveryJobCanSucceed(c)
  {
    ShippedConfigsAreSound(c);
    EveryJobCanSucceedIff(c);
  }
}
