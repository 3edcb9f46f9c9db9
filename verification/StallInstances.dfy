/** The stall in the two workers: exactly when a run of a file-system or of a block-device
    source can come to rest with work left, and that there are such runs. */
module StallInstances {
  import opened Wrappers
  import opened Contents
  import opened Configuration
  import P = Protocol
  import SB = SplitBlocks
  import FI = FileIterator
  import RI = RbdIterator
  import FR = FileReplication
  import RR = RbdReplication
  import opened RbdTiling
  import Success
  import opened StallWitness

  ghost predicate CanStall(job: P.Job)
    requires Usable(job.cfg)
  {
    exists steps :: Stalls(job, steps)
  }

  // ---- files

  /** A file-system run can stall exactly when its blocks outnumber the window. */
  lemma FileRunsStallIff(job: P.Job, m: FI.Mode, fs: seq<FI.FileIn>)
    requires FR.FileJob(job, m, fs) && MemoryIsPlentiful(job.cfg)
    ensures CanStall(job) <==> |job.blocks| > 2 * job.cfg.maxWindow
  {
    FR.FileJobIsFaithful(job, m, fs);
    Success.FaithfulReadsAreFull(job);
    JobStallsIff(job);
  }

  const SIZE: nat := FI.MAX_BLOCK_LEN + 1

  ghost function SmallExtents(n: nat): (bs: seq<SB.Block>)
    ensures |bs| == n && forall i :: 0 <= i < n ==> bs[i] == SB.Block(i, 1)
  {
    seq(n, i requires 0 <= i < n => SB.Block(i, 1))
  }

  ghost function ShippedMode(): FI.Mode {
    FI.Mode(true, CEPHFS_CONFIG.dataBatchMaxBytes, true)
  }

  /** A file that is too large for one block, of which `n` single bytes have changed. */
  ghost function Scattered(n: nat): FI.FileIn {
    FI.FileIn("data", SIZE + n, FI.Reads([SmallExtents(n)]))
  }

  ghost function ScatteredJob(n: nat): (job: P.Job)
    ensures |job.blocks| == n && job.cfg == CEPHFS_CONFIG
    ensures forall i :: 0 <= i < n ==> job.blocks[i] == P.Block("data", i, 1, SIZE + n, false)
  {
    P.Job(CEPHFS_CONFIG, seq(n, i requires 0 <= i < n => P.Block("data", i, 1, SIZE + n, false)),
          map["data" := Zeros(SIZE + n)], map[])
  }

  lemma ScatteredItems(n: nat)
    requires n > 0
    ensures FI.Items(ShippedMode(), [Scattered(n)]) == FI.Tag(SmallExtents(n), "data", SIZE + n)
  {
    var m, f, bs := ShippedMode(), Scattered(n), SmallExtents(n);
    assert [f][1..] == [] && [bs][1..] == [];
    assert FI.DiffBlocks([bs]) == SB.Result(bs, FI.MAX_BLOCK_LEN) + FI.DiffBlocks([]);
    assert !SB.NeedsSplit(bs, FI.MAX_BLOCK_LEN);
    assert FI.FileBlocks(m, f) == bs;
    assert FI.Items(m, [f]) == FI.FileItems(m, f) + FI.Items(m, []);
  }

  lemma ScatteredIsAFileJob(n: nat)
    requires n > 0
    ensures FR.FileJob(ScatteredJob(n), ShippedMode(), [Scattered(n)])
  {
    var job, m, f := ScatteredJob(n), ShippedMode(), Scattered(n);
    ShippedConfigsAreSound(CEPHFS_CONFIG);
    ScatteredItems(n);
    assert FR.AllInFile(SmallExtents(n), f.size);
    assert FR.Reported(job, f);
    assert job.blocks == FR.Blocks(FI.Items(m, [f]));
  }

  /** There is such a run of the shipped file-system source for every number of blocks over
      2048. */
  lemma FileRunStalls(n: nat) returns (steps: seq<P.Step>)
    requires n > 2048
    ensures FR.FileJob(ScatteredJob(n), ShippedMode(), [Scattered(n)]) && Stalls(ScatteredJob(n), steps)
  {
    ShippedConfigsAreSound(CEPHFS_CONFIG);
    ScatteredIsAFileJob(n);
    FileRunsStallIff(ScatteredJob(n), ShippedMode(), [Scattered(n)]);
    steps :| Stalls(ScatteredJob(n), steps);
  }

  // ---- block devices

  /** A block-device run can stall exactly when its blocks outnumber the window: with a
      full diff of an image that is zero outside the extents, and with any incremental
      one. */
  lemma DeviceRunsStallIff(job: P.Job, full: bool, exts: RR.Extents)
    requires RR.DiffJob(job, full, exts) && MemoryIsPlentiful(job.cfg)
    requires forall x :: 0 <= x < |File(job.src, DEVICE)| && !InUnion(exts, x) && full ==> File(job.src, DEVICE)[x] == 0
    ensures CanStall(job) <==> |job.blocks| > 2 * job.cfg.maxWindow
  {
    RR.DiffJobIsFaithful(job, full, exts);
    Success.FaithfulReadsAreFull(job);
    JobStallsIff(job);
  }

  /** Every other byte of the device has changed. */
  ghost function EveryOther(k: nat, n: nat): (exts: RR.Extents)
    ensures |exts| == n && forall i :: 0 <= i < n ==> exts[i] == RI.Extent(2 * (k + i), 1)
  {
    seq(n, i requires 0 <= i < n => RI.Extent(2 * (k + i), 1))
  }

  /** One block for each. */
  lemma {:induction false} OneBlockEach(total: nat, chunk: int, pos: nat, k: nat, n: nat)
    requires chunk > 0 && pos <= 2 * k
    ensures |RI.ChopAll(RI.Spans(false, total, pos, EveryOther(k, n)), chunk)| == n
    decreases n
  {
    if n > 0 {
      var exts := EveryOther(k, n);
      assert exts[1..] == EveryOther(k + 1, n - 1);
      OneBlockEach(total, chunk, exts[0].End(), k + 1, n - 1);
      RI.NextExtent(false, total, chunk, pos, exts);
    }
  }

  ghost function EveryOtherJob(n: nat): (job: P.Job)
    ensures job.cfg == RBD_CONFIG && File(job.src, DEVICE) == File(job.dest0, DEVICE) == Zeros(2 * n)
    ensures job.blocks == RR.Blocks(RI.Emitted(false, 2 * n, RBD_CONFIG.chunkSize, EveryOther(0, n)), 2 * n)
  {
    var image := map[DEVICE := Zeros(2 * n)];
    P.Job(RBD_CONFIG, RR.Blocks(RI.Emitted(false, 2 * n, RBD_CONFIG.chunkSize, EveryOther(0, n)), 2 * n), image, image)
  }

  lemma {:induction false} EveryOtherIsSorted(k: nat, n: nat)
    ensures Sorted(EveryOther(k, n))
    decreases n
  {
    if n > 0 {
      assert EveryOther(k, n)[1..] == EveryOther(k + 1, n - 1);
      EveryOtherIsSorted(k + 1, n - 1);
    }
  }

  lemma EveryOtherIsADiffJob(n: nat)
    ensures RR.DiffJob(EveryOtherJob(n), false, EveryOther(0, n)) && |EveryOtherJob(n).blocks| == n
  {
    ShippedConfigsAreSound(RBD_CONFIG);
    OneBlockEach(2 * n, RBD_CONFIG.chunkSize, 0, 0, n);
    EveryOtherIsSorted(0, n);
    var job := EveryOtherJob(n);
    assert job.blocks == RR.Blocks(RR.Pieces(job, false, EveryOther(0, n)), |File(job.src, DEVICE)|);
  }

  /** There is such a run of the shipped block-device source for every number of blocks over
      512. */
  lemma DeviceRunStalls(n: nat) returns (steps: seq<P.Step>)
    requires n > 512
    ensures RR.DiffJob(EveryOtherJob(n), false, EveryOther(0, n)) && |EveryOtherJob(n).blocks| == n
    ensures Stalls(EveryOtherJob(n), steps)
  {
    ShippedConfigsAreSound(RBD_CONFIG);
    EveryOtherIsADiffJob(n);
    DeviceRunsStallIff(EveryOtherJob(n), false, EveryOther(0, n));
    steps :| Stalls(EveryOtherJob(n), steps);
  }
}
