/** Large files end to end: what a run leaves of a file whose diff has an extent of more
    than 16 MiB before another one. */
module LongExtents {
  import opened Contents
  import opened Configuration
  import P = Protocol
  import SB = SplitBlocks
  import FI = FileIterator
  import opened FileIds
  import opened FileReplication
  import Replication
  import Success

  /** A large file with a diff of disjoint extents, read in any number of batches. */
  ghost predicate LargeFile(m: FI.Mode, f: FI.FileIn) {
    !FI.IsEmpty(m, f) && !FI.IsSmall(m, f) && f.diff.Reads? && SB.Disjoint(Delivered(f.diff.batches))
  }

  /** The blocks of a diff cover nothing outside its extents. */
  lemma {:induction false} DiffIsWithin(batches: seq<seq<SB.Block>>, x: nat)
    requires SB.Covered(FI.DiffBlocks(batches), x)
    ensures SB.Covered(Delivered(batches), x)
  {
    var first, rest := SB.Result(batches[0], FI.MAX_BLOCK_LEN), FI.DiffBlocks(batches[1..]);
    SB.CoveredConcat(first, rest, x);
    SB.CoveredConcat(batches[0], Delivered(batches[1..]), x);
    if SB.Covered(first, x) {
      SB.ResultIsWithin(batches[0], FI.MAX_BLOCK_LEN, x);
    } else {
      DiffIsWithin(batches[1..], x);
    }
  }

  /** A byte that is lost to the first batch or to one behind it. */
  lemma {:induction false} LostInDiff(batches: seq<seq<SB.Block>>) returns (x: nat)
    requires SB.Disjoint(Delivered(batches)) && !SafeBatches(batches)
    ensures SB.Covered(Delivered(batches), x) && !SB.Covered(FI.DiffBlocks(batches), x)
  {
    var b, later := batches[0], batches[1..];
    SB.DisjointParts(b, Delivered(later), 0);
    if SB.OnlyLastIsLong(b, FI.MAX_BLOCK_LEN) {
      x := LostInDiff(later);
    } else {
      x := SB.LostByte(b, FI.MAX_BLOCK_LEN);
    }
    OnlyOnce(b, later, x);
  }

  /** A byte of one batch that is not under the blocks of that batch is under none. */
  lemma OnlyOnce(b: seq<SB.Block>, later: seq<seq<SB.Block>>, x: nat)
    requires b != [] && SB.Disjoint(b + Delivered(later))
    requires || (SB.Covered(b, x) && !SB.Covered(SB.Result(b, FI.MAX_BLOCK_LEN), x))
             || (SB.Covered(Delivered(later), x) && !SB.Covered(FI.DiffBlocks(later), x))
    ensures SB.Covered(b + Delivered(later), x)
    ensures !SB.Covered(SB.Result(b, FI.MAX_BLOCK_LEN) + FI.DiffBlocks(later), x)
  {
    SB.DisjointParts(b, Delivered(later), x);
    SB.CoveredConcat(b, Delivered(later), x);
    SB.CoveredConcat(SB.Result(b, FI.MAX_BLOCK_LEN), FI.DiffBlocks(later), x);
    if SB.Covered(SB.Result(b, FI.MAX_BLOCK_LEN), x) {
      SB.ResultIsWithin(b, FI.MAX_BLOCK_LEN, x);
    }
    if SB.Covered(FI.DiffBlocks(later), x) {
      DiffIsWithin(later, x);
    }
  }

  /** The blocks of a diff of disjoint extents cover the same bytes if and only if no batch
      has an extent over 16 MiB before another one. */
  lemma DiffKeepsBytesIff(batches: seq<seq<SB.Block>>)
    requires SB.Disjoint(Delivered(batches))
    ensures (forall x: nat :: SB.Covered(FI.DiffBlocks(batches), x) <==> SB.Covered(Delivered(batches), x)) <==>
              SafeBatches(batches)
  {
    if SafeBatches(batches) {
      forall x: nat ensures SB.Covered(FI.DiffBlocks(batches), x) <==> SB.Covered(Delivered(batches), x) {
        DiffCovers(batches, x);
      }
    } else {
      var x := LostInDiff(batches);
    }
  }

  /** An extent over 16 MiB before another one in some batch: there is a byte under the
      extents that no run writes, so after every run that returns no error it is what it
      was before. */
  lemma SomeByteIsNeverWritten(job: P.Job, m: FI.Mode, fs: seq<FI.FileIn>, k: nat, steps: seq<P.Step>)
    returns (x: nat)
    requires FileJob(job, m, fs) && k < |fs| && LargeFile(m, fs[k]) && !SafeBatches(fs[k].diff.batches)
    requires P.Valid(job, steps) && P.Succeeded(P.After(job, steps))
    ensures SB.Covered(Delivered(fs[k].diff.batches), x)
    ensures ByteAt(File(P.After(job, steps).dest, fs[k].path), x) == ByteAt(File(job.dest0, fs[k].path), x)
  {
    x := LostInDiff(fs[k].diff.batches);
    CoveredByFile(job, m, fs, k, x);
    FileJobIsFaithful(job, m, fs);
    Replication.SuccessfulRunLeaves(job, steps, fs[k].path);
  }

  // ---- an instance

  const SIZE: nat := 2 * FI.MAX_BLOCK_LEN + 1

  ghost function LongThenShort(): seq<SB.Block> {
    [SB.Block(0, 2 * FI.MAX_BLOCK_LEN), SB.Block(2 * FI.MAX_BLOCK_LEN, 1)]
  }

  /** The mode of the source with its own configuration. */
  ghost function ShippedMode(): FI.Mode {
    FI.Mode(true, CEPHFS_CONFIG.dataBatchMaxBytes, true)
  }

  ghost function BigFile(): FI.FileIn {
    FI.FileIn("big", SIZE, FI.Reads([LongThenShort()]))
  }

  /** The source's file is all ones; the destination does not have it yet. */
  ghost function BigJob(): P.Job {
    P.Job(CEPHFS_CONFIG, BigBlocks(), map["big" := seq(SIZE, _ => 1)], map[])
  }

  /** The blocks that the iterator makes: the second one twice, and the last byte in none. */
  ghost function BigBlocks(): seq<P.Block> {
    var m := FI.MAX_BLOCK_LEN;
    [P.Block("big", 0, m, SIZE, false), P.Block("big", m, m, SIZE, false), P.Block("big", m, m, SIZE, false)]
  }

  lemma TwoPieces(off: nat, maxLen: nat)
    requires maxLen > 0
    ensures SB.Pieces(SB.Block(off, 2 * maxLen), maxLen) == [SB.Block(off, maxLen), SB.Block(off + maxLen, maxLen)]
  {
    assert SB.Pieces(SB.Block(off + maxLen, maxLen), maxLen) == [SB.Block(off + maxLen, maxLen)];
  }

  lemma SplitInPlace(bs: seq<SB.Block>, m: nat, rest: SB.Block)
    requires m > 0 && bs == [SB.Block(0, 2 * m), rest]
    ensures SB.Result(bs, m) == [SB.Block(0, m), SB.Block(m, m), SB.Block(m, m)]
  {
    assert bs[0].len > m;
    TwoPieces(0, m);
    assert SB.InPlace(bs, m, 0) == [];
    assert SB.ReadBack(bs, [], 0) == bs[0];
    var one := SB.InPlace(bs, m, 1);
    assert one == [] + SB.Pieces(bs[0], m) == [SB.Block(0, m), SB.Block(m, m)];
    assert SB.ReadBack(bs, one, 1) == SB.Block(m, m);
    assert SB.InPlace(bs, m, 2) == one + SB.Pieces(SB.Block(m, m), m);
  }

  lemma BigFileIsUnsafe()
    ensures LargeFile(ShippedMode(), BigFile()) && !SafeBatches([LongThenShort()])
    ensures Delivered([LongThenShort()]) == LongThenShort()
  {
    assert LongThenShort()[0].len > FI.MAX_BLOCK_LEN && [LongThenShort()][1..] == [];
    assert Delivered([LongThenShort()]) == LongThenShort() + Delivered([]);
  }

  lemma BigFileBlocks()
    ensures FI.FileBlocks(ShippedMode(), BigFile()) == SB.Result(LongThenShort(), FI.MAX_BLOCK_LEN)
  {
    var bs := LongThenShort();
    assert [bs][1..] == [];
    assert FI.DiffBlocks([bs]) == SB.Result(bs, FI.MAX_BLOCK_LEN) + FI.DiffBlocks([]);
  }

  lemma BigJobIsAFileJob()
    ensures FileJob(BigJob(), ShippedMode(), [BigFile()])
  {
    var m, f := ShippedMode(), BigFile();
    ShippedConfigsAreSound(CEPHFS_CONFIG);
    BigFileBlocks();
    SplitInPlace(LongThenShort(), FI.MAX_BLOCK_LEN, LongThenShort()[1]);
    OneFileItems(m, f);
    assert Reported(BigJob(), f);
    assert BigBlocks() == Blocks(FI.Items(m, [f]));
  }

  lemma OneFileItems(m: FI.Mode, f: FI.FileIn)
    ensures FI.Items(m, [f]) == FI.FileItems(m, f)
  {
    assert [f][1..] == [];
    assert FI.Items(m, [f]) == FI.FileItems(m, f) + FI.Items(m, []);
  }

  lemma BigBytes(x: nat)
    requires SB.Covered(Delivered(BigFile().diff.batches), x)
    ensures ByteAt(File(BigJob().src, "big"), x) == 1 && ByteAt(File(BigJob().dest0, "big"), x) == 0
  {
    assert x < SIZE;
  }

  /** So there is a job of the shipped source and a run of it that returns no error and
      leaves the file different: its last byte is lost. */
  lemma LongExtentLosesAByte() returns (steps: seq<P.Step>)
    ensures FileJob(BigJob(), ShippedMode(), [BigFile()])
    ensures P.Valid(BigJob(), steps) && P.Succeeded(P.After(BigJob(), steps))
    ensures File(P.After(BigJob(), steps).dest, "big") != File(BigJob().src, "big")
  {
    var job, fs := BigJob(), [BigFile()];
    BigJobIsAFileJob();
    BigFileIsUnsafe();
    ShippedConfigsAreSound(CEPHFS_CONFIG);
    FileJobIsFaithful(job, ShippedMode(), fs);
    steps := Success.SuccessfulRunExists(job);
    var x := SomeByteIsNeverWritten(job, ShippedMode(), fs, 0, steps);
    BigBytes(x);
  }
}
