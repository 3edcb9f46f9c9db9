/** The file system end to end: iterator, pipeline, destination and commits together. */
module FileReplication {
  import opened Contents
  import opened Configuration
  import P = Protocol
  import SB = SplitBlocks
  import FI = FileIterator
  import opened FileIds
  import Replication

  ghost function BlockOf(i: FI.Item): (b: P.Block)
    requires i.total >= 0
  {
    P.Block(i.path, i.off, i.len, i.total, false)
  }

  ghost function Blocks(items: seq<FI.Item>): (b: seq<P.Block>)
    requires forall i :: 0 <= i < |items| ==> items[i].total >= 0
    ensures |b| == |items|
    ensures forall i :: 0 <= i < |b| ==> b[i] == BlockOf(items[i])
  {
    seq(|items|, i requires 0 <= i < |items| => BlockOf(items[i]))
  }

  ghost predicate InFile(b: SB.Block, size: nat) { b.off + b.len <= size }

  ghost predicate AllInFile(bs: seq<SB.Block>, size: nat) {
    forall i :: 0 <= i < |bs| ==> InFile(bs[i], size)
  }

  /** A changed file as the walk reports it: its size is that of the source's file, and
      its diff stays within the file. */
  ghost predicate Reported(job: P.Job, f: FI.FileIn) {
    && f.path != ""
    && f.size == |File(job.src, f.path)|
    && (f.diff.Reads? ==> forall i :: 0 <= i < |f.diff.batches| ==> AllInFile(f.diff.batches[i], f.size))
  }

  ghost predicate ChannelFed(m: FI.Mode) { m.channel && m.boundaries }

  /** The job that the iterator makes of a list of different files. */
  ghost predicate FileJob(job: P.Job, m: FI.Mode, fs: seq<FI.FileIn>) {
    && Usable(job.cfg) && job.cfg.chunkSize == FI.MAX_BLOCK_LEN
    && ChannelFed(m) && Distinct(fs)
    && (forall k :: 0 <= k < |fs| ==> Reported(job, fs[k]))
    && (forall i :: 0 <= i < |FI.Items(m, fs)| ==> FI.Items(m, fs)[i].total >= 0)
    && job.blocks == Blocks(FI.Items(m, fs))
  }

  /** What the feeder makes of the iterator's blocks. */
  ghost function Fed(cs: seq<ChangeBlock>): (b: seq<P.Block>)
    requires forall i :: 0 <= i < |cs| ==> cs[i].totalSize >= 0
    ensures |b| == |cs|
    ensures forall i :: 0 <= i < |b| ==>
              b[i] == P.Block(cs[i].path, cs[i].off, cs[i].len, cs[i].totalSize, cs[i].isZero)
  {
    seq(|cs|, i requires 0 <= i < |cs| =>
      P.Block(cs[i].path, cs[i].off, cs[i].len, cs[i].totalSize, cs[i].isZero))
  }

  /** The iterator's output is the job: for files as the walk reports them, the blocks that
      it delivers when the context is never done, with the ids 0, 1, 2 and so on, are those
      of the job about which the results below speak. */
  method FeedFiles(cfg: Config, m: FI.Mode, fs: seq<FI.FileIn>, moments: seq<FI.Moment>, limit: nat,
                   ghost src: Files, ghost dest0: Files)
    returns (cs: seq<ChangeBlock>, bounds: seq<Boundary>)
    requires Usable(cfg) && cfg.chunkSize == FI.MAX_BLOCK_LEN && ChannelFed(m) && Distinct(fs)
    requires forall k :: 0 <= k < |fs| ==> Reported(P.Job(cfg, [], src, dest0), fs[k])
    requires FI.NeverDone(moments)
    ensures forall i :: 0 <= i < |cs| ==> cs[i].reqID == i && cs[i].totalSize >= 0
    ensures FileJob(P.Job(cfg, Fed(cs), src, dest0), m, fs)
  {
    cs, bounds := FI.Iterate(m, fs, moments, limit);
    forall i | 0 <= i < |FI.Items(m, fs)| ensures FI.Items(m, fs)[i].total >= 0 {
      var k, j := ItemHasFile(m, fs, i);
      assert Reported(P.Job(cfg, [], src, dest0), fs[k]);
    }
    assert Fed(cs) == Blocks(FI.Items(m, fs));
    forall k | 0 <= k < |fs| ensures Reported(P.Job(cfg, Fed(cs), src, dest0), fs[k]) {
      assert Reported(P.Job(cfg, [], src, dest0), fs[k]);
    }
  }

  // ---- the blocks stay within the file

  lemma {:induction false} PiecesInFile(b: SB.Block, maxLen: nat, size: nat)
    requires maxLen > 0 && InFile(b, size)
    ensures AllInFile(SB.Pieces(b, maxLen), size)
    decreases b.len
  {
    if b.len > maxLen {
      PiecesInFile(SB.Block(b.off + maxLen, b.len - maxLen), maxLen, size);
    }
  }

  lemma {:induction false} InPlaceInFile(bs: seq<SB.Block>, maxLen: nat, k: nat, size: nat)
    requires maxLen > 0 && k <= |bs| && AllInFile(bs, size)
    ensures AllInFile(SB.InPlace(bs, maxLen, k), size)
  {
    if k > 0 {
      InPlaceInFile(bs, maxLen, k - 1, size);
      PiecesInFile(SB.ReadBack(bs, SB.InPlace(bs, maxLen, k - 1), k - 1), maxLen, size);
    }
  }

  lemma {:induction false} DiffInFile(batches: seq<seq<SB.Block>>, size: nat)
    requires forall i :: 0 <= i < |batches| ==> AllInFile(batches[i], size)
    ensures AllInFile(FI.DiffBlocks(batches), size)
  {
    if batches != [] && batches[0] != [] {
      assert AllInFile(batches[0], size);
      InPlaceInFile(batches[0], FI.MAX_BLOCK_LEN, |batches[0]|, size);
      DiffInFile(batches[1..], size);
    }
  }

  lemma FileBlocksInFile(job: P.Job, m: FI.Mode, f: FI.FileIn)
    requires Reported(job, f)
    ensures AllInFile(FI.FileBlocks(m, f), f.size)
  {
    if !FI.IsEmpty(m, f) {
      if FI.IsSmall(m, f) {
        FI.OneBatch([SB.Block(0, f.size)]);
        InPlaceInFile([SB.Block(0, f.size)], FI.MAX_BLOCK_LEN, 1, f.size);
      } else if f.diff.Reads? {
        DiffInFile(f.diff.batches, f.size);
      }
    }
  }

  /** Every block lies in its file, is no longer than a chunk, so that no read is cut
      short, and carries the size of the source's file. */
  lemma FileJobIsFaithful(job: P.Job, m: FI.Mode, fs: seq<FI.FileIn>)
    requires FileJob(job, m, fs)
    ensures Replication.Faithful(job)
  {
    forall i | 0 <= i < |job.blocks| ensures Replication.Describes(job, job.blocks[i]) {
      var k, j := ItemHasFile(m, fs, i);
      FileBlocksInFile(job, m, fs[k]);
      assert InFile(FI.FileBlocks(m, fs[k])[j], fs[k].size);
    }
  }

  // ---- the blocks account for the diff

  /** What the diff delivers before its first empty batch. */
  ghost function Delivered(batches: seq<seq<SB.Block>>): (s: seq<SB.Block>) {
    if batches == [] || batches[0] == [] then [] else batches[0] + Delivered(batches[1..])
  }

  /** None of these batches has an extent over 16 MiB before another one. */
  ghost predicate SafeBatches(batches: seq<seq<SB.Block>>) {
    batches == [] || batches[0] == [] ||
    (SB.OnlyLastIsLong(batches[0], FI.MAX_BLOCK_LEN) && SafeBatches(batches[1..]))
  }

  lemma {:induction false} DiffCovers(batches: seq<seq<SB.Block>>, x: nat)
    requires SafeBatches(batches)
    ensures SB.Covered(FI.DiffBlocks(batches), x) <==> SB.Covered(Delivered(batches), x)
  {
    if batches != [] && batches[0] != [] {
      var first := SB.Result(batches[0], FI.MAX_BLOCK_LEN);
      DiffCovers(batches[1..], x);
      SB.SafeSplitIsExact(batches[0], FI.MAX_BLOCK_LEN);
      SB.SplitCovers(batches[0], FI.MAX_BLOCK_LEN, x);
      SB.CoveredConcat(first, FI.DiffBlocks(batches[1..]), x);
      SB.CoveredConcat(batches[0], Delivered(batches[1..]), x);
    }
  }

  /** The destination's file is no longer than the source's. A small file needs no more:
      it is copied as a whole. Any other file must have been opened, no batch may have an
      extent over 16 MiB before another one, and outside the extents source and
      destination must agree. */
  ghost predicate Agreed(job: P.Job, m: FI.Mode, f: FI.FileIn) {
    var src, dst := File(job.src, f.path), File(job.dest0, f.path);
    && |dst| <= |src|
    && (!FI.IsSmall(m, f) && !FI.IsEmpty(m, f) ==>
          && f.diff.Reads? && SafeBatches(f.diff.batches)
          && (|dst| < |src| ==> FI.FileBlocks(m, f) != [])
          && forall x: nat :: !SB.Covered(Delivered(f.diff.batches), x) ==> ByteAt(src, x) == ByteAt(dst, x))
  }

  /** A file from the channel that is not empty and not over the threshold is covered whole. */
  lemma SmallFileIsWhole(m: FI.Mode, f: FI.FileIn, x: nat)
    requires m.channel && 0 < f.size <= m.smallFileThreshold
    ensures SB.Covered(FI.FileBlocks(m, f), x) <==> x < f.size
  {
    FI.BlocksOfFile(m, f);
    SB.PiecesCover(SB.Block(0, f.size), FI.MAX_BLOCK_LEN, x);
  }

  lemma SmallFileCovered(m: FI.Mode, f: FI.FileIn, x: nat)
    requires FI.IsSmall(m, f)
    ensures SB.Covered(FI.FileBlocks(m, f), x) <==> x < f.size
  {
    SmallFileIsWhole(m, f, x);
  }

  /** A byte on which the source may differ is under a block of the file. */
  lemma DifferenceIsCovered(job: P.Job, m: FI.Mode, f: FI.FileIn, x: nat)
    requires ChannelFed(m) && Reported(job, f) && Agreed(job, m, f)
    requires ByteAt(File(job.src, f.path), x) != ByteAt(File(job.dest0, f.path), x)
    ensures SB.Covered(FI.FileBlocks(m, f), x)
  {
    if FI.IsSmall(m, f) {
      SmallFileCovered(m, f, x);
    } else {
      DiffCovers(f.diff.batches, x);
    }
  }

  lemma BlockOfFile(job: P.Job, m: FI.Mode, fs: seq<FI.FileIn>, k: nat, j: nat)
    requires FileJob(job, m, fs) && k < |fs| && j < |FI.FileBlocks(m, fs[k])|
    ensures FirstId(m, fs, k) + j < |job.blocks|
    ensures var b, c := job.blocks[FirstId(m, fs, k) + j], FI.FileBlocks(m, fs[k])[j];
            b.path == fs[k].path && b.off == c.off && b.len == c.len
  {
    RangeHoldsFile(m, fs, k, j);
  }

  /** The pipeline's blocks with the path of a file are the blocks of that file. */
  lemma CoveredByFile(job: P.Job, m: FI.Mode, fs: seq<FI.FileIn>, k: nat, x: nat)
    requires FileJob(job, m, fs) && k < |fs|
    ensures Replication.CoveredBy(job.blocks, fs[k].path, x) <==> SB.Covered(FI.FileBlocks(m, fs[k]), x)
  {
    var own := FI.FileBlocks(m, fs[k]);
    if SB.Covered(own, x) {
      var j :| 0 <= j < |own| && own[j].Has(x);
      BlockOfFile(job, m, fs, k, j);
      assert Replication.Covers(job.blocks[FirstId(m, fs, k) + j], fs[k].path, x);
    }
    if Replication.CoveredBy(job.blocks, fs[k].path, x) {
      var i :| 0 <= i < |job.blocks| && Replication.Covers(job.blocks[i], fs[k].path, x);
      var j := FileOfBlock(job, m, fs, k, i);
      assert own[j].Has(x);
    }
  }

  lemma FileOfBlock(job: P.Job, m: FI.Mode, fs: seq<FI.FileIn>, k: nat, i: nat) returns (j: nat)
    requires FileJob(job, m, fs) && k < |fs| && i < |job.blocks| && job.blocks[i].path == fs[k].path
    ensures j < |FI.FileBlocks(m, fs[k])|
    ensures var b, c := job.blocks[i], FI.FileBlocks(m, fs[k])[j]; b.off == c.off && b.len == c.len
  {
    RangeIsThePath(m, fs, k, i);
    FirstIdNext(m, fs, k);
    j := i - FirstId(m, fs, k);
    BlockOfFile(job, m, fs, k, j);
  }

  lemma HasBlockOfFile(job: P.Job, m: FI.Mode, fs: seq<FI.FileIn>, k: nat)
    requires FileJob(job, m, fs) && k < |fs|
    ensures Replication.HasBlock(job.blocks, fs[k].path) <==> FI.FileBlocks(m, fs[k]) != []
  {
    if FI.FileBlocks(m, fs[k]) != [] {
      BlockOfFile(job, m, fs, k, 0);
    }
    if Replication.HasBlock(job.blocks, fs[k].path) {
      var i :| 0 <= i < |job.blocks| && job.blocks[i].path == fs[k].path;
      var j := FileOfBlock(job, m, fs, k, i);
    }
  }

  /** The destination's file is no longer than the source's, it has a block if it is shorter,
      and the two agree on every byte outside the file's blocks. */
  ghost predicate AgreedOutside(src: seq<Byte>, dst: seq<Byte>, blocks: seq<SB.Block>) {
    && |dst| <= |src| && (|dst| < |src| ==> blocks != [])
    && forall x: nat :: !SB.Covered(blocks, x) ==> ByteAt(src, x) == ByteAt(dst, x)
  }

  lemma AccountedIff(job: P.Job, m: FI.Mode, fs: seq<FI.FileIn>, k: nat)
    requires FileJob(job, m, fs) && k < |fs|
    ensures Replication.Accounts(job, fs[k].path) <==>
              AgreedOutside(File(job.src, fs[k].path), File(job.dest0, fs[k].path), FI.FileBlocks(m, fs[k]))
  {
    HasBlockOfFile(job, m, fs, k);
    forall x: nat ensures Replication.CoveredBy(job.blocks, fs[k].path, x) <==> SB.Covered(FI.FileBlocks(m, fs[k]), x) {
      CoveredByFile(job, m, fs, k, x);
    }
  }

  /** Exactly when a file is replicated: a run that returns no error leaves it equal to the
      source's if and only if the two agreed outside the blocks of the file. */
  lemma FileReplicatedIff(job: P.Job, m: FI.Mode, fs: seq<FI.FileIn>, k: nat, steps: seq<P.Step>)
    requires FileJob(job, m, fs) && k < |fs| && P.Valid(job, steps) && P.Succeeded(P.After(job, steps))
    ensures File(P.After(job, steps).dest, fs[k].path) == File(job.src, fs[k].path) <==>
              AgreedOutside(File(job.src, fs[k].path), File(job.dest0, fs[k].path), FI.FileBlocks(m, fs[k]))
  {
    FileJobIsFaithful(job, m, fs);
    AccountedIff(job, m, fs, k);
    Replication.SuccessfulRunReplicatesIff(job, steps, fs[k].path);
  }

  lemma FileIsAccounted(job: P.Job, m: FI.Mode, fs: seq<FI.FileIn>, k: nat)
    requires FileJob(job, m, fs) && k < |fs| && Agreed(job, m, fs[k])
    ensures Replication.Accounts(job, fs[k].path)
  {
    var f := fs[k];
    assert Reported(job, f);
    forall x: nat | !SB.Covered(FI.FileBlocks(m, f), x)
      ensures ByteAt(File(job.src, f.path), x) == ByteAt(File(job.dest0, f.path), x)
    {
      if ByteAt(File(job.src, f.path), x) != ByteAt(File(job.dest0, f.path), x) {
        DifferenceIsCovered(job, m, f, x);
      }
    }
    AccountedIff(job, m, fs, k);
  }

  /** A file is replicated by every run that returns no error. */
  lemma FileIsReplicated(job: P.Job, m: FI.Mode, fs: seq<FI.FileIn>, k: nat, steps: seq<P.Step>)
    requires FileJob(job, m, fs) && k < |fs| && Agreed(job, m, fs[k])
    requires P.Valid(job, steps) && P.Succeeded(P.After(job, steps))
    ensures File(P.After(job, steps).dest, fs[k].path) == File(job.src, fs[k].path)
  {
    FileJobIsFaithful(job, m, fs);
    FileIsAccounted(job, m, fs, k);
    Replication.SuccessfulRunReplicates(job, steps, fs[k].path);
  }

  /** So such a file is replicated by every run that returns no error, whatever its diff
      says, unless the destination's file is longer. */
  lemma SmallFileIsReplicated(job: P.Job, m: FI.Mode, fs: seq<FI.FileIn>, k: nat, steps: seq<P.Step>)
    requires FileJob(job, m, fs) && k < |fs| && 0 < fs[k].size <= m.smallFileThreshold
    requires |File(job.dest0, fs[k].path)| <= fs[k].size
    requires P.Valid(job, steps) && P.Succeeded(P.After(job, steps))
    ensures File(P.After(job, steps).dest, fs[k].path) == File(job.src, fs[k].path)
  {
    var f := fs[k];
    assert Reported(job, f);
    forall x: nat ensures SB.Covered(FI.FileBlocks(m, f), x) <==> x < f.size {
      SmallFileIsWhole(m, f, x);
    }
    FI.BlocksOfFile(m, f);
    FileReplicatedIff(job, m, fs, k, steps);
  }

  /** Every boundary of the iterator dominates the blocks of its file. */
  lemma BoundaryDominates(job: P.Job, m: FI.Mode, fs: seq<FI.FileIn>, k: nat, id: nat)
    requires FileJob(job, m, fs) && k < |fs| && HasBoundary(m, fs[k])
    requires id < |job.blocks| && job.blocks[id].path == fs[k].path
    ensures id <= BoundaryOf(m, fs, k).last
  {
    RangeIsThePath(m, fs, k, id);
    FirstIdNext(m, fs, k);
  }

  /** Commit safety end to end: when a boundary of the iterator has been committed and the
      run has not failed, the committed file is the source's file, already before the run
      is over and whatever is done to the other files. */
  lemma CommitIsSafe(job: P.Job, m: FI.Mode, fs: seq<FI.FileIn>, b: Boundary, steps: seq<P.Step>)
    requires FileJob(job, m, fs) && b in FI.Bounds(m, fs, 0)
    requires forall k :: 0 <= k < |fs| && fs[k].path == b.path ==> Agreed(job, m, fs[k])
    requires P.Valid(job, steps) && b in P.After(job, steps).commits
    requires !P.After(job, steps).failed
    ensures File(P.After(job, steps).dest, b.path) == File(job.src, b.path)
  {
    var k := EveryBoundaryHasAFile(m, fs, b);
    FileJobIsFaithful(job, m, fs);
    FileIsAccounted(job, m, fs, k);
    forall id | 0 <= id < |job.blocks| && job.blocks[id].path == b.path ensures id <= b.last {
      BoundaryDominates(job, m, fs, k, id);
    }
    Replication.CommittedFileIsSource(job, steps, b);
  }
}
