/** The block device end to end: iterator, pipeline and destination together. */
module RbdReplication {
  import opened Contents
  import opened Configuration
  import opened Protocol
  import RbdIterator
  import opened RbdTiling
  import Replication
  import Runs

  type Extents = seq<RbdIterator.Extent>

  ghost function Blocks(ps: seq<RbdIterator.Piece>, total: nat): (b: seq<Block>)
    ensures |b| == |ps|
    ensures forall i :: 0 <= i < |b| ==> b[i] == Block(DEVICE, ps[i].off, ps[i].len, total, ps[i].zero)
  {
    seq(|ps|, i requires 0 <= i < |ps| => Block(DEVICE, ps[i].off, ps[i].len, total, ps[i].zero))
  }

  ghost function Pieces(job: Job, full: bool, exts: Extents): (ps: seq<RbdIterator.Piece>) {
    RbdIterator.Emitted(full, |File(job.src, DEVICE)|, job.cfg.chunkSize, exts)
  }

  /** The job that the iterator makes of a diff: the diff is in range and sorted by offset,
      and the image fits on the destination's device. */
  ghost predicate DiffJob(job: Job, full: bool, exts: Extents) {
    && Usable(job.cfg)
    && job.blocks == Blocks(Pieces(job, full, exts), |File(job.src, DEVICE)|)
    && |File(job.dest0, DEVICE)| >= |File(job.src, DEVICE)|
    && InRange(exts, |File(job.src, DEVICE)|) && Sorted(exts)
  }

  /** What the feeder makes of the adapter's blocks. */
  ghost function Fed(cs: seq<ChangeBlock>): (b: seq<Block>)
    requires forall i :: 0 <= i < |cs| ==> cs[i].totalSize >= 0
    ensures |b| == |cs|
    ensures forall i :: 0 <= i < |b| ==>
              b[i] == Block(cs[i].path, cs[i].off, cs[i].len, cs[i].totalSize, cs[i].isZero)
  {
    seq(|cs|, i requires 0 <= i < |cs| =>
      Block(cs[i].path, cs[i].off, cs[i].len, cs[i].totalSize, cs[i].isZero))
  }

  /** The adapter's output is the job: the blocks that it delivers for a diff, with the ids
      0, 1, 2 and so on, are those of the job about which the results below speak. */
  method FeedDevice(cfg: Config, full: bool, exts: Extents, total: nat, ghost src: Files, ghost dest0: Files)
    returns (cs: seq<ChangeBlock>)
    requires Usable(cfg) && total == |File(src, DEVICE)| <= |File(dest0, DEVICE)|
    requires InRange(exts, total) && Sorted(exts)
    ensures forall i :: 0 <= i < |cs| ==> cs[i].reqID == i && cs[i].totalSize == total
    ensures DiffJob(Job(cfg, Fed(cs), src, dest0), full, exts)
  {
    var a := new RbdIterator.RbdIterAdapter(exts, total, cfg.chunkSize, full);
    cs := RbdIterator.Feed(a);
    assert Fed(cs) == Blocks(RbdIterator.Emitted(full, total, cfg.chunkSize, exts), total);
  }

  lemma {:induction false} SpansInRange(full: bool, total: nat, pos: nat, exts: Extents)
    requires InRange(exts, total)
    ensures forall p :: p in RbdIterator.Spans(full, total, pos, exts) ==> p.End() <= total
    decreases |exts|
  {
    if exts != [] {
      assert exts[0].End() <= total;
      SpansInRange(full, total, exts[0].End(), exts[1..]);
      SpansInRange(full, total, pos, exts[1..]);
    }
  }

  lemma {:induction false} ChopAllInRange(ps: seq<RbdIterator.Piece>, chunk: int, total: nat, i: nat)
    requires chunk > 0 && (forall p :: p in ps ==> p.End() <= total) && i < |RbdIterator.ChopAll(ps, chunk)|
    ensures RbdIterator.ChopAll(ps, chunk)[i].End() <= total
  {
    var first := RbdIterator.Chop(ps[0], chunk);
    if i < |first| {
      ChopLengths(ps[0], chunk, i);
      assert ps[0] in ps;
    } else {
      ChopAllInRange(ps[1..], chunk, total, i - |first|);
    }
  }

  lemma PieceInRange(job: Job, full: bool, exts: Extents, i: nat)
    requires DiffJob(job, full, exts) && i < |job.blocks|
    ensures Pieces(job, full, exts)[i].End() <= |File(job.src, DEVICE)|
    ensures Pieces(job, full, exts)[i].len <= job.cfg.chunkSize
  {
    var total := |File(job.src, DEVICE)|;
    var spans := RbdIterator.Spans(full, total, 0, exts);
    SpansInRange(full, total, 0, exts);
    ChopAllInRange(spans, job.cfg.chunkSize, total, i);
    ChunkLengths(spans, job.cfg.chunkSize, i);
  }

  lemma {:induction false} DataAtHas(ps: seq<RbdIterator.Piece>, x: nat) returns (j: nat)
    requires DataAt(ps, x)
    ensures j < |ps| && !ps[j].zero && ps[j].off <= x < ps[j].End()
  {
    if !ps[0].zero && ps[0].off <= x < ps[0].End() {
      j := 0;
    } else {
      j := DataAtHas(ps[1..], x);
      j := j + 1;
    }
  }

  /** A byte under a zero block is in no extent. */
  lemma ZeroIsOutside(job: Job, full: bool, exts: Extents, i: nat, x: nat)
    requires DiffJob(job, full, exts) && i < |job.blocks|
    requires var p := Pieces(job, full, exts)[i]; p.zero && p.off <= x < p.End()
    ensures !InUnion(exts, x)
  {
    var total, chunk := |File(job.src, DEVICE)|, job.cfg.chunkSize;
    var ps := Pieces(job, full, exts);
    SortedDataIsUnion(full, total, chunk, exts, x);
    if DataAt(ps, x) {
      var j := DataAtHas(ps, x);
      if i < j { BlocksAreDisjoint(full, total, chunk, exts, i, j); }
      if j < i { BlocksAreDisjoint(full, total, chunk, exts, j, i); }
    }
  }

  lemma DiffJobIsFaithful(job: Job, full: bool, exts: Extents)
    requires DiffJob(job, full, exts)
    requires forall x :: 0 <= x < |File(job.src, DEVICE)| && !InUnion(exts, x) && full ==> File(job.src, DEVICE)[x] == 0
    ensures Replication.Faithful(job)
  {
    forall i | 0 <= i < |job.blocks| ensures Replication.Describes(job, job.blocks[i]) {
      PieceInRange(job, full, exts, i);
      var p := Pieces(job, full, exts)[i];
      if p.zero {
        ZeroPieceIsFull(job, full, exts, i);
        forall x | p.off <= x < p.End() ensures File(job.src, DEVICE)[x] == 0 {
          ZeroIsOutside(job, full, exts, i, x);
        }
      }
    }
  }

  lemma ZeroPieceIsFull(job: Job, full: bool, exts: Extents, i: nat)
    requires DiffJob(job, full, exts) && i < |job.blocks| && Pieces(job, full, exts)[i].zero
    ensures full
  {
    var total := |File(job.src, DEVICE)|;
    if !full {
      IncrementalHasNoZero(total, 0, exts);
      ChopAllZero(RbdIterator.Spans(false, total, 0, exts), job.cfg.chunkSize, i);
    }
  }

  lemma {:induction false} ChopAllZero(ps: seq<RbdIterator.Piece>, chunk: int, i: nat)
    requires chunk > 0 && (forall p :: p in ps ==> !p.zero) && i < |RbdIterator.ChopAll(ps, chunk)|
    ensures !RbdIterator.ChopAll(ps, chunk)[i].zero
  {
    var first := RbdIterator.Chop(ps[0], chunk);
    if i < |first| {
      ChopLengths(ps[0], chunk, i);
      assert ps[0] in ps;
    } else {
      ChopAllZero(ps[1..], chunk, i - |first|);
    }
  }

  lemma InUnionIsCovered(job: Job, full: bool, exts: Extents, x: nat)
    requires DiffJob(job, full, exts) && (InUnion(exts, x) || (full && x < |File(job.src, DEVICE)|))
    ensures Replication.CoveredBy(job.blocks, DEVICE, x)
  {
    var total, chunk := |File(job.src, DEVICE)|, job.cfg.chunkSize;
    var ps := Pieces(job, full, exts);
    var i: nat;
    if InUnion(exts, x) {
      SortedDataIsUnion(full, total, chunk, exts, x);
      i := DataAtHas(ps, x);
    } else {
      FullDiffTiles(total, chunk, exts);
      TiledCovers(ps, 0, total, x);
      i :| 0 <= i < |ps| && ps[i].off <= x < ps[i].End();
    }
    assert Replication.Covers(job.blocks[i], DEVICE, x);
  }

  // ---- the device after a run

  /** The device holds the image, and behind it what it held before. */
  ghost predicate Holds(d: seq<Byte>, image: seq<Byte>, before: seq<Byte>) {
    |image| <= |before| && d == image + before[|image|..]
  }

  lemma NothingBeyondImage(job: Job, full: bool, exts: Extents, x: nat)
    requires DiffJob(job, full, exts) && Replication.CoveredBy(job.blocks, DEVICE, x)
    ensures x < |File(job.src, DEVICE)|
  {
    var i :| 0 <= i < |job.blocks| && Replication.Covers(job.blocks[i], DEVICE, x);
    PieceInRange(job, full, exts, i);
  }

  /** A run that returns no error leaves the image on the device if and only if image and
      device agreed on every byte of it that no block covers. */
  lemma DeviceHoldsIff(job: Job, full: bool, exts: Extents, steps: seq<Step>)
    requires DiffJob(job, full, exts) && Replication.Faithful(job) && Valid(job, steps) && Succeeded(After(job, steps))
    ensures Holds(File(After(job, steps).dest, DEVICE), File(job.src, DEVICE), File(job.dest0, DEVICE)) <==>
              forall x :: 0 <= x < |File(job.src, DEVICE)| && !Replication.CoveredBy(job.blocks, DEVICE, x) ==>
                File(job.src, DEVICE)[x] == File(job.dest0, DEVICE)[x]
  {
    var d, c, c0 := File(After(job, steps).dest, DEVICE), File(job.src, DEVICE), File(job.dest0, DEVICE);
    Replication.SuccessfulRunLeaves(job, steps, DEVICE);
    forall x: nat | |c| <= x < |c0| ensures d[x] == c0[x] {
      if Replication.CoveredBy(job.blocks, DEVICE, x) {
        NothingBeyondImage(job, full, exts, x);
      }
      assert ByteAt(d, x) == ByteAt(c0, x);
    }
    forall x: nat | x < |c|
      ensures d[x] == if Replication.CoveredBy(job.blocks, DEVICE, x) then c[x] else c0[x]
    {
      assert d[x] == ByteAt(d, x);
    }
    HoldsByBytes(d, c, c0);
  }

  lemma HoldsByBytes(d: seq<Byte>, c: seq<Byte>, c0: seq<Byte>)
    requires |c| <= |c0| == |d| && forall x :: |c| <= x < |c0| ==> d[x] == c0[x]
    ensures Holds(d, c, c0) <==> forall x :: 0 <= x < |c| ==> d[x] == c[x]
  {
    if forall x :: 0 <= x < |c| ==> d[x] == c[x] {
      assert d == c + c0[|c|..];
    }
    if Holds(d, c, c0) {
      assert forall x :: 0 <= x < |c| ==> d[x] == (c + c0[|c|..])[x];
    }
  }

  /** A full diff replicates: when the source is zero outside the extents, then after
      every run that returns no error the destination's device holds the image,
      whatever it held before. */
  lemma FullDiffReplicates(job: Job, exts: Extents, steps: seq<Step>)
    requires DiffJob(job, true, exts)
    requires forall x :: 0 <= x < |File(job.src, DEVICE)| && !InUnion(exts, x) ==> File(job.src, DEVICE)[x] == 0
    requires Valid(job, steps) && Succeeded(After(job, steps))
    ensures Holds(File(After(job, steps).dest, DEVICE), File(job.src, DEVICE), File(job.dest0, DEVICE))
  {
    DiffJobIsFaithful(job, true, exts);
    forall x: nat | x < |File(job.src, DEVICE)| ensures Replication.CoveredBy(job.blocks, DEVICE, x) {
      InUnionIsCovered(job, true, exts, x);
    }
    DeviceHoldsIff(job, true, exts, steps);
  }

  /** An incremental diff replicates: when image and device agree outside the extents, as
      they do when the device holds the base snapshot, then after every run that returns
      no error the device holds the image. */
  lemma IncrementalDiffReplicates(job: Job, exts: Extents, steps: seq<Step>)
    requires DiffJob(job, false, exts)
    requires forall x :: 0 <= x < |File(job.src, DEVICE)| && !InUnion(exts, x) ==>
               File(job.src, DEVICE)[x] == File(job.dest0, DEVICE)[x]
    requires Valid(job, steps) && Succeeded(After(job, steps))
    ensures Holds(File(After(job, steps).dest, DEVICE), File(job.src, DEVICE), File(job.dest0, DEVICE))
  {
    IncrementalReplicatesIff(job, exts, steps);
  }

  lemma CoveredIsInUnion(job: Job, exts: Extents, x: nat)
    requires DiffJob(job, false, exts) && Replication.CoveredBy(job.blocks, DEVICE, x)
    ensures InUnion(exts, x)
  {
    var total, chunk := |File(job.src, DEVICE)|, job.cfg.chunkSize;
    var ps := Pieces(job, false, exts);
    var i :| 0 <= i < |job.blocks| && Replication.Covers(job.blocks[i], DEVICE, x);
    if ps[i].zero {
      ZeroPieceIsFull(job, false, exts, i);
    }
    PieceIsData(ps, i, x);
    SortedDataIsUnion(false, total, chunk, exts, x);
  }

  lemma {:induction false} PieceIsData(ps: seq<RbdIterator.Piece>, i: nat, x: nat)
    requires i < |ps| && !ps[i].zero && ps[i].off <= x < ps[i].End()
    ensures DataAt(ps, x)
  {
    if i > 0 {
      PieceIsData(ps[1..], i - 1, x);
    }
  }

  /** The condition is exact: after an incremental run that returns no error the device
      holds the image if and only if they agreed outside the extents before it. */
  lemma IncrementalReplicatesIff(job: Job, exts: Extents, steps: seq<Step>)
    requires DiffJob(job, false, exts) && Valid(job, steps) && Succeeded(After(job, steps))
    ensures Holds(File(After(job, steps).dest, DEVICE), File(job.src, DEVICE), File(job.dest0, DEVICE)) <==>
              forall x :: 0 <= x < |File(job.src, DEVICE)| && !InUnion(exts, x) ==>
                File(job.src, DEVICE)[x] == File(job.dest0, DEVICE)[x]
  {
    DiffJobIsFaithful(job, false, exts);
    DeviceHoldsIff(job, false, exts, steps);
    forall x: nat ensures Replication.CoveredBy(job.blocks, DEVICE, x) <==> InUnion(exts, x) {
      if InUnion(exts, x) {
        InUnionIsCovered(job, false, exts, x);
      }
      if Replication.CoveredBy(job.blocks, DEVICE, x) {
        CoveredIsInUnion(job, exts, x);
      }
    }
  }

  /** The block-device source signals Done after a successful run, once the last id is
      released. It never has to wait for that, and every block is acknowledged. */
  lemma DoneFollowsEveryAck(job: Job, steps: seq<Step>)
    requires Usable(job.cfg) && Valid(job, steps) && Succeeded(After(job, steps)) && job.blocks != []
    ensures After(job, steps).res.win.ring.base > |job.blocks| - 1
    ensures forall id :: 0 <= id < |job.blocks| ==> After(job, steps).loc[id].Acked?
  {
    Runs.SuccessfulRunIsComplete(job, steps);
  }
}
