/** The stages put together on values: what a read worker makes of a block, what a send
    worker makes of that, and what the two servers make of the requests, against the write
    steps of the pipeline. */
module Wiring {
  import opened Wrappers
  import opened Contents
  import opened Configuration
  import P = Protocol
  import B = Batching
  import D = Destination
  import FileCaches

  // ---- the read worker

  /** What is sent for a block: a run of zeros if it is marked so or reads as zeros, and
      else the bytes that were read, which are cut short at the end of the file. Memory is
      held only for bytes. */
  method ReadBlock(b: P.Block, id: nat, content: seq<Byte>, chunkSize: nat) returns (c: B.ReadChunk)
    ensures c.reqID == id && c.path == b.path && c.off == b.off && c.total == b.total
    ensures var d := ReadAt(content, b.off, Min(b.len, chunkSize));
            if b.isZero || AllZero(d)
            then c.isZero && c.len == b.len && c.data == [] && c.held == B.Held(id, 0, true, false)
            else !c.isZero && c.len == |d| && c.data == d && c.held == B.Held(id, Min(b.len, chunkSize), true, true)
  {
    if b.isZero {
      return B.ReadChunk(id, b.path, b.off, b.len, true, [], b.total, B.Held(id, 0, true, false));
    }
    var acquireSize := if b.len < chunkSize then b.len else chunkSize;
    var data := ReadAt(content, b.off, acquireSize);
    var zero := D.IsAllZero(data);
    if zero {
      return B.ReadChunk(id, b.path, b.off, b.len, true, [], b.total, B.Held(id, 0, true, false));
    }
    c := B.ReadChunk(id, b.path, b.off, |data|, false, data, b.total, B.Held(id, acquireSize, true, true));
  }

  /** The chunk that a read worker makes of the block with this id. */
  ghost predicate StandsFor(job: P.Job, c: B.ReadChunk, id: nat)
    requires Usable(job.cfg)
  {
    id < |job.blocks| &&
    var b := job.blocks[id];
    && c.reqID == id && c.path == b.path && c.off == b.off && c.total == b.total
    && match P.WireOf(job, id)
       case ZeroRun(n) => c.isZero && c.len == n && c.data == []
       case Data(d) => !c.isZero && c.len == |d| && c.data == d
  }

  /** Reading the block of a job gives the chunk that goes over the wire for it. */
  method ReadJobBlock(ghost job: P.Job, b: P.Block, id: nat, content: seq<Byte>, chunkSize: nat)
    returns (c: B.ReadChunk)
    requires Usable(job.cfg) && id < |job.blocks| && b == job.blocks[id] && chunkSize == job.cfg.chunkSize
    requires content == File(job.src, b.path)
    ensures StandsFor(job, c, id) && |c.data| <= chunkSize
  {
    c := ReadBlock(b, id, content, chunkSize);
  }

  // ---- the send worker

  /** The block `q` is sent for a chunk when it has the chunk's fields; then it is the block
      of the wire. */
  lemma SentIsWire(job: P.Job, c: B.ReadChunk, q: ChangedBlock, id: nat)
    requires Usable(job.cfg) && StandsFor(job, c, id)
    requires q.reqID == c.reqID && q.path == c.path && q.total == c.total
    requires q.off == c.off && q.len == c.len && q.isZero == c.isZero && q.data == c.data
    ensures q == D.WireBlock(job, id)
  {
  }

  ghost predicate AreWire(job: P.Job, req: seq<ChangedBlock>, ids: seq<nat>)
    requires Usable(job.cfg)
  {
    |req| == |ids| && forall i :: 0 <= i < |ids| ==> ids[i] < |job.blocks| && req[i] == D.WireBlock(job, ids[i])
  }

  // ---- the servers

  /** The write steps of these ids, one after the other. */
  ghost function StoreAll(job: P.Job, disk: Files, ids: seq<nat>): (d: Files)
    requires Usable(job.cfg) && forall i :: 0 <= i < |ids| ==> ids[i] < |job.blocks|
  {
    if ids == [] then disk
    else P.Store(job, StoreAll(job, disk, ids[..|ids| - 1]), ids[|ids| - 1])
  }

  ghost predicate OffsetsFit(job: P.Job) {
    forall id :: 0 <= id < |job.blocks| ==> job.blocks[id].off <= job.blocks[id].total
  }

  /** The file server stores what the pipeline's write steps store. */
  lemma {:induction false} PutAllIsStoreAll(job: P.Job, disk: Files, req: seq<ChangedBlock>, ids: seq<nat>)
    requires Usable(job.cfg) && AreWire(job, req, ids) && OffsetsFit(job)
    ensures D.PutAll(disk, req) == StoreAll(job, disk, ids)
    decreases |ids|
  {
    if ids != [] {
      var n := |ids| - 1;
      PutAllIsStoreAll(job, disk, req[..n], ids[..n]);
      D.FileServerStores(job, StoreAll(job, disk, ids[..n]), ids[n]);
    }
  }

  lemma {:induction false} StoreAllKeepsSize(job: P.Job, disk: Files, ids: seq<nat>, p: Path)
    requires Usable(job.cfg) && forall i :: 0 <= i < |ids| ==> ids[i] < |job.blocks|
    ensures |File(StoreAll(job, disk, ids), p)| >= |File(disk, p)|
  {
    if ids != [] {
      StoreAllKeepsSize(job, disk, ids[..|ids| - 1], p);
    }
  }

  /** And so does the device server, for blocks of a device that is large enough. */
  lemma {:induction false} DeviceIsStoreAll(job: P.Job, disk: Files, req: seq<ChangedBlock>, ids: seq<nat>)
    requires Usable(job.cfg) && AreWire(job, req, ids) && OffsetsFit(job)
    requires forall id :: 0 <= id < |job.blocks| ==>
               job.blocks[id].path == DEVICE && job.blocks[id].total <= |File(disk, DEVICE)|
    ensures D.Device(File(disk, DEVICE), req) == File(StoreAll(job, disk, ids), DEVICE)
    decreases |ids|
  {
    if ids != [] {
      var n := |ids| - 1;
      var before := StoreAll(job, disk, ids[..n]);
      DeviceIsStoreAll(job, disk, req[..n], ids[..n]);
      StoreAllKeepsSize(job, disk, ids[..n], DEVICE);
      D.DeviceServerStores(job, before, ids[n]);
      OneBlock(File(before, DEVICE), req[n]);
    }
  }

  lemma OneBlock(c: seq<Byte>, b: ChangedBlock)
    ensures D.Device(c, [b]) == D.Patch(c, b.off, D.Bytes(b))
  {
    assert [b][..0] == [];
  }

  // ---- from the chunks to the files

  lemma {:induction false} InFlat<T>(xs: seq<seq<T>>, i: nat, j: nat)
    requires i < |xs| && j < |xs[i]|
    ensures xs[i][j] in Flat(xs)
    decreases |xs|
  {
    if i < |xs| - 1 {
      InFlat(xs[..|xs| - 1], i, j);
    } else {
      assert Flat(xs)[|Flat(xs[..i])| + j] == xs[i][j];
    }
  }

  /** The blocks of a path carry one size. */
  ghost predicate Sizes(job: P.Job, sizes: Path -> nat) {
    forall id :: 0 <= id < |job.blocks| ==> job.blocks[id].total == sizes(job.blocks[id].path)
  }

  lemma WireCarries(job: P.Job, ids: seq<nat>, req: seq<ChangedBlock>, sizes: Path -> nat)
    requires Usable(job.cfg) && AreWire(job, req, ids) && Sizes(job, sizes)
    ensures D.Agree(req, sizes)
  {
    forall k | 0 <= k < |req| ensures req[k].total == sizes(req[k].path) {
      assert req[k] == D.WireBlock(job, ids[k]);
    }
  }

  lemma PartsAgree(reqs: seq<seq<ChangedBlock>>, sizes: Path -> nat, i: nat)
    requires D.Agree(Flat(reqs), sizes) && i < |reqs|
    ensures D.Agree(reqs[i], sizes)
  {
    forall j | 0 <= j < |reqs[i]| ensures reqs[i][j].total == sizes(reqs[i][j].path) {
      InFlat(reqs, i, j);
    }
  }

  /** A send worker and the file server: when neither returns an error, the destination is
      what the write steps of these ids make of it, and the ids are acknowledged, each as
      often as it was sent and in that order. */
  method SendToFiles(ghost job: P.Job, w: B.DataSender, cs: seq<B.ReadChunk>, ghost ids: seq<nat>,
                     cache: FileCaches.FileCache, ghost sizes: Path -> nat)
    returns (acks: seq<seq<nat>>, ok: bool)
    requires Usable(job.cfg) && OffsetsFit(job) && Sizes(job, sizes)
    requires forall i :: 0 <= i < |ids| ==> ids[i] < |job.blocks|
    requires |cs| == |ids| && forall i :: 0 <= i < |cs| ==> StandsFor(job, cs[i], ids[i])
    requires forall i :: 0 <= i < |cs| ==> |cs[i].data| <= w.cfg.chunkSize
    requires w.Valid() && w.At([], [])
    requires cache.Valid() && cache.create && D.Ready(cache, sizes)
    modifies w, cache
    ensures ok ==> cache.disk == StoreAll(job, old(cache.disk), ids)
    ensures ok ==> Flat(acks) == ids
  {
    ghost var a, b;
    ok, a, b := w.Run(cs);
    if !ok {
      return [], false;
    }
    ghost var all := Flat(w.sent);
    forall i | 0 <= i < |ids| ensures ids[i] < |job.blocks| && all[i] == D.WireBlock(job, ids[i]) {
      SentIsWire(job, cs[i], all[i], ids[i]);
    }
    WireCarries(job, ids, all, sizes);
    forall i | 0 <= i < |w.sent| ensures D.Agree(w.sent[i], sizes) {
      PartsAgree(w.sent, sizes, i);
    }
    PutAllIsStoreAll(job, cache.disk, all, ids);
    ghost var done;
    acks, done, ok := D.WriteFiles(cache, w.sent, sizes);
    assert ok ==> w.sent[..done] == w.sent;
  }

  /** The same with the device server, whose device holds the bytes of the one path. */
  method SendToDevice(ghost job: P.Job, w: B.DataSender, cs: seq<B.ReadChunk>, ghost ids: seq<nat>, dev: array<Byte>)
    returns (acks: seq<seq<nat>>, ok: bool)
    requires Usable(job.cfg) && OffsetsFit(job)
    requires forall id :: 0 <= id < |job.blocks| ==>
               job.blocks[id].path == DEVICE && job.blocks[id].total <= dev.Length
    requires forall i :: 0 <= i < |ids| ==> ids[i] < |job.blocks|
    requires |cs| == |ids| && forall i :: 0 <= i < |cs| ==> StandsFor(job, cs[i], ids[i])
    requires forall i :: 0 <= i < |cs| ==> |cs[i].data| <= w.cfg.chunkSize
    requires w.Valid() && w.At([], [])
    modifies w, dev
    ensures ok ==> dev[..] == File(StoreAll(job, map[DEVICE := old(dev[..])], ids), DEVICE)
    ensures ok ==> Flat(acks) == ids
  {
    ghost var a, b;
    ok, a, b := w.Run(cs);
    if !ok {
      return [], false;
    }
    ghost var all := Flat(w.sent);
    forall i | 0 <= i < |ids| ensures ids[i] < |job.blocks| && all[i] == D.WireBlock(job, ids[i]) {
      SentIsWire(job, cs[i], all[i], ids[i]);
    }
    DeviceIsStoreAll(job, map[DEVICE := dev[..]], all, ids);
    ghost var done, synced;
    acks, done, synced, ok := D.WriteDevice(dev, w.sent);
    assert ok ==> w.sent[..done] == w.sent;
  }
}
