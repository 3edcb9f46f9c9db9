/** One send worker: chunks in, write requests out, and every chunk's resources given back
    exactly once on every way out. */
module Batching {
  import opened Wrappers
  import opened Contents
  import opened Configuration

  /** What a chunk holds of the two semaphores. */
  datatype Held = Held(reqID: nat, memRawN: nat, hasWin: bool, hasMem: bool)

  datatype ReadChunk = ReadChunk(reqID: nat, path: Path, off: nat, len: nat, isZero: bool,
                                 data: seq<Byte>, total: nat, held: Held)

  function BlockOf(c: ReadChunk): ChangedBlock {
    ChangedBlock(c.reqID, c.path, c.total, c.off, c.len, c.isZero, c.data)
  }

  ghost function Blocks(cs: seq<ReadChunk>): (s: seq<ChangedBlock>)
    ensures |s| == |cs| && forall i :: 0 <= i < |s| ==> s[i] == BlockOf(cs[i])
  {
    seq(|cs|, i requires 0 <= i < |cs| => BlockOf(cs[i]))
  }

  ghost function Helds(cs: seq<ReadChunk>): (s: seq<Held>)
    ensures |s| == |cs| && forall i :: 0 <= i < |s| ==> s[i] == cs[i].held
  {
    seq(|cs|, i requires 0 <= i < |cs| => cs[i].held)
  }

  ghost function PayloadBytes(bs: seq<ChangedBlock>): (n: nat) {
    if bs == [] then 0 else PayloadBytes(bs[..|bs| - 1]) + |bs[|bs| - 1].data|
  }

  lemma PayloadNext(bs: seq<ChangedBlock>, b: ChangedBlock)
    ensures PayloadBytes(bs + [b]) == PayloadBytes(bs) + |b.data|
  {
    assert (bs + [b])[..|bs|] == bs;
  }

  lemma PayloadNone()
    ensures PayloadBytes([]) == 0
  {
  }

  /** The memory, and the window slots, that a list of chunks holds. */
  ghost function Memory(hs: seq<Held>): (m: nat) {
    if hs == [] then 0 else Memory(hs[..|hs| - 1]) + if hs[|hs| - 1].hasMem then hs[|hs| - 1].memRawN else 0
  }

  ghost function Slots(hs: seq<Held>): (m: multiset<nat>) {
    if hs == [] then multiset{}
    else Slots(hs[..|hs| - 1]) + if hs[|hs| - 1].hasWin then multiset{hs[|hs| - 1].reqID} else multiset{}
  }

  lemma {:induction false} HeldConcat(a: seq<Held>, b: seq<Held>)
    ensures Memory(a + b) == Memory(a) + Memory(b) && Slots(a + b) == Slots(a) + Slots(b)
    decreases |b|
  {
    if b == [] {
      assert a + b == a;
    } else {
      assert (a + b)[..|a + b| - 1] == a + b[..|b| - 1];
      HeldConcat(a, b[..|b| - 1]);
    }
  }

  /** One chunk more holds its own memory and its own slot more, as far as it has them. */
  lemma HeldNext(hs: seq<Held>, h: Held)
    ensures Memory([]) == 0 && Slots([]) == multiset{}
    ensures Memory(hs + [h]) == Memory(hs) + if h.hasMem then h.memRawN else 0
    ensures Slots(hs + [h]) == Slots(hs) + if h.hasWin then multiset{h.reqID} else multiset{}
  {
    assert (hs + [h])[..|hs|] == hs;
  }

  lemma ChunksConcat(a: seq<ReadChunk>, b: seq<ReadChunk>)
    ensures Blocks(a + b) == Blocks(a) + Blocks(b)
    ensures Helds(a + b) == Helds(a) + Helds(b)
  {
  }

  lemma ChunksNext(b: seq<ReadChunk>, c: ReadChunk)
    ensures Blocks(b + [c]) == Blocks(b) + [BlockOf(c)] && Helds(b + [c]) == Helds(b) + [c.held]
  {
  }

  /** What a request may be: not empty, within the two limits. */
  ghost predicate Bounded(cfg: Config, req: seq<ChangedBlock>) {
    1 <= |req| <= cfg.dataBatchMaxCount && PayloadBytes(req) <= BatchBytesBound(cfg)
  }

  ghost predicate AllBounded(cfg: Config, reqs: seq<seq<ChangedBlock>>) {
    forall i :: 0 <= i < |reqs| ==> Bounded(cfg, reqs[i])
  }

  /** A chunk that does not exceed a limit leaves the batch within them. */
  lemma BoundedNext(cfg: Config, blocks: seq<ChangedBlock>, b: ChangedBlock)
    requires MIN_BATCH_COUNT <= cfg.dataBatchMaxCount && |b.data| <= cfg.chunkSize
    requires blocks != [] ==> Bounded(cfg, blocks) && |blocks| < cfg.dataBatchMaxCount
    requires blocks != [] ==> PayloadBytes(blocks) + |b.data| < cfg.dataBatchMaxBytes
    ensures Bounded(cfg, blocks + [b])
  {
    PayloadNext(blocks, b);
  }

  class DataSender {
    const cfg: Config
    var blocks: seq<ChangedBlock>
    var pending: seq<Held>
    var accum: nat
    var sent: seq<seq<ChangedBlock>>      // what the stream has taken
    var memBack: nat                      // bytes given back to the memory semaphore
    var winBack: multiset<nat>            // ids given back to the window semaphore

    ghost predicate Valid()
      reads this
    {
      && MIN_BATCH_COUNT <= cfg.dataBatchMaxCount && accum == PayloadBytes(blocks) && |pending| == |blocks|
      && (blocks != [] ==> Bounded(cfg, blocks)) && AllBounded(cfg, sent)
    }

    /** The chunks `a` have been sent in requests, with their memory given back and their
        slots left to the answers; the chunks `b` are the batch. */
    ghost predicate At(a: seq<ReadChunk>, b: seq<ReadChunk>)
      reads this
    {
      && Flat(sent) == Blocks(a) && blocks == Blocks(b) && pending == Helds(b)
      && memBack == Memory(Helds(a)) && winBack == multiset{}
    }

    /** All that the chunks held has been given back, except the window slots of the chunks
        `a`, which went out in requests. */
    ghost predicate Settled(a: seq<ReadChunk>, b: seq<ReadChunk>)
      reads this
    {
      && Flat(sent) == Blocks(a) && AllBounded(cfg, sent)
      && memBack == Memory(Helds(a)) + Memory(Helds(b)) && winBack == Slots(Helds(b))
    }

    constructor (cfg: Config)
      requires MIN_BATCH_COUNT <= cfg.dataBatchMaxCount
      ensures Valid() && this.cfg == cfg && At([], [])
    {
      this.cfg := cfg;
      blocks, pending, accum, sent, memBack, winBack := [], [], 0, [], 0, multiset{};
    }

    // ---- giving back

    /** Gives back what is held and clears the flags, so a second call gives back nothing. */
    method Release(h: Held) returns (r: Held)
      modifies this`memBack, this`winBack
      ensures r == h.(hasMem := false, hasWin := false)
      ensures memBack == old(memBack) + Memory([h]) && winBack == old(winBack) + Slots([h])
      ensures memBack == old(memBack) + if h.hasMem then h.memRawN else 0
      ensures winBack == old(winBack) + if h.hasWin then multiset{h.reqID} else multiset{}
    {
      assert [h][..0] == [];
      r := h;
      if r.hasMem {
        memBack := memBack + r.memRawN;
        r := r.(hasMem := false);
      }
      if r.hasWin {
        winBack := winBack + multiset{r.reqID};
        r := r.(hasWin := false);
      }
    }

    method ReleaseMemOnly(h: Held) returns (r: Held)
      modifies this`memBack
      ensures r == h.(hasMem := false) && memBack == old(memBack) + Memory([h])
      ensures memBack == old(memBack) + if h.hasMem then h.memRawN else 0
    {
      assert [h][..0] == [];
      r := h;
      if r.hasMem {
        memBack := memBack + r.memRawN;
        r := r.(hasMem := false);
      }
    }

    method ReleasePending()
      modifies this`pending, this`memBack, this`winBack
      ensures |pending| == |old(pending)|
      ensures memBack == old(memBack) + Memory(old(pending)) && winBack == old(winBack) + Slots(old(pending))
    {
      ghost var hs := pending;
      for i := 0 to |pending|
        invariant |pending| == |hs| && forall j :: i <= j < |hs| ==> pending[j] == hs[j]
        invariant memBack == old(memBack) + Memory(hs[..i]) && winBack == old(winBack) + Slots(hs[..i])
      {
        assert hs[..i + 1] == hs[..i] + [hs[i]];
        HeldConcat(hs[..i], [hs[i]]);
        var h := Release(pending[i]);
        pending := pending[i := h];
      }
      assert hs[..|hs|] == hs;
    }

    method ReleasePendingMem()
      modifies this`pending, this`memBack
      ensures |pending| == |old(pending)| && memBack == old(memBack) + Memory(old(pending))
    {
      ghost var hs := pending;
      for i := 0 to |pending|
        invariant |pending| == |hs| && forall j :: i <= j < |hs| ==> pending[j] == hs[j]
        invariant memBack == old(memBack) + Memory(hs[..i])
      {
        assert hs[..i + 1] == hs[..i] + [hs[i]];
        HeldConcat(hs[..i], [hs[i]]);
        var h := ReleaseMemOnly(pending[i]);
        pending := pending[i := h];
      }
      assert hs[..|hs|] == hs;
    }

    // ---- batches

    /** Sends the batch as one request. After that its memory is free and its window slots
        wait for the answer; when the stream refuses it, both are free. */
    method Flush(ghost a: seq<ReadChunk>, ghost b: seq<ReadChunk>) returns (ok: bool)
      requires Valid() && At(a, b)
      modifies this`blocks, this`pending, this`accum, this`sent, this`memBack, this`winBack
      ensures if ok then Valid() && At(a + b, []) else Settled(a, b)
    {
      ChunksConcat(a, b);
      HeldConcat(Helds(a), Helds(b));
      if |blocks| == 0 {
        assert a + b == a;
        return true;
      }
      if * {
        ReleasePending();
        return false;
      }
      FlatNext(sent, blocks);
      sent := sent + [blocks];
      ReleasePendingMem();
      blocks, pending, accum := [], [], 0;
      ok := true;
    }

    /** The batch must go out before this chunk is added. */
    predicate IsFull(c: ReadChunk)
      reads this
    {
      |blocks| > 0 && (accum + |c.data| >= cfg.dataBatchMaxBytes || |blocks| >= cfg.dataBatchMaxCount)
    }

    method Append(c: ReadChunk, ghost a: seq<ReadChunk>, ghost b: seq<ReadChunk>)
      requires Valid() && At(a, b) && !IsFull(c) && |c.data| <= cfg.chunkSize
      modifies this`blocks, this`pending, this`accum
      ensures Valid() && At(a, b + [c])
    {
      ChunksNext(b, c);
      PayloadNext(blocks, BlockOf(c));
      BoundedNext(cfg, blocks, BlockOf(c));
      blocks := blocks + [BlockOf(c)];
      pending := pending + [c.held];
      accum := accum + |c.data|;
    }

    /** The chunk that did not make it into a batch is given back as well. */
    method GiveUp(c: ReadChunk, ghost a: seq<ReadChunk>, ghost b: seq<ReadChunk>)
      requires Settled(a, b)
      modifies this`memBack, this`winBack
      ensures Settled(a, b + [c])
    {
      ChunksNext(b, c);
      HeldConcat(Helds(b), [c.held]);
      var h := Release(c.held);
    }

    /** When the run is cancelled, the batch is given back as a whole. */
    method GiveUpBatch(ghost a: seq<ReadChunk>, ghost b: seq<ReadChunk>)
      requires Valid() && At(a, b)
      modifies this`pending, this`memBack, this`winBack
      ensures Settled(a, b)
    {
      ReleasePending();
    }

    /** The worker's turn with the next chunk. */
    method Accept(c: ReadChunk, ghost a: seq<ReadChunk>, ghost b: seq<ReadChunk>)
      returns (ok: bool, ghost a': seq<ReadChunk>, ghost b': seq<ReadChunk>)
      requires Valid() && At(a, b) && |c.data| <= cfg.chunkSize
      modifies this`blocks, this`pending, this`accum, this`sent, this`memBack, this`winBack
      ensures a' + b' == a + b + [c]
      ensures if ok then Valid() && At(a', b') else Settled(a', b')
      ensures var full := |b| > 0 && (PayloadBytes(old(blocks)) + |c.data| >= cfg.dataBatchMaxBytes
                                      || |b| >= cfg.dataBatchMaxCount);
              a' == (if ok && full then a + b else a) && (!ok ==> full)
    {
      if !IsFull(c) {
        Append(c, a, b);
        return true, a, b + [c];
      }
      ok := Flush(a, b);
      if ok {
        Append(c, a + b, []);
        a', b' := a + b, [] + [c];
      } else {
        GiveUp(c, a, b);
        a', b' := a, b + [c];
      }
    }

    /** A whole run of the worker over the chunks it takes from the channel. When it returns
        no error, the requests put together are these chunks in order; in any case they are
        the first ones of those it received, and everything else is given back. */
    method Run(cs: seq<ReadChunk>) returns (ok: bool, ghost a: seq<ReadChunk>, ghost b: seq<ReadChunk>)
      requires Valid() && At([], []) && forall j :: 0 <= j < |cs| ==> |cs[j].data| <= cfg.chunkSize
      modifies this`blocks, this`pending, this`accum, this`sent, this`memBack, this`winBack
      ensures a + b <= cs && Settled(a, b)
      ensures ok ==> a == cs && b == []
      ensures forall i :: 0 <= i < |sent| ==>
                && 1 <= |sent[i]| <= cfg.dataBatchMaxCount
                && (PayloadBytes(sent[i]) <= cfg.chunkSize || PayloadBytes(sent[i]) < cfg.dataBatchMaxBytes)
      ensures |Flat(sent)| == |a| && forall i :: 0 <= i < |a| ==>
                var q, c := Flat(sent)[i], a[i];
                && q.reqID == c.reqID && q.path == c.path && q.total == c.total
                && q.off == c.off && q.len == c.len && q.isZero == c.isZero && q.data == c.data
    {
      ok, a, b := Work(cs);
      assert forall i :: 0 <= i < |sent| ==> Bounded(cfg, sent[i]);
    }

    method Work(cs: seq<ReadChunk>) returns (ok: bool, ghost a: seq<ReadChunk>, ghost b: seq<ReadChunk>)
      requires Valid() && At([], []) && forall j :: 0 <= j < |cs| ==> |cs[j].data| <= cfg.chunkSize
      modifies this`blocks, this`pending, this`accum, this`sent, this`memBack, this`winBack
      ensures a + b <= cs && Settled(a, b)
      ensures ok ==> a == cs && b == []
    {
      a, b := [], [];
      for n := 0 to |cs|
        invariant a + b == cs[..n] && Valid() && At(a, b)
      {
        if * {
          GiveUpBatch(a, b);
          return false, a, b;
        }
        assert cs[..n + 1] == cs[..n] + [cs[n]];
        ok, a, b := Accept(cs[n], a, b);
        if !ok {
          return;
        }
      }
      assert cs[..|cs|] == cs;
      ok, a, b := FlushLast(a, b);
    }

    /** The flush after the input has been closed. */
    method FlushLast(ghost a: seq<ReadChunk>, ghost b: seq<ReadChunk>)
      returns (ok: bool, ghost a': seq<ReadChunk>, ghost b': seq<ReadChunk>)
      requires Valid() && At(a, b)
      modifies this`blocks, this`pending, this`accum, this`sent, this`memBack, this`winBack
      ensures a' + b' == a + b && Settled(a', b') && (ok ==> b' == [])
    {
      a', b' := a, b;
      ok := Flush(a, b);
      if ok {
        a', b' := a + b, [];
      }
    }
  }
}
