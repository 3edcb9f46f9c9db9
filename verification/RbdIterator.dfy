/** The block-device iterator: turns the extents of a snapshot diff into numbered
    blocks of at most one chunk, and for a full diff fills the gaps with zero blocks. */
module RbdIterator {
  import opened Wrappers
  import opened Contents

  datatype Extent = Extent(off: nat, len: nat) {
    function End(): nat { off + len }
  }

  /** A stretch of the device that is emitted; `zero` marks a gap. */
  datatype Piece = Piece(off: nat, len: nat, zero: bool) {
    function End(): nat { off + len }
  }

  /** The stretches for extents that come in any order, from position `pos` on. What
      lies below the position has been passed and is cut off. */
  ghost function Spans(full: bool, total: nat, pos: nat, exts: seq<Extent>): (s: seq<Piece>)
    decreases |exts|
  {
    if exts == [] then
      if full && pos < total then [Piece(pos, total - pos, true)] else []
    else
      var e, rest := exts[0], exts[1..];
      if full && e.off > pos then
        [Piece(pos, e.off - pos, true), Piece(e.off, e.len, false)] + Spans(full, total, e.End(), rest)
      else if e.off < pos then
        if pos - e.off >= e.len then Spans(full, total, pos, rest)
        else [Piece(pos, e.len - (pos - e.off), false)] + Spans(full, total, e.End(), rest)
      else [Piece(e.off, e.len, false)] + Spans(full, total, e.End(), rest)
  }

  /** A stretch cut into chunks. */
  ghost function Chop(p: Piece, chunk: int): (s: seq<Piece>)
    ensures s != []
    decreases p.len
  {
    if chunk <= 0 || p.len <= chunk then [p]
    else [Piece(p.off, chunk, p.zero)] + Chop(Piece(p.off + chunk, p.len - chunk, p.zero), chunk)
  }

  /** The chunks of a stretch one by one: all are full but the last. */
  lemma {:induction false} ChopAt(p: Piece, chunk: int, i: nat)
    requires chunk > 0 && i < |Chop(p, chunk)|
    ensures var q := Chop(p, chunk)[i];
            && q.off == p.off + i * chunk && q.zero == p.zero
            && q.len == (if i < |Chop(p, chunk)| - 1 then chunk else p.len - i * chunk) <= chunk
    decreases p.len
  {
    if p.len > chunk && i > 0 {
      ChopAt(Piece(p.off + chunk, p.len - chunk, p.zero), chunk, i - 1);
      assert i * chunk == (i - 1) * chunk + chunk;
    }
  }

  ghost function ChopAll(ps: seq<Piece>, chunk: int): (s: seq<Piece>) {
    if ps == [] then [] else Chop(ps[0], chunk) + ChopAll(ps[1..], chunk)
  }

  /** Everything the iterator emits. */
  ghost function Emitted(full: bool, total: nat, chunk: int, exts: seq<Extent>): (s: seq<Piece>) {
    ChopAll(Spans(full, total, 0, exts), chunk)
  }

  lemma ChopAllCons(p: Piece, ps: seq<Piece>, chunk: int)
    ensures ChopAll([p] + ps, chunk) == Chop(p, chunk) + ChopAll(ps, chunk)
  {
    assert ([p] + ps)[1..] == ps;
  }

  /** What one extent adds to what is to come. */
  lemma NextExtent(full: bool, total: nat, chunk: int, pos: nat, exts: seq<Extent>)
    requires exts != []
    ensures var e, rest := exts[0], exts[1..];
            var now := ChopAll(Spans(full, total, pos, exts), chunk);
            var later := ChopAll(Spans(full, total, e.End(), rest), chunk);
            if full && e.off > pos then
              now == Chop(Piece(pos, e.off - pos, true), chunk) + Chop(Piece(e.off, e.len, false), chunk) + later
            else if e.off < pos then
              if pos - e.off >= e.len then now == ChopAll(Spans(full, total, pos, rest), chunk)
              else now == Chop(Piece(pos, e.len - (pos - e.off), false), chunk) + later
            else now == Chop(Piece(e.off, e.len, false), chunk) + later
  {
    var e, rest := exts[0], exts[1..];
    var later := Spans(full, total, e.End(), rest);
    if full && e.off > pos {
      var gap, data := Piece(pos, e.off - pos, true), Piece(e.off, e.len, false);
      assert [gap, data] + later == [gap] + ([data] + later);
      ChopAllCons(gap, [data] + later, chunk);
      ChopAllCons(data, later, chunk);
    } else if e.off < pos {
      ChopAllCons(Piece(pos, if pos - e.off >= e.len then 0 else e.len - (pos - e.off), false), later, chunk);
    } else {
      ChopAllCons(Piece(e.off, e.len, false), later, chunk);
    }
  }

  // ---- the iterator between two calls

  /** Position, the partly emitted stretch, the extent behind a gap, and what the
      diff has still to deliver. */
  datatype Cursor = Cursor(full: bool, total: nat, chunk: int, pos: nat,
                           rem: Option<Piece>, pending: Option<Extent>, iter: seq<Extent>)

  /** Where the iterator will be when it has emitted what it has loaded. */
  ghost function Ahead(c: Cursor): (p: nat) {
    if c.pending.Some? then c.pending.value.End()
    else if c.rem.Some? then c.rem.value.End() else c.pos
  }

  ghost function Loaded(c: Cursor): (s: seq<Piece>) {
    (if c.rem.Some? then Chop(c.rem.value, c.chunk) else [])
    + (if c.pending.Some? then Chop(Piece(c.pending.value.off, c.pending.value.len, false), c.chunk) else [])
  }

  /** The pieces that are still to come. */
  ghost function Rest(c: Cursor): (s: seq<Piece>) {
    Loaded(c) + ChopAll(Spans(c.full, c.total, Ahead(c), c.iter), c.chunk)
  }

  lemma LoadPending(c: Cursor)
    requires c.rem.None? && c.pending.Some?
    ensures Rest(c.(rem := Some(Piece(c.pending.value.off, c.pending.value.len, false)), pending := None)) == Rest(c)
  {
  }

  lemma LoadTail(c: Cursor)
    requires c.rem.None? && c.pending.None? && c.iter == []
    ensures c.full && c.pos < c.total ==> Rest(c.(rem := Some(Piece(c.pos, c.total - c.pos, true)))) == Rest(c)
    ensures !(c.full && c.pos < c.total) ==> Rest(c) == []
  {
    if c.full && c.pos < c.total {
      var gap := Piece(c.pos, c.total - c.pos, true);
      assert [gap] + [] == [gap];
      ChopAllCons(gap, [], c.chunk);
    }
  }

  lemma LoadGap(c: Cursor)
    requires c.rem.None? && c.pending.None? && c.iter != [] && c.full && c.iter[0].off > c.pos
    ensures var gap := Piece(c.pos, c.iter[0].off - c.pos, true);
            Rest(c.(rem := Some(gap), pending := Some(c.iter[0]), iter := c.iter[1..])) == Rest(c)
  {
    NextExtent(c.full, c.total, c.chunk, c.pos, c.iter);
  }

  /** An extent that has been passed altogether. */
  lemma LoadPassed(c: Cursor)
    requires c.rem.None? && c.pending.None? && c.iter != []
    requires c.iter[0].off < c.pos && c.pos - c.iter[0].off >= c.iter[0].len
    ensures Rest(c.(iter := c.iter[1..])) == Rest(c)
  {
    NextExtent(c.full, c.total, c.chunk, c.pos, c.iter);
  }

  /** What is left of an extent, or all of it. */
  lemma LoadData(c: Cursor, p: Piece)
    requires c.rem.None? && c.pending.None? && c.iter != [] && !(c.full && c.iter[0].off > c.pos)
    requires c.iter[0].off < c.pos ==> c.pos - c.iter[0].off < c.iter[0].len
    requires !p.zero && p.off == (if c.iter[0].off < c.pos then c.pos else c.iter[0].off) && p.End() == c.iter[0].End()
    ensures Rest(c.(rem := Some(p), iter := c.iter[1..])) == Rest(c)
  {
    NextExtent(c.full, c.total, c.chunk, c.pos, c.iter);
  }

  /** The cursor with the next extent loaded: the gap before it first in a full diff, and
      nothing if it has been passed. */
  ghost function WithExtent(c: Cursor): (d: Cursor)
    requires c.iter != []
  {
    var e := c.iter[0];
    if c.full && e.off > c.pos then
      c.(rem := Some(Piece(c.pos, e.off - c.pos, true)), pending := Some(e), iter := c.iter[1..])
    else if e.off >= c.pos then c.(rem := Some(Piece(e.off, e.len, false)), iter := c.iter[1..])
    else if c.pos - e.off >= e.len then c.(iter := c.iter[1..])
    else c.(rem := Some(Piece(c.pos, e.len - (c.pos - e.off), false)), iter := c.iter[1..])
  }

  /** Loading changes nothing of what is still to come. */
  lemma ExtentIsLoaded(c: Cursor)
    requires c.rem.None? && c.pending.None? && c.iter != []
    ensures Rest(WithExtent(c)) == Rest(c)
  {
    var e := c.iter[0];
    if c.full && e.off > c.pos {
      LoadGap(c);
    } else if e.off >= c.pos {
      LoadData(c, Piece(e.off, e.len, false));
    } else if c.pos - e.off >= e.len {
      LoadPassed(c);
    } else {
      LoadData(c, Piece(c.pos, e.len - (c.pos - e.off), false));
    }
  }

  /** Emitting takes the first chunk off the loaded stretch. */
  lemma EmitPart(c: Cursor, d: Cursor)
    requires c.rem.Some? && c.chunk > 0 && c.rem.value.len > c.chunk
    requires var p := c.rem.value;
             d == c.(pos := d.pos, rem := Some(Piece(p.off + c.chunk, p.len - c.chunk, p.zero)))
    ensures Rest(c) == [Piece(c.rem.value.off, c.chunk, c.rem.value.zero)] + Rest(d)
  {
    assert Loaded(c) == [Piece(c.rem.value.off, c.chunk, c.rem.value.zero)] + Loaded(d);
  }

  lemma EmitLast(c: Cursor, d: Cursor)
    requires c.rem.Some? && !(c.chunk > 0 && c.rem.value.len > c.chunk)
    requires d == c.(pos := c.rem.value.End(), rem := None)
    ensures Rest(c) == [c.rem.value] + Rest(d)
  {
    assert Chop(c.rem.value, c.chunk) == [c.rem.value];
    assert Loaded(c) == [c.rem.value] + Loaded(d);
  }

  // ---- the iterator object

  /** The block with this id is this piece of the device. */
  ghost predicate Carries(b: ChangeBlock, p: Piece, id: nat, total: nat) {
    && b.path == DEVICE && b.off == p.off && b.len == p.len && b.isZero == p.zero
    && b.reqID == id && b.totalSize == total
  }

  class RbdIterAdapter {
    var iter: seq<Extent>      // what the diff has still to deliver
    var reqID: nat
    const totalSize: nat
    const chunkSize: int
    const isFullDiff: bool
    var currentPos: nat
    var remOffset: nat
    var remLen: nat
    var remIsZero: bool
    var hasRem: bool
    var pendingOffset: nat
    var pendingLen: nat
    var hasPending: bool
    var iterDone: bool

    ghost function Value(): (c: Cursor)
      reads this
    {
      Cursor(isFullDiff, totalSize, chunkSize, currentPos,
             if hasRem then Some(Piece(remOffset, remLen, remIsZero)) else None,
             if hasPending then Some(Extent(pendingOffset, pendingLen)) else None, iter)
    }

    ghost predicate Valid()
      reads this
    {
      iterDone ==> iter == [] && !hasPending && (isFullDiff ==> Ahead(Value()) >= totalSize)
    }

    constructor (exts: seq<Extent>, totalSize: nat, chunkSize: int, isFullDiff: bool)
      ensures Valid() && reqID == 0
      ensures Rest(Value()) == Emitted(isFullDiff, totalSize, chunkSize, exts)
      ensures this.totalSize == totalSize && this.chunkSize == chunkSize && this.isFullDiff == isFullDiff
    {
      iter := exts;
      reqID, currentPos, remOffset, remLen, pendingOffset, pendingLen := 0, 0, 0, 0, 0, 0;
      remIsZero, hasRem, hasPending, iterDone := false, false, false, false;
      this.totalSize, this.chunkSize, this.isFullDiff := totalSize, chunkSize, isFullDiff;
    }

    /** Delivers the pieces one by one, numbering them in order. */
    method Next() returns (b: Option<ChangeBlock>)
      requires Valid()
      modifies this
      ensures Valid()
      ensures b.None? <==> old(Rest(Value())) == []
      ensures b.None? ==> Rest(Value()) == [] && reqID == old(reqID)
      ensures b.Some? ==> Carries(b.value, old(Rest(Value()))[0], old(reqID), totalSize)
      ensures b.Some? ==> Rest(Value()) == old(Rest(Value()))[1..] && reqID == old(reqID) + 1
    {
      if hasRem {
        var x := EmitFromRemainder();
        return Some(x);
      }
      var ok := LoadNext();
      if !ok {
        return None;
      }
      var x := EmitFromRemainder();
      b := Some(x);
    }

    method LoadNext() returns (ok: bool)
      requires Valid() && !hasRem
      modifies this
      ensures Valid() && reqID == old(reqID)
      ensures Rest(Value()) == old(Rest(Value()))
      ensures ok == hasRem && (!ok ==> Rest(Value()) == [])
    {
      ghost var goal := Rest(Value());
      if hasPending {
        LoadPending(Value());
        remOffset, remLen, remIsZero, hasRem, hasPending := pendingOffset, pendingLen, false, true, false;
        return true;
      }
      while true
        invariant Valid() && !hasRem && !hasPending && reqID == old(reqID)
        invariant Rest(Value()) == goal
        decreases !iterDone, |iter|
      {
        if iterDone {
          LoadTail(Value());
          return false;
        }
        if iter == [] {
          ok := LoadEnd();
          return;
        }
        ExtentIsLoaded(Value());
        ok := LoadExtent();
        if ok {
          return;
        }
      }
    }

    /** The last turn: the tail of a full diff. */
    method LoadEnd() returns (ok: bool)
      requires Valid() && !hasRem && !hasPending && !iterDone && iter == []
      modifies this
      ensures Valid() && reqID == old(reqID)
      ensures Rest(Value()) == old(Rest(Value()))
      ensures ok == hasRem && (!ok ==> Rest(Value()) == [])
    {
      LoadTail(Value());
      iterDone := true;
      if isFullDiff && currentPos < totalSize {
        remOffset, remLen, remIsZero, hasRem := currentPos, totalSize - currentPos, true, true;
        return true;
      }
      return false;
    }

    /** One turn of the loading loop with an extent at hand. */
    method LoadExtent() returns (ok: bool)
      requires Valid() && !hasRem && !hasPending && !iterDone && iter != []
      modifies this
      ensures Valid() && reqID == old(reqID) && !iterDone && iter == old(iter)[1..]
      ensures Value() == WithExtent(old(Value()))
      ensures ok == hasRem && (!ok ==> !hasPending)
    {
      var cb := iter[0];
      iter := iter[1..];
      if isFullDiff && cb.off > currentPos {
        pendingOffset, pendingLen, hasPending := cb.off, cb.len, true;
        remOffset, remLen, remIsZero, hasRem := currentPos, cb.off - currentPos, true, true;
        return true;
      }
      var offset, length := cb.off, cb.len;
      if offset < currentPos {
        var overlap := currentPos - offset;
        if overlap >= length {
          return false;
        }
        offset, length := offset + overlap, length - overlap;
      }
      remOffset, remLen, remIsZero, hasRem := offset, length, false, true;
      return true;
    }

    method EmitFromRemainder() returns (b: ChangeBlock)
      requires Valid() && hasRem
      modifies this
      ensures Valid() && reqID == old(reqID) + 1 && old(Rest(Value())) != []
      ensures Carries(b, old(Rest(Value()))[0], old(reqID), totalSize)
      ensures Rest(Value()) == old(Rest(Value()))[1..]
      ensures b.path == DEVICE && b.off == old(remOffset) && b.isZero == old(remIsZero) && b.totalSize == totalSize
      ensures b.reqID == old(reqID) && b.len == if 0 < chunkSize < old(remLen) then chunkSize else old(remLen)
    {
      ghost var c := Value();
      var emitLen := remLen;
      if chunkSize > 0 && emitLen > chunkSize {
        emitLen := chunkSize;
      }
      var offset := remOffset;
      b := ChangeBlock(DEVICE, offset, emitLen, reqID, totalSize, remIsZero);
      reqID := reqID + 1;
      remOffset := remOffset + emitLen;
      remLen := remLen - emitLen;
      if remLen <= 0 {
        hasRem := false;
      }
      currentPos := offset + emitLen;
      if hasRem { EmitPart(c, Value()); } else { EmitLast(c, Value()); }
    }
  }

  /** The feeder's loop over the iterator: every piece in order, with the ids 0, 1, 2
      and so on. */
  method Feed(a: RbdIterAdapter) returns (blocks: seq<ChangeBlock>)
    requires a.Valid() && a.reqID == 0
    modifies a
    ensures |blocks| == |old(Rest(a.Value()))| == a.reqID
    ensures forall i :: 0 <= i < |blocks| ==>
              var p := old(Rest(a.Value()))[i];
              blocks[i] == ChangeBlock(DEVICE, p.off, p.len, i, a.totalSize, p.zero)
  {
    ghost var all := Rest(a.Value());
    blocks := [];
    while true
      invariant a.Valid() && a.reqID == |blocks| <= |all|
      invariant Rest(a.Value()) == all[|blocks|..]
      invariant forall i :: 0 <= i < |blocks| ==> Carries(blocks[i], all[i], i, a.totalSize)
      decreases |Rest(a.Value())|
    {
      assert all[|blocks|..] != [] ==>
          all[|blocks|..][0] == all[|blocks|] && all[|blocks|..][1..] == all[|blocks| + 1..];
      var b := a.Next();
      if b.None? {
        break;
      }
      blocks := blocks + [b.value];
    }
  }
}
