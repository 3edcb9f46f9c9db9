/** Which bytes of the device the block-device iterator emits, and how. */
module RbdTiling {
  import opened Wrappers
  import opened RbdIterator

  // ---- contiguous cover

  /** The pieces follow one another without gap or overlap from `pos` to `total`, and
      none is empty. */
  ghost predicate Tiled(ps: seq<Piece>, pos: nat, total: nat) {
    if ps == [] then pos == total
    else ps[0].off == pos && ps[0].len >= 1 && Tiled(ps[1..], ps[0].End(), total)
  }

  ghost predicate InRange(exts: seq<Extent>, total: nat) {
    forall i :: 0 <= i < |exts| ==> exts[i].len >= 1 && exts[i].End() <= total
  }

  lemma {:induction false} SpansTile(total: nat, pos: nat, exts: seq<Extent>)
    requires InRange(exts, total) && pos <= total
    ensures Tiled(Spans(true, total, pos, exts), pos, total)
    decreases |exts|
  {
    var s := Spans(true, total, pos, exts);
    if exts == [] {
      if pos < total {
        assert s[1..] == [];
      }
    } else {
      var e, rest := exts[0], exts[1..];
      var later := Spans(true, total, e.End(), rest);
      SpansTile(total, e.End(), rest);
      if e.off > pos {
        assert s[1..][1..] == later;
      } else if e.off < pos && pos - e.off >= e.len {
        SpansTile(total, pos, rest);
      } else {
        assert s[1..] == later;
      }
    }
  }

  lemma {:induction false} ChopTiles(p: Piece, chunk: int, ps: seq<Piece>, total: nat)
    requires p.len >= 1 && Tiled(ps, p.End(), total)
    ensures Tiled(Chop(p, chunk) + ps, p.off, total)
    decreases p.len
  {
    if chunk <= 0 || p.len <= chunk {
      assert ([p] + ps)[1..] == ps;
    } else {
      var q := Piece(p.off + chunk, p.len - chunk, p.zero);
      ChopTiles(q, chunk, ps, total);
      assert (Chop(p, chunk) + ps)[1..] == Chop(q, chunk) + ps;
    }
  }

  lemma {:induction false} ChopAllTiles(ps: seq<Piece>, pos: nat, total: nat, chunk: int)
    requires Tiled(ps, pos, total)
    ensures Tiled(ChopAll(ps, chunk), pos, total)
  {
    if ps != [] {
      ChopAllTiles(ps[1..], ps[0].End(), total, chunk);
      ChopTiles(ps[0], chunk, ChopAll(ps[1..], chunk), total);
    }
  }

  /** Full-diff tiling: whatever the order of the extents, the blocks are contiguous
      and cover the device exactly. */
  lemma FullDiffTiles(total: nat, chunk: int, exts: seq<Extent>)
    requires InRange(exts, total)
    ensures Tiled(Emitted(true, total, chunk, exts), 0, total)
  {
    SpansTile(total, 0, exts);
    ChopAllTiles(Spans(true, total, 0, exts), 0, total, chunk);
  }

  /** Some piece lies on the byte. */
  ghost predicate At(ps: seq<Piece>, x: nat) {
    exists i :: 0 <= i < |ps| && ps[i].off <= x < ps[i].End()
  }

  lemma {:induction false} TiledCovers(ps: seq<Piece>, pos: nat, total: nat, x: nat)
    requires Tiled(ps, pos, total) && pos <= x < total
    ensures At(ps, x)
  {
    if ps[0].off <= x < ps[0].End() {
    } else {
      TiledCovers(ps[1..], ps[0].End(), total, x);
      var i :| 0 <= i < |ps[1..]| && ps[1..][i].off <= x < ps[1..][i].End();
      assert ps[i + 1] == ps[1..][i];
    }
  }

  // ---- chunk lengths

  lemma {:induction false} ChopLengths(p: Piece, chunk: int, i: nat)
    requires chunk > 0 && i < |Chop(p, chunk)|
    ensures Chop(p, chunk)[i].len <= chunk && p.off <= Chop(p, chunk)[i].off && Chop(p, chunk)[i].End() <= p.End()
    ensures Chop(p, chunk)[i].zero == p.zero
    decreases p.len
  {
    if p.len > chunk && i > 0 {
      ChopLengths(Piece(p.off + chunk, p.len - chunk, p.zero), chunk, i - 1);
    }
  }

  /** No block is longer than a chunk, so the clamp of the read stage loses nothing. */
  lemma {:induction false} ChunkLengths(ps: seq<Piece>, chunk: int, i: nat)
    requires chunk > 0 && i < |ChopAll(ps, chunk)|
    ensures ChopAll(ps, chunk)[i].len <= chunk
  {
    var first := Chop(ps[0], chunk);
    if i < |first| {
      ChopLengths(ps[0], chunk, i);
    } else {
      ChunkLengths(ps[1..], chunk, i - |first|);
    }
  }

  // ---- ascending, so disjoint

  ghost predicate Ascending(ps: seq<Piece>, pos: nat) {
    ps == [] || (pos <= ps[0].off && Ascending(ps[1..], ps[0].End()))
  }

  lemma {:induction false} SpansAscend(full: bool, total: nat, pos: nat, exts: seq<Extent>)
    ensures Ascending(Spans(full, total, pos, exts), pos)
    decreases |exts|
  {
    var s := Spans(full, total, pos, exts);
    if exts == [] {
      if full && pos < total {
        assert s[1..] == [];
      }
    } else {
      var e, rest := exts[0], exts[1..];
      SpansAscend(full, total, e.End(), rest);
      if full && e.off > pos {
        assert s[1..][1..] == Spans(full, total, e.End(), rest);
      } else if e.off < pos && pos - e.off >= e.len {
        SpansAscend(full, total, pos, rest);
      } else {
        assert s[1..] == Spans(full, total, e.End(), rest);
      }
    }
  }

  lemma {:induction false} ChopAscends(p: Piece, chunk: int, ps: seq<Piece>, pos: nat)
    requires pos <= p.off && Ascending(ps, p.End())
    ensures Ascending(Chop(p, chunk) + ps, pos)
    decreases p.len
  {
    if chunk <= 0 || p.len <= chunk {
      assert ([p] + ps)[1..] == ps;
    } else {
      var q := Piece(p.off + chunk, p.len - chunk, p.zero);
      ChopAscends(q, chunk, ps, p.off + chunk);
      assert (Chop(p, chunk) + ps)[1..] == Chop(q, chunk) + ps;
    }
  }

  lemma {:induction false} ChopAllAscends(ps: seq<Piece>, chunk: int, pos: nat)
    requires Ascending(ps, pos)
    ensures Ascending(ChopAll(ps, chunk), pos)
  {
    if ps != [] {
      ChopAllAscends(ps[1..], chunk, ps[0].End());
      ChopAscends(ps[0], chunk, ChopAll(ps[1..], chunk), pos);
    }
  }

  lemma {:induction false} AscendingFrom(ps: seq<Piece>, pos: nat, j: nat)
    requires Ascending(ps, pos) && j < |ps|
    ensures pos <= ps[j].off
  {
    if j > 0 {
      AscendingFrom(ps[1..], ps[0].End(), j - 1);
    }
  }

  lemma {:induction false} AscendingApart(ps: seq<Piece>, pos: nat, i: nat, j: nat)
    requires Ascending(ps, pos) && i < j < |ps|
    ensures ps[i].End() <= ps[j].off
  {
    if i == 0 {
      AscendingFrom(ps[1..], ps[0].End(), j - 1);
    } else {
      AscendingApart(ps[1..], ps[0].End(), i - 1, j - 1);
    }
  }

  /** In both modes and for any extents whatever, a later block starts at or after the
      end of an earlier one: the blocks are disjoint and come in ascending order. */
  lemma BlocksAreDisjoint(full: bool, total: nat, chunk: int, exts: seq<Extent>, i: nat, j: nat)
    requires i < j < |Emitted(full, total, chunk, exts)|
    ensures Emitted(full, total, chunk, exts)[i].End() <= Emitted(full, total, chunk, exts)[j].off
  {
    SpansAscend(full, total, 0, exts);
    ChopAllAscends(Spans(full, total, 0, exts), chunk, 0);
    AscendingApart(Emitted(full, total, chunk, exts), 0, i, j);
  }

  // ---- which bytes are emitted as data

  ghost predicate DataAt(ps: seq<Piece>, x: nat) {
    ps != [] && ((!ps[0].zero && ps[0].off <= x < ps[0].End()) || DataAt(ps[1..], x))
  }

  /** The byte is in some extent, and not below the end of an earlier one. */
  ghost predicate Fresh(exts: seq<Extent>, pos: nat, x: nat) {
    exts != [] && ((exts[0].off <= x < exts[0].End() && pos <= x) || Fresh(exts[1..], Max(pos, exts[0].End()), x))
  }

  lemma {:induction false} SpansData(full: bool, total: nat, pos: nat, exts: seq<Extent>, x: nat)
    ensures DataAt(Spans(full, total, pos, exts), x) <==> Fresh(exts, pos, x)
    decreases |exts|
  {
    var s := Spans(full, total, pos, exts);
    if exts == [] {
      if full && pos < total {
        assert s[1..] == [];
      }
    } else {
      var e, rest := exts[0], exts[1..];
      SpansData(full, total, e.End(), rest, x);
      if full && e.off > pos {
        assert s[1..][1..] == Spans(full, total, e.End(), rest);
      } else if e.off < pos && pos - e.off >= e.len {
        SpansData(full, total, pos, rest, x);
      } else {
        assert s[1..] == Spans(full, total, e.End(), rest);
      }
    }
  }

  lemma {:induction false} ChopData(p: Piece, chunk: int, ps: seq<Piece>, x: nat)
    ensures DataAt(Chop(p, chunk) + ps, x) <==> (!p.zero && p.off <= x < p.End()) || DataAt(ps, x)
    decreases p.len
  {
    if chunk <= 0 || p.len <= chunk {
      assert ([p] + ps)[1..] == ps;
    } else {
      var q := Piece(p.off + chunk, p.len - chunk, p.zero);
      ChopData(q, chunk, ps, x);
      assert (Chop(p, chunk) + ps)[1..] == Chop(q, chunk) + ps;
    }
  }

  lemma {:induction false} ChopAllData(ps: seq<Piece>, chunk: int, x: nat)
    ensures DataAt(ChopAll(ps, chunk), x) <==> DataAt(ps, x)
  {
    if ps != [] {
      ChopAllData(ps[1..], chunk, x);
      ChopData(ps[0], chunk, ChopAll(ps[1..], chunk), x);
    }
  }

  /** For any extents in any order: a byte is emitted as data exactly when it is in an
      extent and no earlier extent ends beyond it. */
  lemma DataBytesExactly(full: bool, total: nat, chunk: int, exts: seq<Extent>, x: nat)
    ensures DataAt(Emitted(full, total, chunk, exts), x) <==> Fresh(exts, 0, x)
  {
    SpansData(full, total, 0, exts, x);
    ChopAllData(Spans(full, total, 0, exts), chunk, x);
  }

  ghost predicate Sorted(exts: seq<Extent>) {
    exts == [] || ((forall e :: e in exts[1..] ==> exts[0].off <= e.off) && Sorted(exts[1..]))
  }

  ghost predicate InUnion(exts: seq<Extent>, x: nat) {
    exists e :: e in exts && e.off <= x < e.End()
  }

  lemma {:induction false} SortedFresh(exts: seq<Extent>, pos: nat, x: nat)
    requires Sorted(exts) && InUnion(exts, x) && pos <= x
    ensures Fresh(exts, pos, x)
  {
    var e :| e in exts && e.off <= x < e.End();
    if !(exts[0].off <= x < exts[0].End()) {
      assert e in exts[1..];
      SortedFresh(exts[1..], Max(pos, exts[0].End()), x);
    }
  }

  lemma {:induction false} FreshInUnion(exts: seq<Extent>, pos: nat, x: nat)
    requires Fresh(exts, pos, x)
    ensures InUnion(exts, x)
  {
    if exts[0].off <= x < exts[0].End() && pos <= x {
      assert exts[0] in exts;
    } else {
      FreshInUnion(exts[1..], Max(pos, exts[0].End()), x);
      var e :| e in exts[1..] && e.off <= x < e.End();
      assert e in exts;
    }
  }

  /** For extents sorted by offset, overlapping or not, the data blocks cover exactly
      the union of the extents. */
  lemma SortedDataIsUnion(full: bool, total: nat, chunk: int, exts: seq<Extent>, x: nat)
    requires Sorted(exts)
    ensures DataAt(Emitted(full, total, chunk, exts), x) <==> InUnion(exts, x)
  {
    DataBytesExactly(full, total, chunk, exts, x);
    if InUnion(exts, x) {
      SortedFresh(exts, 0, x);
    }
    if Fresh(exts, 0, x) {
      FreshInUnion(exts, 0, x);
    }
  }

  /** Out of order, a diff loses bytes: the second of these extents is never emitted. */
  lemma UnsortedExtentIsLost()
    ensures var exts := [Extent(10, 5), Extent(0, 5)];
            InUnion(exts, 0) && !DataAt(Emitted(false, 20, 4, exts), 0)
  {
    var exts := [Extent(10, 5), Extent(0, 5)];
    assert exts[1] in exts;
    DataBytesExactly(false, 20, 4, exts, 0);
    assert exts[1..] == [Extent(0, 5)];
    assert exts[1..][1..] == [];
    assert !Fresh(exts[1..], 15, 0);
  }

  /** Every piece of an incremental diff is data. */
  lemma {:induction false} IncrementalHasNoZero(total: nat, pos: nat, exts: seq<Extent>)
    ensures forall p :: p in Spans(false, total, pos, exts) ==> !p.zero
    decreases |exts|
  {
    if exts != [] {
      IncrementalHasNoZero(total, exts[0].End(), exts[1..]);
      IncrementalHasNoZero(total, pos, exts[1..]);
    }
  }
}
