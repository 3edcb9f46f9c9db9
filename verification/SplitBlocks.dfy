/** Splitting extents that are longer than a block, in the array that holds them. The
    output is appended to the front of the array that is still being read. */
module SplitBlocks {

  datatype Block = Block(off: nat, len: nat) {
    predicate Has(x: nat) { off <= x < off + len }
  }

  /** The pieces of one block, of at most `maxLen` each. */
  ghost function Pieces(b: Block, maxLen: nat): (s: seq<Block>)
    requires maxLen > 0
    ensures s != []
    ensures forall i :: 0 <= i < |s| ==> s[i].len <= maxLen
    ensures b.len > maxLen ==> |s| >= 2
    decreases b.len
  {
    if b.len <= maxLen then [b]
    else [Block(b.off, maxLen)] + Pieces(Block(b.off + maxLen, b.len - maxLen), maxLen)
  }

  /** The pieces one by one: all have full length but the last. */
  lemma {:induction false} PieceAt(b: Block, maxLen: nat, i: nat)
    requires maxLen > 0 && i < |Pieces(b, maxLen)|
    ensures var p := Pieces(b, maxLen)[i];
            && p.off == b.off + i * maxLen
            && p.len == (if i < |Pieces(b, maxLen)| - 1 then maxLen else b.len - i * maxLen) <= maxLen
    decreases b.len
  {
    if b.len > maxLen && i > 0 {
      PieceAt(Block(b.off + maxLen, b.len - maxLen), maxLen, i - 1);
      assert i * maxLen == (i - 1) * maxLen + maxLen;
    }
  }

  /** The intended result: every block replaced by its pieces. */
  ghost function Split(bs: seq<Block>, maxLen: nat): (s: seq<Block>)
    requires maxLen > 0
  {
    if bs == [] then [] else Split(bs[..|bs| - 1], maxLen) + Pieces(bs[|bs| - 1], maxLen)
  }

  /** What is read at position `k` once `out` has been written over the front. */
  ghost function ReadBack(bs: seq<Block>, out: seq<Block>, k: nat): Block
    requires k < |bs|
  {
    if k < |out| then out[k] else bs[k]
  }

  /** What the loop has written after reading the first `k` positions. */
  ghost function InPlace(bs: seq<Block>, maxLen: nat, k: nat): (out: seq<Block>)
    requires maxLen > 0 && k <= |bs|
    ensures |out| >= k
    ensures forall i :: 0 <= i < |out| ==> out[i].len <= maxLen
  {
    if k == 0 then []
    else
      var out := InPlace(bs, maxLen, k - 1);
      out + Pieces(ReadBack(bs, out, k - 1), maxLen)
  }

  ghost predicate NeedsSplit(bs: seq<Block>, maxLen: nat) {
    exists i :: 0 <= i < |bs| && bs[i].len > maxLen
  }

  /** The function's result: the input itself when nothing is too long. */
  ghost function Result(bs: seq<Block>, maxLen: nat): (out: seq<Block>)
    requires maxLen > 0
    ensures forall i :: 0 <= i < |out| ==> out[i].len <= maxLen
    ensures bs != [] ==> out != []
  {
    if NeedsSplit(bs, maxLen) then InPlace(bs, maxLen, |bs|) else bs
  }

  /** The code, with the array it shares between input and output. What does not fit
      the array goes to `spill`, which is never read. */
  method SplitLargeBlocks(a: array<Block>, maxLen: nat) returns (out: seq<Block>)
    requires maxLen > 0
    modifies a
    ensures out == Result(old(a[..]), maxLen)
  {
    ghost var bs := a[..];
    var needsSplit := false;
    for i := 0 to a.Length
      invariant !needsSplit ==> forall j :: 0 <= j < i ==> a[j].len <= maxLen
      invariant needsSplit ==> NeedsSplit(bs, maxLen)
    {
      if a[i].len > maxLen {
        needsSplit := true;
        assert bs[i].len > maxLen;
        break;
      }
    }
    if !needsSplit {
      assert forall j :: 0 <= j < |bs| ==> bs[j] == a[j];
      return a[..];
    }
    var n: nat := 0;              // length of the output
    var spill: seq<Block> := [];
    for k := 0 to a.Length
      invariant Holds(a[..], n, spill, InPlace(bs, maxLen, k))
      invariant forall j :: n <= j < a.Length ==> a[j] == bs[j]
    {
      assert a[k] == ReadBack(bs, InPlace(bs, maxLen, k), k);
      n, spill := AppendPieces(a, n, spill, a[k], maxLen, InPlace(bs, maxLen, k));
    }
    out := a[..if n < a.Length then n else a.Length] + spill;
  }

  /** One turn of the loop: the block itself, or its pieces one by one. */
  method AppendPieces(a: array<Block>, n0: nat, spill0: seq<Block>, b: Block, maxLen: nat, ghost out: seq<Block>)
    returns (n: nat, spill: seq<Block>)
    requires maxLen > 0 && Holds(a[..], n0, spill0, out)
    modifies a
    ensures n >= n0 && Holds(a[..], n, spill, out + Pieces(b, maxLen))
    ensures forall j :: n <= j < a.Length ==> a[j] == old(a[j])
  {
    if b.len <= maxLen {
      n, spill := Append(a, n0, spill0, b, out);
      return;
    }
    n, spill := n0, spill0;
    var off: nat, remaining: nat := b.off, b.len;
    ghost var now := out;
    while remaining > 0
      invariant n >= n0 && Holds(a[..], n, spill, now)
      invariant forall j :: n <= j < a.Length ==> a[j] == old(a[j])
      invariant now + (if remaining > 0 then Pieces(Block(off, remaining), maxLen) else []) == out + Pieces(b, maxLen)
    {
      var l := remaining;
      if l > maxLen {
        l := maxLen;
      }
      ghost var next := now + [Block(off, l)];
      NextPiece(now, Block(off, remaining), maxLen);
      n, spill := Append(a, n, spill, Block(off, l), now);
      now := next;
      off := off + l;
      remaining := remaining - l;
    }
  }

  lemma NextPiece(now: seq<Block>, b: Block, maxLen: nat)
    requires maxLen > 0
    ensures b.len > maxLen ==>
              now + Pieces(b, maxLen) ==
                now + [Block(b.off, maxLen)] + Pieces(Block(b.off + maxLen, b.len - maxLen), maxLen)
    ensures b.len <= maxLen ==> now + Pieces(b, maxLen) == now + [b]
  {
  }

  /** The output is the first `n` places of the array, and then the spill. */
  ghost predicate Holds(a: seq<Block>, n: nat, spill: seq<Block>, out: seq<Block>) {
    && n == |out|
    && (n <= |a| ==> spill == [] && out == a[..n])
    && (n > |a| ==> out == a + spill)
  }

  method Append(a: array<Block>, n: nat, spill: seq<Block>, b: Block, ghost out: seq<Block>)
    returns (m: nat, more: seq<Block>)
    requires Holds(a[..], n, spill, out)
    modifies a
    ensures m == n + 1 && Holds(a[..], m, more, out + [b])
    ensures forall j :: m <= j < a.Length ==> a[j] == old(a[j])
  {
    m := n + 1;
    if n < a.Length {
      a[n] := b;
      more := spill;
    } else {
      more := spill + [b];
    }
  }

  // ---- which inputs survive

  /** No block that is too long comes before another block. */
  ghost predicate OnlyLastIsLong(bs: seq<Block>, maxLen: nat) {
    forall i :: 0 <= i < |bs| - 1 ==> bs[i].len <= maxLen
  }

  lemma {:induction false} ShortSplit(bs: seq<Block>, maxLen: nat)
    requires maxLen > 0 && forall i :: 0 <= i < |bs| ==> bs[i].len <= maxLen
    ensures Split(bs, maxLen) == bs
  {
    if bs != [] {
      ShortSplit(bs[..|bs| - 1], maxLen);
      assert bs == bs[..|bs| - 1] + [bs[|bs| - 1]];
    }
  }

  lemma {:induction false} ShortInPlace(bs: seq<Block>, maxLen: nat, k: nat)
    requires maxLen > 0 && k <= |bs| && forall i :: 0 <= i < k ==> bs[i].len <= maxLen
    ensures InPlace(bs, maxLen, k) == bs[..k]
  {
    if k > 0 {
      ShortInPlace(bs, maxLen, k - 1);
      assert bs[..k] == bs[..k - 1] + [bs[k - 1]];
    }
  }

  /** As long as only the last block is too long, the result is the intended one. */
  lemma SafeSplitIsExact(bs: seq<Block>, maxLen: nat)
    requires maxLen > 0 && OnlyLastIsLong(bs, maxLen)
    ensures Result(bs, maxLen) == Split(bs, maxLen)
  {
    if NeedsSplit(bs, maxLen) {
      var n := |bs| - 1;
      ShortInPlace(bs, maxLen, n);
      ShortSplit(bs[..n], maxLen);
    } else {
      ShortSplit(bs, maxLen);
    }
  }

  ghost predicate Covered(bs: seq<Block>, x: nat) {
    exists i :: 0 <= i < |bs| && bs[i].Has(x)
  }

  lemma CoveredConcat(a: seq<Block>, b: seq<Block>, x: nat)
    ensures Covered(a + b, x) <==> Covered(a, x) || Covered(b, x)
  {
    if i :| 0 <= i < |a + b| && (a + b)[i].Has(x) {
      if i < |a| { assert a[i].Has(x); } else { assert b[i - |a|].Has(x); }
    }
    if i :| 0 <= i < |a| && a[i].Has(x) { assert (a + b)[i].Has(x); }
    if i :| 0 <= i < |b| && b[i].Has(x) { assert (a + b)[|a| + i].Has(x); }
  }

  lemma {:induction false} PiecesCover(b: Block, maxLen: nat, x: nat)
    requires maxLen > 0
    ensures Covered(Pieces(b, maxLen), x) <==> b.Has(x)
    decreases b.len
  {
    if b.len <= maxLen {
      if b.Has(x) { assert [b][0].Has(x); }
    } else {
      var first, rest := Block(b.off, maxLen), Block(b.off + maxLen, b.len - maxLen);
      PiecesCover(rest, maxLen, x);
      CoveredConcat([first], Pieces(rest, maxLen), x);
      if first.Has(x) { assert [first][0].Has(x); }
    }
  }

  /** The intended result covers the same bytes as the input. */
  lemma {:induction false} SplitCovers(bs: seq<Block>, maxLen: nat, x: nat)
    requires maxLen > 0
    ensures Covered(Split(bs, maxLen), x) <==> Covered(bs, x)
  {
    if bs != [] {
      var n := |bs| - 1;
      SplitCovers(bs[..n], maxLen, x);
      PiecesCover(bs[n], maxLen, x);
      CoveredConcat(Split(bs[..n], maxLen), Pieces(bs[n], maxLen), x);
      CoveredConcat(bs[..n], [bs[n]], x);
      assert bs == bs[..n] + [bs[n]];
      assert Covered([bs[n]], x) <==> bs[n].Has(x) by {
        if bs[n].Has(x) { assert [bs[n]][0].Has(x); }
      }
    }
  }

  /** Once a long block has been split, the loop reads only what it has written: no
      block behind it is ever looked at. */
  lemma {:induction false} NothingBehindIsRead(bs: seq<Block>, maxLen: nat, k: nat, m: nat, x: nat)
    requires maxLen > 0 && k < m <= |bs| && bs[k].len > maxLen
    requires forall i :: 0 <= i < k ==> bs[i].len <= maxLen
    ensures |InPlace(bs, maxLen, m)| > m
    ensures Covered(InPlace(bs, maxLen, m), x) ==> Covered(bs[..k + 1], x)
    decreases m
  {
    if m == k + 1 {
      ShortInPlace(bs, maxLen, k);
      PiecesCover(bs[k], maxLen, x);
      CoveredConcat(bs[..k], Pieces(bs[k], maxLen), x);
      CoveredConcat(bs[..k], [bs[k]], x);
      assert bs[..k + 1] == bs[..k] + [bs[k]];
      if bs[k].Has(x) { assert [bs[k]][0].Has(x); }
    } else {
      NothingBehindIsRead(bs, maxLen, k, m - 1, x);
      var out := InPlace(bs, maxLen, m - 1);
      assert out[m - 1].len <= maxLen;
      assert Pieces(out[m - 1], maxLen) == [out[m - 1]];
      CoveredConcat(out, [out[m - 1]], x);
    }
  }

  /** Whatever the input, the result covers no other bytes. */
  lemma ResultIsWithin(bs: seq<Block>, maxLen: nat, x: nat)
    requires maxLen > 0 && Covered(Result(bs, maxLen), x)
    ensures Covered(bs, x)
  {
    if OnlyLastIsLong(bs, maxLen) {
      SafeSplitIsExact(bs, maxLen);
      SplitCovers(bs, maxLen, x);
    } else {
      var k := FirstLong(bs, maxLen);
      NothingBehindIsRead(bs, maxLen, k, |bs|, x);
      CoveredConcat(bs[..k + 1], bs[k + 1..], x);
      assert bs == bs[..k + 1] + bs[k + 1..];
    }
  }

  ghost predicate Disjoint(bs: seq<Block>) {
    && (forall i :: 0 <= i < |bs| ==> bs[i].len > 0)
    && (forall i, j, x: nat :: 0 <= i < j < |bs| && bs[i].Has(x) ==> !bs[j].Has(x))
  }

  lemma DisjointParts(a: seq<Block>, b: seq<Block>, x: nat)
    requires Disjoint(a + b)
    ensures Disjoint(a) && Disjoint(b) && !(Covered(a, x) && Covered(b, x))
  {
    assert forall i :: 0 <= i < |a| ==> (a + b)[i] == a[i];
    assert forall i :: 0 <= i < |b| ==> (a + b)[|a| + i] == b[i];
  }

  /** On disjoint blocks the result covers the same bytes exactly when no block that is
      too long comes before another one; otherwise bytes are lost. */
  lemma SplitKeepsBytesIff(bs: seq<Block>, maxLen: nat)
    requires maxLen > 0 && Disjoint(bs)
    ensures (forall x: nat :: Covered(Result(bs, maxLen), x) <==> Covered(bs, x)) <==> OnlyLastIsLong(bs, maxLen)
  {
    if OnlyLastIsLong(bs, maxLen) {
      SafeSplitIsExact(bs, maxLen);
      forall x: nat ensures Covered(Result(bs, maxLen), x) <==> Covered(bs, x) {
        SplitCovers(bs, maxLen, x);
      }
    } else {
      var x := LostByte(bs, maxLen);
    }
  }

  lemma FirstLong(bs: seq<Block>, maxLen: nat) returns (k: nat)
    requires !OnlyLastIsLong(bs, maxLen)
    ensures k < |bs| - 1 && bs[k].len > maxLen && forall i :: 0 <= i < k ==> bs[i].len <= maxLen
  {
    k := 0;
    while bs[k].len <= maxLen
      invariant k < |bs| - 1 && forall i :: 0 <= i < k ==> bs[i].len <= maxLen
      decreases |bs| - k
    {
      assert exists i :: k < i < |bs| - 1 && bs[i].len > maxLen;
      k := k + 1;
    }
  }

  lemma LostByte(bs: seq<Block>, maxLen: nat) returns (x: nat)
    requires maxLen > 0 && Disjoint(bs) && !OnlyLastIsLong(bs, maxLen)
    ensures Covered(bs, x) && !Covered(Result(bs, maxLen), x)
  {
    var k := FirstLong(bs, maxLen);
    var n := |bs| - 1;
    x := bs[n].off;
    assert bs[n].Has(x) && [bs[n]][0].Has(x);
    NothingBehindIsRead(bs, maxLen, k, |bs|, x);
    assert bs == bs[..n] + [bs[n]] && bs[..n] == bs[..k + 1] + bs[k + 1..n];
    DisjointParts(bs[..n], [bs[n]], x);
    CoveredConcat(bs[..k + 1], bs[k + 1..n], x);
  }

  /** A file known to be small is one block, which is always safe. */
  lemma SingleBlockIsSafe(size: nat, maxLen: nat)
    requires maxLen > 0
    ensures OnlyLastIsLong([Block(0, size)], maxLen)
    ensures Result([Block(0, size)], maxLen) == Pieces(Block(0, size), maxLen)
  {
    SafeSplitIsExact([Block(0, size)], maxLen);
    assert [Block(0, size)][..0] == [];
  }
}
