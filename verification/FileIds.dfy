/** The ids of a file's blocks, and the boundary that belongs to them. */
module FileIds {
  import opened Wrappers
  import opened Contents
  import opened FileIterator

  /** The blocks of each file. */
  ghost function Lists(m: Mode, fs: seq<FileIn>): (xs: seq<seq<Item>>)
    ensures |xs| == |fs| && forall k :: 0 <= k < |xs| ==> xs[k] == FileItems(m, fs[k])
  {
    seq(|fs|, k requires 0 <= k < |fs| => FileItems(m, fs[k]))
  }

  lemma {:induction false} ItemsAreJoined(m: Mode, fs: seq<FileIn>)
    ensures Items(m, fs) == Join(Lists(m, fs))
  {
    if fs != [] {
      ItemsAreJoined(m, fs[1..]);
      assert Lists(m, fs)[1..] == Lists(m, fs[1..]);
    }
  }

  // The ids and the boundaries depend on no more of a file than its path, its size and the
  // number of its blocks.

  datatype Part = Part(path: string, n: nat, total: int)

  ghost function Parts(m: Mode, fs: seq<FileIn>): (ps: seq<Part>)
    ensures |ps| == |fs|
    ensures forall k :: 0 <= k < |ps| ==> ps[k] == Part(fs[k].path, |FileBlocks(m, fs[k])|, TotalSize(m, fs[k]))
  {
    seq(|fs|, k requires 0 <= k < |fs| => Part(fs[k].path, |FileBlocks(m, fs[k])|, TotalSize(m, fs[k])))
  }

  ghost function First(ps: seq<Part>, k: nat): (n: nat)
    requires k <= |ps|
  {
    if k == 0 then 0 else First(ps, k - 1) + ps[k - 1].n
  }

  lemma {:induction false} FirstOfRest(ps: seq<Part>, k: nat)
    requires k < |ps|
    ensures First(ps, k + 1) == ps[0].n + First(ps[1..], k)
  {
    if k > 0 {
      FirstOfRest(ps, k - 1);
    }
  }

  lemma {:induction false} FirstIsStart(ps: seq<Part>, xs: seq<seq<Item>>, k: nat)
    requires |ps| == |xs| && k <= |ps| && forall i :: 0 <= i < |ps| ==> ps[i].n == |xs[i]|
    ensures First(ps, k) == Start(xs, k)
  {
    if k > 0 {
      FirstIsStart(ps, xs, k - 1);
      StartNext(xs, k - 1);
    }
  }

  /** The id at which the k-th file starts. */
  ghost function FirstId(m: Mode, fs: seq<FileIn>, k: nat): (n: nat)
    requires k <= |fs|
  {
    First(Parts(m, fs), k)
  }

  lemma FirstIdIsStart(m: Mode, fs: seq<FileIn>, k: nat)
    requires k <= |fs|
    ensures FirstId(m, fs, k) == Start(Lists(m, fs), k)
  {
    FirstIsStart(Parts(m, fs), Lists(m, fs), k);
  }

  lemma FirstIdNext(m: Mode, fs: seq<FileIn>, k: nat)
    requires k < |fs|
    ensures FirstId(m, fs, k + 1) == FirstId(m, fs, k) + |FileBlocks(m, fs[k])|
  {
  }

  lemma RangeHoldsFile(m: Mode, fs: seq<FileIn>, k: nat, i: nat)
    requires k < |fs| && i < |FileBlocks(m, fs[k])|
    ensures FirstId(m, fs, k) + i < |Items(m, fs)|
    ensures Items(m, fs)[FirstId(m, fs, k) + i] == FileItems(m, fs[k])[i]
  {
    FirstIdIsStart(m, fs, k);
    ListHoldsFile(m, fs, k, i, FirstId(m, fs, k));
  }

  lemma ListIsFile(m: Mode, fs: seq<FileIn>, k: nat)
    requires k < |fs|
    ensures Lists(m, fs)[k] == FileItems(m, fs[k]) && |FileItems(m, fs[k])| == |FileBlocks(m, fs[k])|
  {
  }

  lemma InList(all: seq<Item>, xs: seq<seq<Item>>, k: nat, i: nat, first: nat, list: seq<Item>)
    requires all == Join(xs) && k < |xs| && xs[k] == list && i < |list| && first == Start(xs, k)
    ensures first + i < |all| && all[first + i] == list[i]
  {
    JoinAt(xs, k, i);
  }

  lemma ListHoldsFile(m: Mode, fs: seq<FileIn>, k: nat, i: nat, first: nat)
    requires k < |fs| && i < |FileBlocks(m, fs[k])| && first == Start(Lists(m, fs), k)
    ensures first + i < |Items(m, fs)| && Items(m, fs)[first + i] == FileItems(m, fs[k])[i]
  {
    ItemsAreJoined(m, fs);
    ListIsFile(m, fs, k);
    InList(Items(m, fs), Lists(m, fs), k, i, first, FileItems(m, fs[k]));
  }

  /** The ranges of the files follow each other without a gap, from 0 to the number of
      blocks, and each holds the blocks of its file in order. */
  lemma IdsAreConsecutive(m: Mode, fs: seq<FileIn>, k: nat)
    requires k < |fs|
    ensures FirstId(m, fs, 0) == 0 && FirstId(m, fs, |fs|) == |Items(m, fs)|
    ensures FirstId(m, fs, k + 1) == FirstId(m, fs, k) + |FileBlocks(m, fs[k])| <= |Items(m, fs)|
    ensures Items(m, fs)[FirstId(m, fs, k)..FirstId(m, fs, k + 1)] == FileItems(m, fs[k])
  {
    ItemsAreJoined(m, fs);
    FirstIdIsStart(m, fs, k);
    FirstIdIsStart(m, fs, k + 1);
    FirstIdIsStart(m, fs, |fs|);
    FirstIdNext(m, fs, k);
    JoinSlice(Lists(m, fs), k);
  }

  ghost predicate Distinct(fs: seq<FileIn>) {
    forall i, j :: 0 <= i < j < |fs| ==> fs[i].path != fs[j].path
  }

  lemma ItemHasFile(m: Mode, fs: seq<FileIn>, i: nat) returns (k: nat, j: nat)
    requires i < |Items(m, fs)|
    ensures k < |fs| && j < |FileBlocks(m, fs[k])| && i == FirstId(m, fs, k) + j
    ensures Items(m, fs)[i] == FileItems(m, fs[k])[j]
  {
    ItemsAreJoined(m, fs);
    k, j := JoinHas(Lists(m, fs), i);
    FirstIdIsStart(m, fs, k);
  }

  /** With every path at most once, the range of a file holds all the blocks with its
      path and no others. */
  lemma RangeIsThePath(m: Mode, fs: seq<FileIn>, k: nat, i: nat)
    requires Distinct(fs) && k < |fs| && i < |Items(m, fs)|
    ensures Items(m, fs)[i].path == fs[k].path <==> FirstId(m, fs, k) <= i < FirstId(m, fs, k + 1)
  {
    var l := FileAround(m, fs, k, i, FirstId(m, fs, k), FirstId(m, fs, k + 1));
    if l != k {
      if l < k { assert fs[l].path != fs[k].path; } else { assert fs[k].path != fs[l].path; }
    }
  }

  ghost function Names(fs: seq<FileIn>): (ns: seq<string>)
    ensures |ns| == |fs| && forall k :: 0 <= k < |ns| ==> ns[k] == fs[k].path
  {
    seq(|fs|, k requires 0 <= k < |fs| => fs[k].path)
  }

  /** Every block bears the name of its list. */
  ghost predicate Bears(xs: seq<seq<Item>>, names: seq<string>) {
    |xs| == |names| && forall l, j :: 0 <= l < |xs| && 0 <= j < |xs[l]| ==> xs[l][j].path == names[l]
  }

  lemma ListsBearNames(m: Mode, fs: seq<FileIn>)
    ensures Bears(Lists(m, fs), Names(fs))
  {
    forall l, j | 0 <= l < |fs| && 0 <= j < |Lists(m, fs)[l]| ensures Lists(m, fs)[l][j].path == fs[l].path {
      assert Lists(m, fs)[l] == FileItems(m, fs[l]);
    }
  }

  lemma ListAround(all: seq<Item>, xs: seq<seq<Item>>, names: seq<string>, k: nat, i: nat, lo: nat, hi: nat)
    returns (l: nat)
    requires Bears(xs, names) && k < |xs| && all == Join(xs) && i < |all|
    requires lo == Start(xs, k) && hi == Start(xs, k + 1)
    ensures l < |xs| && all[i].path == names[l] && (l == k <==> lo <= i < hi)
  {
    var j;
    l, j := JoinRange(xs, k, i);
  }

  /** The file of a block, and whether it is the k-th. */
  lemma FileAround(m: Mode, fs: seq<FileIn>, k: nat, i: nat, lo: nat, hi: nat) returns (l: nat)
    requires k < |fs| && i < |Items(m, fs)| && lo == FirstId(m, fs, k) && hi == FirstId(m, fs, k + 1)
    ensures l < |fs| && Items(m, fs)[i].path == fs[l].path && (l == k <==> lo <= i < hi)
  {
    FirstIdIsStart(m, fs, k);
    FirstIdIsStart(m, fs, k + 1);
    l := AroundIn(m, fs, k, i, lo, hi);
  }

  lemma AroundIn(m: Mode, fs: seq<FileIn>, k: nat, i: nat, lo: nat, hi: nat) returns (l: nat)
    requires k < |fs| && i < |Items(m, fs)| && lo == Start(Lists(m, fs), k) && hi == Start(Lists(m, fs), k + 1)
    ensures l < |fs| && Items(m, fs)[i].path == fs[l].path && (l == k <==> lo <= i < hi)
  {
    ItemsAreJoined(m, fs);
    ListsBearNames(m, fs);
    l := ListAround(Items(m, fs), Lists(m, fs), Names(fs), k, i, lo, hi);
  }

  // ---- boundaries

  ghost predicate HasBoundary(m: Mode, f: FileIn) {
    f.path != "" && m.boundaries && FileBlocks(m, f) != []
  }

  /** The boundary of a file: its path, the last id of its range, and its size. */
  ghost function BoundaryOf(m: Mode, fs: seq<FileIn>, k: nat): (b: Boundary)
    requires k < |fs| && HasBoundary(m, fs[k])
  {
    Boundary(fs[k].path, FirstId(m, fs, k) + |FileBlocks(m, fs[k])| - 1, TotalSize(m, fs[k]))
  }

  ghost function PartBounds(m: Mode, ps: seq<Part>, start: nat): (s: seq<Boundary>) {
    if ps == [] then []
    else BoundOf(m, ps[0].path, start, start + ps[0].n, ps[0].total) + PartBounds(m, ps[1..], start + ps[0].n)
  }

  lemma {:induction false} BoundsOfParts(m: Mode, fs: seq<FileIn>, start: nat)
    ensures Bounds(m, fs, start) == PartBounds(m, Parts(m, fs), start)
  {
    if fs != [] {
      var ps, end := Parts(m, fs), start + |FileBlocks(m, fs[0])|;
      BoundsOfParts(m, fs[1..], end);
      assert ps[1..] == Parts(m, fs[1..]);
      BoundsOfFirst(m, fs, start);
      PartBoundsOfFirst(m, ps, start, Part(fs[0].path, |FileBlocks(m, fs[0])|, TotalSize(m, fs[0])));
    }
  }

  lemma PartBoundsOfFirst(m: Mode, ps: seq<Part>, start: nat, p: Part)
    requires ps != [] && ps[0] == p
    ensures PartBounds(m, ps, start) ==
              BoundOf(m, p.path, start, start + p.n, p.total) + PartBounds(m, ps[1..], start + p.n)
  {
  }

  ghost function BoundAt(m: Mode, ps: seq<Part>, start: nat, k: nat): (xs: seq<Boundary>)
    requires k < |ps|
  {
    BoundOf(m, ps[k].path, start + First(ps, k), start + First(ps, k) + ps[k].n, ps[k].total)
  }

  /** The boundary of each file, where it has one, when the ids begin at `start`. */
  ghost function BoundLists(m: Mode, ps: seq<Part>, start: nat): (xs: seq<seq<Boundary>>)
    ensures |xs| == |ps|
    ensures forall k :: 0 <= k < |xs| ==> xs[k] == BoundAt(m, ps, start, k)
  {
    seq(|ps|, k requires 0 <= k < |ps| => BoundAt(m, ps, start, k))
  }

  lemma BoundAtRest(m: Mode, ps: seq<Part>, start: nat, k: nat)
    requires k + 1 < |ps|
    ensures BoundAt(m, ps, start, k + 1) == BoundAt(m, ps[1..], start + ps[0].n, k)
  {
    FirstOfRest(ps, k);
  }

  lemma {:induction false} PartBoundsAreJoined(m: Mode, ps: seq<Part>, start: nat)
    ensures PartBounds(m, ps, start) == Join(BoundLists(m, ps, start))
  {
    if ps != [] {
      var xs, ys := BoundLists(m, ps, start), BoundLists(m, ps[1..], start + ps[0].n);
      PartBoundsAreJoined(m, ps[1..], start + ps[0].n);
      forall k | 0 <= k < |ys| ensures xs[1..][k] == ys[k] {
        BoundAtRest(m, ps, start, k);
      }
      assert xs[1..] == ys;
      assert xs[0] == BoundAt(m, ps, start, 0);
    }
  }

  lemma BoundsAreJoined(m: Mode, fs: seq<FileIn>)
    ensures Bounds(m, fs, 0) == Join(BoundLists(m, Parts(m, fs), 0))
  {
    BoundsOfParts(m, fs, 0);
    PartBoundsAreJoined(m, Parts(m, fs), 0);
  }

  /** A boundary's last id is the one before the end. */
  lemma BoundAtPart(m: Mode, ps: seq<Part>, k: nat, path: string, first: nat, n: nat, total: int)
    requires k < |ps| && ps[k] == Part(path, n, total) && First(ps, k) == first
    ensures BoundAt(m, ps, 0, k) ==
            if path != "" && m.boundaries && n > 0 then [Boundary(path, first + n - 1, total)] else []
  {
  }

  lemma BoundAtFile(m: Mode, fs: seq<FileIn>, k: nat)
    requires k < |fs|
    ensures BoundAt(m, Parts(m, fs), 0, k) == if HasBoundary(m, fs[k]) then [BoundaryOf(m, fs, k)] else []
  {
    BoundAtPart(m, Parts(m, fs), k, fs[k].path, FirstId(m, fs, k), |FileBlocks(m, fs[k])|, TotalSize(m, fs[k]));
  }

  /** How many boundaries bear a path. */
  ghost function CountOf(bs: seq<Boundary>, p: string): (n: nat) {
    if bs == [] then 0 else (if bs[0].path == p then 1 else 0) + CountOf(bs[1..], p)
  }

  lemma {:induction false} CountOfConcat(a: seq<Boundary>, b: seq<Boundary>, p: string)
    ensures CountOf(a + b, p) == CountOf(a, p) + CountOf(b, p)
  {
    if a == [] {
      assert a + b == b;
    } else {
      CountOfConcat(a[1..], b, p);
      assert (a + b)[1..] == a[1..] + b;
    }
  }

  /** Only the k-th list counts when no other has the path. */
  lemma {:induction false} CountOfJoin(xs: seq<seq<Boundary>>, p: string, k: nat)
    requires forall j :: 0 <= j < |xs| && j != k ==> CountOf(xs[j], p) == 0
    ensures CountOf(Join(xs), p) == if k < |xs| then CountOf(xs[k], p) else 0
  {
    if xs != [] {
      CountOfConcat(xs[0], Join(xs[1..]), p);
      CountOfJoin(xs[1..], p, if k == 0 then |xs| else k - 1);
    }
  }

  lemma {:induction false} CountOfNone(bs: seq<Boundary>, p: string)
    requires forall i :: 0 <= i < |bs| ==> bs[i].path != p
    ensures CountOf(bs, p) == 0
  {
    if bs != [] {
      CountOfNone(bs[1..], p);
    }
  }

  lemma NotAnothersBoundary(m: Mode, ps: seq<Part>, j: nat, p: string)
    requires j < |ps| && ps[j].path != p
    ensures CountOf(BoundLists(m, ps, 0)[j], p) == 0
  {
    CountOfNone(BoundAt(m, ps, 0, j), p);
  }

  /** Exactly one boundary for every named file with a block and none for the others; it
      carries the last id of the file. */
  lemma OneBoundaryPerFile(m: Mode, fs: seq<FileIn>, k: nat)
    requires Distinct(fs) && k < |fs|
    ensures CountOf(Bounds(m, fs, 0), fs[k].path) == if HasBoundary(m, fs[k]) then 1 else 0
    ensures HasBoundary(m, fs[k]) ==> BoundaryOf(m, fs, k) in Bounds(m, fs, 0)
  {
    var xs := BoundLists(m, Parts(m, fs), 0);
    BoundsAreJoined(m, fs);
    BoundAtFile(m, fs, k);
    forall j | 0 <= j < |xs| && j != k ensures CountOf(xs[j], fs[k].path) == 0 {
      NotAnothersBoundary(m, Parts(m, fs), j, fs[k].path);
    }
    CountOfJoin(xs, fs[k].path, k);
    if HasBoundary(m, fs[k]) {
      JoinAt(xs, k, 0);
    }
  }

  /** The other direction: every boundary is the one of a file. */
  lemma EveryBoundaryHasAFile(m: Mode, fs: seq<FileIn>, b: Boundary) returns (k: nat)
    requires b in Bounds(m, fs, 0)
    ensures k < |fs| && HasBoundary(m, fs[k]) && b == BoundaryOf(m, fs, k)
  {
    var xs := BoundLists(m, Parts(m, fs), 0);
    BoundsAreJoined(m, fs);
    var i :| 0 <= i < |Join(xs)| && Join(xs)[i] == b;
    var j;
    k, j := JoinHas(xs, i);
    BoundAtFile(m, fs, k);
  }

  /** A boundary of an iteration, in terms of the blocks: it names the last block with its
      path, and carries its size. */
  lemma BoundaryIsLastBlock(m: Mode, fs: seq<FileIn>, b: Boundary)
    requires Distinct(fs) && b in Bounds(m, fs, 0)
    ensures b.last < |Items(m, fs)| && Items(m, fs)[b.last].path == b.path && Items(m, fs)[b.last].total == b.total
    ensures forall i :: b.last < i < |Items(m, fs)| ==> Items(m, fs)[i].path != b.path
  {
    var k := EveryBoundaryHasAFile(m, fs, b);
    var n := |FileBlocks(m, fs[k])|;
    RangeHoldsFile(m, fs, k, n - 1);
    FirstIdNext(m, fs, k);
    forall i | b.last < i < |Items(m, fs)| ensures Items(m, fs)[i].path != b.path {
      RangeIsThePath(m, fs, k, i);
    }
  }

  /** The blocks of the k-th file, field by field. */
  lemma BlockOfFile(m: Mode, fs: seq<FileIn>, k: nat, j: nat)
    requires k < |fs| && j < |FileBlocks(m, fs[k])|
    ensures FirstId(m, fs, k) + j < |Items(m, fs)|
    ensures var x, b := Items(m, fs)[FirstId(m, fs, k) + j], FileBlocks(m, fs[k])[j];
            x.path == fs[k].path && x.off == b.off && x.len == b.len && x.total == if m.channel then fs[k].size else 0
  {
    RangeHoldsFile(m, fs, k, j);
  }

  // ---- the order of delivery

  /** The surroundings of an iteration over two files: the channel is full at the end of the
      first and has room for one boundary at the end of the second. */
  ghost function FullThenRoom(): seq<Moment> {
    [Moment(true, 0, false), Moment(false, 0, false), Moment(true, 0, false)]
  }

  /** The end of a file takes one moment. */
  lemma OneMoment(c: Cursor, d: Cursor, q: Mail, p: Mail, ms: seq<Moment>)
    requires c.files != [] && d == Opened(AtEnd(c)) && ms != [] && !ms[0].stop
    requires p == Drain(Emit(q, Own(c), ms[0].room), ms[0].drain)
    ensures Posted(c, q, ms) == Posted(d, p, ms[1..])
  {
  }

  lemma LastMoment(c: Cursor, q: Mail, own: seq<Boundary>, ms: seq<Moment>)
    requires c.files == [] && Own(c) == own && ms != []
    ensures Posted(c, q, ms) == Drain(Emit(q, own, ms[0].room), ms[0].drain)
  {
  }

  lemma Kept(q: Mail, b: Boundary)
    ensures Drain(Emit(q, [b], false), 0) == Mail(q.sent, q.pending + [b])
    ensures Drain(Emit(q, [b], true), 0) == Mail(q.sent + [b], q.pending)
  {
  }

  lemma TwoBounds(m: Mode, f: FileIn, g: FileIn)
    requires HasBoundary(m, f) && HasBoundary(m, g)
    ensures Bounds(m, [f, g], 0) == [BoundaryOf(m, [f, g], 0), BoundaryOf(m, [f, g], 1)]
  {
    var xs := BoundLists(m, Parts(m, [f, g]), 0);
    BoundsAreJoined(m, [f, g]);
    BoundAtFile(m, [f, g], 0);
    BoundAtFile(m, [f, g], 1);
    assert Join(xs) == xs[0] + (xs[1] + Join(xs[1..][1..]));
  }

  /** The cursors of such an iteration and the boundaries of its files. */
  lemma TwoCursors(m: Mode, f: FileIn, g: FileIn) returns (c1: Cursor, c2: Cursor)
    requires HasBoundary(m, f) && HasBoundary(m, g)
    ensures c1 == Opened(AtEnd(StartOf(m, [f, g]))) && c1.files == [g] && Own(c1) == [BoundaryOf(m, [f, g], 0)]
    ensures c2 == Opened(AtEnd(c1)) && c2.files == [] && Own(c2) == [BoundaryOf(m, [f, g], 1)]
  {
    FirstIdNext(m, [f, g], 0);
    c1 := Opened(AtEnd(StartOf(m, [f, g])));
    c2 := Opened(AtEnd(c1));
  }

  lemma PostedSecond(c: Cursor, first: Boundary, second: Boundary)
    requires c.files == [] && Own(c) == [second]
    ensures Posted(c, Mail([], [first]), FullThenRoom()[2..]) == Mail([second], [first])
  {
    LastMoment(c, Mail([], [first]), [second], FullThenRoom()[2..]);
    Kept(Mail([], [first]), second);
  }

  lemma PostedFirst(c: Cursor, d: Cursor, first: Boundary, q: Mail)
    requires c.files != [] && d == Opened(AtEnd(c)) && Own(c) == [first]
    requires Posted(d, Mail([], [first]), FullThenRoom()[2..]) == q
    ensures Posted(c, Mail([], []), FullThenRoom()[1..]) == q
  {
    Kept(Mail([], []), first);
    OneMoment(c, d, Mail([], []), Mail([], [first]), FullThenRoom()[1..]);
    assert FullThenRoom()[1..][1..] == FullThenRoom()[2..];
  }

  lemma PostedNone(c: Cursor, d: Cursor, q: Mail)
    requires c.files != [] && d == Opened(AtEnd(c)) && Own(c) == []
    requires Posted(d, Mail([], []), FullThenRoom()[1..]) == q
    ensures Posted(c, Mail([], []), FullThenRoom()) == q
  {
    EmitNothing(Mail([], []), true);
    OneMoment(c, d, Mail([], []), Mail([], []), FullThenRoom());
  }

  /** The boundaries of an iteration can arrive in another order than they are due: the
      earlier one is kept back, and the later one finds the room. */
  lemma BoundariesMayOvertake(m: Mode, f: FileIn, g: FileIn, limit: nat)
    requires HasBoundary(m, f) && HasBoundary(m, g) && limit > 0
    ensures var first, second := BoundaryOf(m, [f, g], 0), BoundaryOf(m, [f, g], 1);
            && Bounds(m, [f, g], 0) == [first, second]
            && Drain(Posted(StartOf(m, [f, g]), Mail([], []), FullThenRoom()), limit).sent == [second, first]
  {
    TwoBounds(m, f, g);
    var c1, c2 := TwoCursors(m, f, g);
    var first, second := BoundaryOf(m, [f, g], 0), BoundaryOf(m, [f, g], 1);
    PostedSecond(c2, first, second);
    PostedFirst(c1, c2, first, Mail([second], [first]));
    PostedNone(StartOf(m, [f, g]), c1, Mail([second], [first]));
  }
}
