/** The file-system iterator: flattens the block diffs of many files into one numbered
    sequence of blocks, and tells the commit drainer the last id of every file. */
module FileIterator {
  import opened Wrappers
  import opened Contents
  import opened SplitBlocks

  const MAX_BLOCK_LEN: nat := 16 * 1024 * 1024

  /** A file's diff: it cannot be opened, or delivers batches of extents. A failed read
      counts as an empty batch: both end the file. */
  datatype Diff = OpenFails | Reads(batches: seq<seq<Block>>)

  /** A changed file; a negative size is unknown. */
  datatype FileIn = FileIn(path: string, size: int, diff: Diff)

  /** Channel-fed or slice-fed input, the bound for small files, and whether anybody
      listens to boundaries. */
  datatype Mode = Mode(channel: bool, smallFileThreshold: int, boundaries: bool)

  datatype Item = Item(path: string, off: nat, len: nat, total: int)

  ghost function TotalSize(m: Mode, f: FileIn): int { if m.channel then f.size else 0 }

  ghost predicate IsEmpty(m: Mode, f: FileIn) { m.channel && f.size == 0 }

  ghost predicate IsSmall(m: Mode, f: FileIn) {
    m.channel && m.smallFileThreshold > 0 && 0 < f.size <= m.smallFileThreshold
  }

  ghost function DiffBlocks(batches: seq<seq<Block>>): (s: seq<Block>)
    ensures forall i :: 0 <= i < |s| ==> s[i].len <= MAX_BLOCK_LEN
  {
    if batches == [] || batches[0] == [] then []
    else Result(batches[0], MAX_BLOCK_LEN) + DiffBlocks(batches[1..])
  }

  /** The batches of a file: none for an empty one, one with the whole file for a small one,
      and otherwise those of its diff. */
  ghost function Batches(m: Mode, f: FileIn): (bs: seq<seq<Block>>) {
    if IsEmpty(m, f) || (!IsSmall(m, f) && f.diff.OpenFails?) then []
    else if IsSmall(m, f) then [[Block(0, f.size)]]
    else f.diff.batches
  }

  /** The blocks emitted for one file. */
  ghost function FileBlocks(m: Mode, f: FileIn): (s: seq<Block>) {
    DiffBlocks(Batches(m, f))
  }

  lemma OneBatch(bs: seq<Block>)
    requires bs != []
    ensures DiffBlocks([bs]) == Result(bs, MAX_BLOCK_LEN)
  {
    assert [bs][1..] == [];
    assert DiffBlocks([bs]) == Result(bs, MAX_BLOCK_LEN) + DiffBlocks([]);
  }

  /** Which blocks a file gets. Fed from the channel, an empty file has none and a file up to
      the threshold is taken whole, in blocks of 16 MiB; any other file has the blocks of
      its diff, and none if the diff cannot be opened. */
  lemma BlocksOfFile(m: Mode, f: FileIn)
    ensures m.channel && f.size == 0 ==> FileBlocks(m, f) == []
    ensures m.channel && 0 < f.size <= m.smallFileThreshold ==>
              FileBlocks(m, f) == Pieces(Block(0, f.size), 16 * 1024 * 1024)
    ensures !m.channel || f.size < 0 || (f.size > 0 && f.size > m.smallFileThreshold) ==>
              FileBlocks(m, f) == if f.diff.OpenFails? then [] else DiffBlocks(f.diff.batches)
  {
    if m.channel && 0 < f.size <= m.smallFileThreshold {
      SingleBlockIsSafe(f.size, MAX_BLOCK_LEN);
      OneBatch([Block(0, f.size)]);
    }
  }

  ghost function Tag(bs: seq<Block>, path: string, total: int): (s: seq<Item>)
    ensures |s| == |bs|
    ensures forall i :: 0 <= i < |s| ==> s[i] == Item(path, bs[i].off, bs[i].len, total)
  {
    seq(|bs|, i requires 0 <= i < |bs| => Item(path, bs[i].off, bs[i].len, total))
  }

  ghost function FileItems(m: Mode, f: FileIn): (s: seq<Item>) {
    Tag(FileBlocks(m, f), f.path, TotalSize(m, f))
  }

  /** All the blocks, file after file; the id of a block is its position. */
  ghost function Items(m: Mode, fs: seq<FileIn>): (s: seq<Item>) {
    if fs == [] then [] else FileItems(m, fs[0]) + Items(m, fs[1..])
  }

  /** One boundary for each file that has a name and at least one block, with its last id. */
  ghost function Bounds(m: Mode, fs: seq<FileIn>, start: nat): (s: seq<Boundary>) {
    if fs == [] then []
    else
      var end := start + |FileBlocks(m, fs[0])|;
      BoundOf(m, fs[0].path, start, end, TotalSize(m, fs[0])) + Bounds(m, fs[1..], end)
  }

  ghost function BoundOf(m: Mode, path: string, start: nat, end: nat, total: int): (s: seq<Boundary>) {
    if path != "" && m.boundaries && end > start then [Boundary(path, end - 1, total)] else []
  }

  // ---- the iterator between two turns of its loop

  /** What is left of the diff that is being read. */
  ghost function Left(it: Option<seq<seq<Block>>>): (s: seq<Block>) {
    match it case None => [] case Some(batches) => DiffBlocks(batches)
  }

  /** `cur` are the blocks that are left of the current file. */
  datatype Cursor = Cursor(mode: Mode, curFile: string, total: int, cur: seq<Block>,
                           reqID: nat, start: nat, files: seq<FileIn>)

  /** The blocks and the boundaries that are still to come. */
  ghost function Rest(c: Cursor): (s: seq<Item>) {
    Tag(c.cur, c.curFile, c.total) + Items(c.mode, c.files)
  }

  ghost function Due(c: Cursor): (s: seq<Boundary>) {
    DueFrom(c.mode, c.curFile, c.start, c.reqID + |c.cur|, c.total, c.files)
  }

  ghost function DueFrom(m: Mode, path: string, start: nat, end: nat, total: int, fs: seq<FileIn>): (s: seq<Boundary>) {
    BoundOf(m, path, start, end, total) + Bounds(m, fs, end)
  }

  /** At the end of a file only the files behind it are left. */
  lemma FileIsOver(c: Cursor)
    requires c.cur == []
    ensures Rest(c) == Items(c.mode, c.files)
  {
    assert Tag([], c.curFile, c.total) == [];
  }

  /** The state in which the next file starts. */
  ghost function Opened(c: Cursor): (d: Cursor)
    requires c.files != []
  {
    var f := c.files[0];
    Cursor(c.mode, f.path, TotalSize(c.mode, f), FileBlocks(c.mode, f), c.reqID, c.reqID, c.files[1..])
  }

  /** Opening it changes nothing of what is still to come. */
  lemma RestOpened(c: Cursor)
    requires c.cur == [] && c.files != []
    ensures Rest(Opened(c)) == Rest(c)
  {
    FileIsOver(c);
    assert Items(c.mode, c.files) == FileItems(c.mode, c.files[0]) + Items(c.mode, c.files[1..]);
  }

  lemma BoundsOfFirst(m: Mode, fs: seq<FileIn>, start: nat)
    requires fs != []
    ensures var end := start + |FileBlocks(m, fs[0])|;
            Bounds(m, fs, start) ==
              BoundOf(m, fs[0].path, start, end, TotalSize(m, fs[0])) + Bounds(m, fs[1..], end)
  {
  }

  lemma DueOpened(c: Cursor)
    requires c.cur == [] && c.files != []
    ensures Due(c) == BoundOf(c.mode, c.curFile, c.start, c.reqID, c.total) + Due(Opened(c))
  {
    DueFromOpened(c.mode, c.files, c.reqID);
  }

  lemma DueFromOpened(m: Mode, fs: seq<FileIn>, start: nat)
    requires fs != []
    ensures Bounds(m, fs, start) ==
            DueFrom(m, fs[0].path, start, start + |FileBlocks(m, fs[0])|, TotalSize(m, fs[0]), fs[1..])
  {
    BoundsOfFirst(m, fs, start);
  }

  // ---- the boundary queue

  /** Boundaries handed to the channel, and those kept back because it was full. */
  datatype Mail = Mail(sent: seq<Boundary>, pending: seq<Boundary>)

  ghost function All(q: Mail): (m: multiset<Boundary>) {
    multiset(q.sent) + multiset(q.pending)
  }

  /** What the surroundings do at the end of a file: whether the channel has room for its
      boundary, how many kept ones it takes after that, and whether the context is done
      when the next file is asked for. */
  datatype Moment = Moment(room: bool, drain: nat, stop: bool)

  function Head(ms: seq<Moment>): Moment { if ms == [] then Moment(false, 0, false) else ms[0] }

  function Tail(ms: seq<Moment>): seq<Moment> { if ms == [] then [] else ms[1..] }

  /** Only the channel of files is watched together with the context. */
  predicate Stops(m: Mode, h: Moment) { m.channel && h.stop }

  ghost function Emit(q: Mail, bs: seq<Boundary>, room: bool): (r: Mail) {
    if room then q.(sent := q.sent + bs) else q.(pending := q.pending + bs)
  }

  ghost function Drain(q: Mail, n: nat): (r: Mail) {
    var k := Min(n, |q.pending|);
    Mail(q.sent + q.pending[..k], q.pending[k..])
  }

  /** Neither sending nor draining loses or repeats a boundary. */
  lemma EmitIsKept(q: Mail, bs: seq<Boundary>, room: bool)
    ensures All(Emit(q, bs, room)) == All(q) + multiset(bs)
  {
  }

  lemma EmitNothing(q: Mail, room: bool)
    ensures Emit(q, [], room) == q
  {
    assert q.sent + [] == q.sent && q.pending + [] == q.pending;
  }

  lemma DrainIsKept(q: Mail, n: nat)
    ensures All(Drain(q, n)) == All(q)
  {
    var k := Min(n, |q.pending|);
    assert q.pending == q.pending[..k] + q.pending[k..];
  }

  // ---- what an iteration yields, whatever the surroundings do

  ghost function Own(c: Cursor): (s: seq<Boundary>) {
    BoundOf(c.mode, c.curFile, c.start, c.reqID + |c.cur|, c.total)
  }

  /** The cursor at the end of its file. */
  ghost function AtEnd(c: Cursor): Cursor { c.(cur := [], reqID := c.reqID + |c.cur|) }

  /** The blocks up to the end, or up to the file at which the context is done. */
  ghost function Delivered(c: Cursor, ms: seq<Moment>): (s: seq<Item>)
    decreases |c.files|
  {
    Tag(c.cur, c.curFile, c.total) +
    if c.files == [] || Stops(c.mode, Head(ms)) then [] else Delivered(Opened(AtEnd(c)), Tail(ms))
  }

  /** And the mail then. */
  ghost function Posted(c: Cursor, q: Mail, ms: seq<Moment>): (r: Mail)
    decreases |c.files|
  {
    var p := Drain(Emit(q, Own(c), Head(ms).room), Head(ms).drain);
    if c.files == [] || Stops(c.mode, Head(ms)) then p else Posted(Opened(AtEnd(c)), p, Tail(ms))
  }

  ghost predicate NeverDone(ms: seq<Moment>) {
    forall i :: 0 <= i < |ms| ==> !ms[i].stop
  }

  /** All that was still to come is delivered, unless the context is done before; then it
      is the first part. */
  lemma {:induction false} DeliveredIsRest(c: Cursor, ms: seq<Moment>)
    ensures Delivered(c, ms) <= Rest(c)
    ensures NeverDone(ms) ==> Delivered(c, ms) == Rest(c)
    decreases |c.files|
  {
    if c.files == [] || Stops(c.mode, Head(ms)) {
      assert Delivered(c, ms) == Tag(c.cur, c.curFile, c.total);
    } else {
      var d := Opened(AtEnd(c));
      DeliveredIsRest(d, Tail(ms));
      RestOpened(AtEnd(c));
      FileIsOver(AtEnd(c));
      assert Rest(c) == Tag(c.cur, c.curFile, c.total) + Rest(d);
    }
  }

  lemma {:induction false} DeliveredBefore(c: Cursor, ms: seq<Moment>, i: nat)
    requires c.mode.channel && i <= |c.files| && i < |ms| && ms[i].stop && forall j :: 0 <= j < i ==> !ms[j].stop
    ensures Delivered(c, ms) == Tag(c.cur, c.curFile, c.total) + Items(c.mode, c.files[..i])
    decreases i
  {
    if i > 0 {
      var d := Opened(AtEnd(c));
      DeliveredBefore(d, ms[1..], i - 1);
      assert c.files[..i][1..] == c.files[1..][..i - 1] && c.files[..i][0] == c.files[0];
      assert Items(c.mode, c.files[..i]) == FileItems(c.mode, c.files[0]) + Items(c.mode, c.files[..i][1..]);
    }
  }

  /** When the context is done at the i-th request for a file from the channel, exactly the
      blocks of the files before it are delivered. */
  lemma DeliveredUntilDone(m: Mode, fs: seq<FileIn>, ms: seq<Moment>, i: nat)
    requires m.channel && i <= |fs| && i < |ms| && ms[i].stop && forall j :: 0 <= j < i ==> !ms[j].stop
    ensures Delivered(StartOf(m, fs), ms) == Items(m, fs[..i])
  {
    DeliveredBefore(StartOf(m, fs), ms, i);
    assert Tag([], "", 0) == [];
  }

  lemma DueAtEnd(c: Cursor)
    requires c.files != []
    ensures Due(c) == Own(c) + Due(Opened(AtEnd(c)))
  {
    DueOpened(AtEnd(c));
  }

  /** No boundary is lost or repeated, whatever room the channel has; only those of files
      that were never reached are missing. */
  lemma {:induction false} PostedIsDue(c: Cursor, q: Mail, ms: seq<Moment>)
    ensures All(Posted(c, q, ms)) <= All(q) + multiset(Due(c))
    ensures NeverDone(ms) ==> All(Posted(c, q, ms)) == All(q) + multiset(Due(c))
    decreases |c.files|
  {
    var e := Emit(q, Own(c), Head(ms).room);
    var p := Drain(e, Head(ms).drain);
    EmitIsKept(q, Own(c), Head(ms).room);
    DrainIsKept(e, Head(ms).drain);
    if c.files == [] {
      assert Due(c) == Own(c);
    } else {
      DueAtEnd(c);
      if !Stops(c.mode, Head(ms)) {
        PostedIsDue(Opened(AtEnd(c)), p, Tail(ms));
      }
    }
  }

  // ---- the iterator object

  ghost function Numbered(i: Item, id: nat): ChangeBlock {
    ChangeBlock(i.path, i.off, i.len, id, i.total, false)
  }

  ghost function WorkLeft(fs: seq<FileIn>): (n: nat) {
    if fs == [] then 0
    else 1 + (if fs[0].diff.Reads? then |fs[0].diff.batches| else 0) + WorkLeft(fs[1..])
  }

  ghost function StartOf(m: Mode, fs: seq<FileIn>): Cursor { Cursor(m, "", 0, [], 0, 0, fs) }

  class CephFSBlockIterator {
    const mode: Mode
    var files: seq<FileIn>                    // the files that have not been started
    var curIter: Option<seq<seq<Block>>>
    var curFile: string
    var buf: seq<Block>
    var bufIdx: nat
    var reqID: nat
    var fileStartReqID: nat
    var totalSize: int
    var sent: seq<Boundary>                   // what the boundary channel has taken
    var pendingBoundaries: seq<Boundary>
    var failed: bool
    var moments: seq<Moment>                  // what the surroundings will do

    ghost predicate Valid()
      reads this
    {
      bufIdx <= |buf| && fileStartReqID <= reqID && (!mode.boundaries ==> pendingBoundaries == [])
    }

    ghost function Value(): (c: Cursor)
      requires Valid()
      reads this
    {
      Cursor(mode, curFile, totalSize, buf[bufIdx..] + Left(curIter), reqID, fileStartReqID, files)
    }

    ghost function Mailbox(): (q: Mail)
      reads this
    {
      Mail(sent, pendingBoundaries)
    }

    /** The blocks that will still be delivered, and the mail at the end. */
    ghost function Coming(): (s: seq<Item>)
      requires Valid()
      reads this
    {
      Delivered(Value(), moments)
    }

    ghost function InTheEnd(): (q: Mail)
      requires Valid()
      reads this
    {
      Posted(Value(), Mailbox(), moments)
    }

    constructor (mode: Mode, files: seq<FileIn>, moments: seq<Moment>)
      ensures Valid() && this.mode == mode && !failed && this.moments == moments
      ensures Value() == StartOf(mode, files) && Mailbox() == Mail([], [])
    {
      this.mode, this.files, this.moments := mode, files, moments;
      curIter, curFile, buf, bufIdx, reqID, fileStartReqID, totalSize := None, "", [], 0, 0, 0, 0;
      sent, pendingBoundaries, failed := [], [], false;
    }

    /** Delivers the blocks one by one, numbering them in order, up to the end or the file at
        which the context is done; the mail is then what it was bound to be. */
    method Next() returns (b: Option<ChangeBlock>)
      requires Valid()
      modifies this
      ensures Valid() && failed == old(failed)
      ensures b.None? <==> old(Coming()) == []
      ensures b.None? ==> Mailbox() == old(InTheEnd()) && curFile == "" && reqID == old(reqID)
      ensures b.Some? ==> b.value == Numbered(old(Coming())[0], old(reqID)) && reqID == old(reqID) + 1
      ensures b.Some? ==> Coming() == old(Coming())[1..] && InTheEnd() == old(InTheEnd())
    {
      var more := Advance();
      if !more {
        return None;
      }
      var x := TakeFromBuffer();
      b := Some(x);
    }

    /** Turns until the buffer has a block or no file is left. */
    method Advance() returns (more: bool)
      requires Valid()
      modifies this
      ensures Valid() && failed == old(failed) && reqID == old(reqID)
      ensures more ==> bufIdx < |buf| && Coming() == old(Coming()) && InTheEnd() == old(InTheEnd())
      ensures !more ==> old(Coming()) == [] && Mailbox() == old(InTheEnd()) && curFile == ""
    {
      while bufIdx == |buf|
        invariant Valid() && failed == old(failed) && reqID == old(reqID)
        invariant Coming() == old(Coming()) && InTheEnd() == old(InTheEnd())
        decreases Work()
      {
        more := Turn();
        if !more {
          return;
        }
      }
      more := true;
    }

    /** Files and batches left: every turn of the loop uses one up. */
    ghost function Work(): (n: nat)
      reads this
    {
      WorkLeft(files) + if curIter.Some? then |curIter.value| else 0
    }

    /** One turn of the loop with an empty buffer: read the next batch of the current
        file, or go on to the next file. */
    method Turn() returns (more: bool)
      requires Valid() && bufIdx == |buf|
      modifies this
      ensures Valid() && failed == old(failed) && reqID == old(reqID)
      ensures more ==> Work() < old(Work()) && Coming() == old(Coming()) && InTheEnd() == old(InTheEnd())
      ensures !more ==> old(Coming()) == [] && Mailbox() == old(InTheEnd()) && curFile == ""
    {
      if curIter.Some? && curIter.value != [] && curIter.value[0] != [] {
        FillBuffer();
        return true;
      }
      assert Value().cur == [];
      more := FinishFile();
    }

    method TakeFromBuffer() returns (x: ChangeBlock)
      requires Valid() && bufIdx < |buf|
      modifies this`bufIdx, this`reqID
      ensures Valid() && reqID == old(reqID) + 1
      ensures old(Coming()) != [] && x == Numbered(old(Coming())[0], old(reqID))
      ensures Coming() == old(Coming())[1..] && InTheEnd() == old(InTheEnd())
    {
      ghost var c := Value();
      var b := buf[bufIdx];
      bufIdx := bufIdx + 1;
      x := ChangeBlock(curFile, b.off, b.len, reqID, totalSize, false);
      reqID := reqID + 1;
      assert c.cur[0] == b && Value().cur == c.cur[1..];
      TakeOne(c, Value(), Mailbox(), moments);
    }

    method FillBuffer()
      requires Valid() && bufIdx == |buf| && curIter.Some? && curIter.value != [] && curIter.value[0] != []
      modifies this`curIter, this`buf, this`bufIdx
      ensures Valid() && curIter == Some(old(curIter).value[1..]) && Value() == old(Value())
    {
      var blocks := curIter.value[0];
      assert buf[bufIdx..] == [];
      curIter := Some(curIter.value[1..]);
      buf := SplitCopy(blocks);
      bufIdx := 0;
      assert buf[0..] == buf;
    }

    /** Emits the boundary of the file that has come to its end and starts the next. */
    method FinishFile() returns (more: bool)
      requires Valid() && Value().cur == []
      modifies this
      ensures Valid() && failed == old(failed) && reqID == old(reqID)
      ensures more ==> Work() < old(Work()) && Coming() == old(Coming()) && InTheEnd() == old(InTheEnd())
      ensures !more ==> old(Coming()) == [] && Mailbox() == old(InTheEnd()) && curFile == ""
    {
      ghost var c, q := Value(), Mailbox();
      var m := Head(moments);
      EndOfFile(c, q, moments);
      PostBoundary(m);
      moments := Tail(moments);
      assert Value() == c;
      more := NextFile(m.stop);
    }

    /** The boundary of the current file, if it has one, joins the mail, and kept ones are
        handed over. */
    method PostBoundary(m: Moment)
      requires Valid() && Value().cur == []
      modifies this`sent, this`pendingBoundaries
      ensures Valid() && Mailbox() == Drain(Emit(old(Mailbox()), Own(Value()), m.room), m.drain)
    {
      EmitOwn(m.room);
      DrainPendingBoundaries(m.drain);
    }

    method EmitOwn(room: bool)
      requires Valid()
      modifies this`sent, this`pendingBoundaries
      ensures Valid()
      ensures Mailbox() == Emit(old(Mailbox()), BoundOf(mode, curFile, fileStartReqID, reqID, totalSize), room)
    {
      EmitNothing(Mailbox(), room);
      if curFile != "" && mode.boundaries && reqID > fileStartReqID {
        EmitBoundary(room);
      }
    }

    method NextFile(stop: bool) returns (more: bool)
      requires Valid() && Value().cur == []
      modifies this`curIter, this`buf, this`bufIdx, this`files, this`curFile, this`totalSize, this`fileStartReqID
      ensures Valid() && (more <==> old(files) != [] && !(mode.channel && stop))
      ensures more ==> Value() == Opened(old(Value())) && Work() < old(Work())
      ensures !more ==> curFile == ""
    {
      ghost var c := Value();
      curIter, buf, bufIdx := None, [], 0;
      assert Value() == c;
      if files == [] || (mode.channel && stop) {
        curFile := "";
        return false;
      }
      OpenFile();
      more := true;
    }

    method OpenFile()
      requires Valid() && files != [] && curIter == None && buf == [] && bufIdx == 0
      modifies this`files, this`curFile, this`totalSize, this`fileStartReqID, this`buf, this`curIter
      ensures Valid() && bufIdx == 0
      ensures Value() == Opened(old(Value())) && Work() < old(Work())
    {
      var f := files[0];
      files := files[1..];
      curFile := f.path;
      totalSize := if mode.channel then f.size else 0;
      fileStartReqID := reqID;
      if mode.channel {
        if totalSize == 0 {
          return;
        }
        if mode.smallFileThreshold > 0 && 0 < totalSize <= mode.smallFileThreshold {
          OneBatch([Block(0, totalSize)]);
          buf := SplitCopy([Block(0, totalSize)]);
          assert buf[0..] == buf;
          return;
        }
      }
      match f.diff {
        case OpenFails =>
        case Reads(bs) => curIter := Some(bs);
      }
    }

    /** Sends without blocking, if the channel has room. */
    method EmitBoundary(room: bool)
      requires reqID > 0
      modifies this`sent, this`pendingBoundaries
      ensures Mailbox() == Emit(old(Mailbox()), [Boundary(curFile, reqID - 1, totalSize)], room)
    {
      var fb := Boundary(curFile, reqID - 1, totalSize);
      if room {
        sent := sent + [fb];
      } else {
        pendingBoundaries := pendingBoundaries + [fb];
      }
    }

    /** Hands over as many as there is room for, the oldest first. */
    method DrainPendingBoundaries(room: nat)
      modifies this`sent, this`pendingBoundaries
      ensures Mailbox() == Drain(old(Mailbox()), room)
    {
      var k := 0;
      ghost var q := Mailbox();
      while |pendingBoundaries| > 0
        invariant 0 <= k <= room && k <= |q.pending| && Mailbox() == Drain(q, k)
        decreases |pendingBoundaries|
      {
        if k == room {
          return;
        }
        assert q.pending[..k + 1] == q.pending[..k] + [q.pending[k]];
        sent := sent + [pendingBoundaries[0]];
        pendingBoundaries := pendingBoundaries[1..];
        k := k + 1;
      }
    }

    method SetFailed()
      modifies this`failed
      ensures failed
    {
      failed := true;
    }

    /** Hands over all that were kept, in order, or stops when the context is done after
        `limit` of them. */
    method FlushAllBoundaries(limit: nat)
      modifies this`sent, this`pendingBoundaries
      ensures sent == old(Drain(Mailbox(), limit)).sent
      ensures limit >= |old(pendingBoundaries)| ==> pendingBoundaries == []
    {
      ghost var q := Mailbox();
      var i := 0;
      while i < |pendingBoundaries|
        invariant 0 <= i <= |pendingBoundaries| && i <= limit && pendingBoundaries == q.pending
        invariant sent == q.sent + q.pending[..i]
      {
        if i == limit {
          return;
        }
        assert q.pending[..i + 1] == q.pending[..i] + [q.pending[i]];
        sent := sent + [pendingBoundaries[i]];
        i := i + 1;
      }
      pendingBoundaries := [];
    }

    /** Closing: the boundary of an open file joins the mail unless the pipeline failed, and
        then everything that was kept back is handed over, as far as the context lets it. */
    method Close(room: bool, limit: nat)
      requires Valid()
      modifies this`sent, this`pendingBoundaries, this`curIter, this`buf, this`bufIdx
      ensures var open := !failed && curFile != "" && mode.boundaries && reqID > fileStartReqID;
              var own := if open then [Boundary(curFile, reqID - 1, totalSize)] else [];
              sent == Drain(Emit(old(Mailbox()), own, room), limit).sent
    {
      EmitNothing(Mailbox(), room);
      if !failed {
        EmitOwn(room);
      }
      if mode.boundaries {
        FlushAllBoundaries(limit);
      }
      if curIter.Some? {
        curIter, buf, bufIdx := None, [], 0;
      }
    }
  }

  /** What is delivered after the current file. */
  ghost function Later(c: Cursor, ms: seq<Moment>): (s: seq<Item>) {
    if c.files == [] || Stops(c.mode, Head(ms)) then [] else Delivered(Opened(c), Tail(ms))
  }

  lemma DeliveredNow(c: Cursor, ms: seq<Moment>)
    ensures Delivered(c, ms) == Tag(c.cur, c.curFile, c.total) + Later(AtEnd(c), ms)
  {
  }

  lemma TagFirst(bs: seq<Block>, path: string, total: int)
    requires bs != []
    ensures Tag(bs, path, total) == [Item(path, bs[0].off, bs[0].len, total)] + Tag(bs[1..], path, total)
  {
  }

  /** Taking a block off the current file leaves the rest of the iteration as it was. */
  lemma TakeOne(c: Cursor, d: Cursor, q: Mail, ms: seq<Moment>)
    requires c.cur != [] && d == c.(cur := c.cur[1..], reqID := c.reqID + 1)
    ensures Delivered(c, ms) == [Item(c.curFile, c.cur[0].off, c.cur[0].len, c.total)] + Delivered(d, ms)
    ensures Posted(d, q, ms) == Posted(c, q, ms)
  {
    TakeOneDelivered(c, d, ms);
    PostedSame(c, d, q, ms);
  }

  lemma TakeOneDelivered(c: Cursor, d: Cursor, ms: seq<Moment>)
    requires c.cur != [] && d == c.(cur := c.cur[1..], reqID := c.reqID + 1)
    ensures Delivered(c, ms) == [Item(c.curFile, c.cur[0].off, c.cur[0].len, c.total)] + Delivered(d, ms)
  {
    DeliveredNow(c, ms);
    DeliveredNow(d, ms);
    var now, later := Tag(d.cur, d.curFile, d.total), Later(AtEnd(d), ms);
    TagFirst(c.cur, c.curFile, c.total);
    Regroup(Item(c.curFile, c.cur[0].off, c.cur[0].len, c.total), now, later);
  }

  lemma Regroup(x: Item, a: seq<Item>, b: seq<Item>)
    ensures [x] + a + b == [x] + (a + b)
  {
  }

  lemma PostedSame(c: Cursor, d: Cursor, q: Mail, ms: seq<Moment>)
    requires AtEnd(c) == AtEnd(d)
    ensures Posted(d, q, ms) == Posted(c, q, ms)
  {
    assert Own(c) == Own(d) && c.files == d.files && c.mode == d.mode;
  }

  /** What the end of a file does to the iteration. */
  lemma EndOfFile(c: Cursor, q: Mail, ms: seq<Moment>)
    requires c.cur == []
    ensures var p := Drain(Emit(q, Own(c), Head(ms).room), Head(ms).drain);
            if c.files == [] || Stops(c.mode, Head(ms))
            then Delivered(c, ms) == [] && Posted(c, q, ms) == p
            else && Delivered(c, ms) == Delivered(Opened(c), Tail(ms))
                 && Posted(c, q, ms) == Posted(Opened(c), p, Tail(ms))
  {
    assert Tag([], c.curFile, c.total) == [] && AtEnd(c) == c;
  }

  /** The split of a batch, which the iterator hands over and does not use again. */
  method SplitCopy(bs: seq<Block>) returns (out: seq<Block>)
    ensures out == Result(bs, MAX_BLOCK_LEN)
  {
    var a := new Block[|bs|](i requires 0 <= i < |bs| => bs[i]);
    assert a[..] == bs;
    out := SplitLargeBlocks(a, MAX_BLOCK_LEN);
  }

  ghost predicate NumberedFrom(blocks: seq<ChangeBlock>, all: seq<Item>) {
    |blocks| <= |all| && forall i :: 0 <= i < |blocks| ==> blocks[i] == Numbered(all[i], i)
  }

  lemma NumberNext(blocks: seq<ChangeBlock>, all: seq<Item>, rest: seq<Item>)
    requires NumberedFrom(blocks, all) && rest == all[|blocks|..] && rest != []
    ensures NumberedFrom(blocks + [Numbered(rest[0], |blocks|)], all) && rest[1..] == all[|blocks| + 1..]
  {
  }

  /** The feeder's loop: every block that is coming, numbered 0, 1, 2 and so on. */
  method TakeAll(it: CephFSBlockIterator, ghost all: seq<Item>) returns (blocks: seq<ChangeBlock>)
    requires it.Valid() && it.reqID == 0 && it.Coming() == all
    modifies it
    ensures it.Valid() && it.Mailbox() == old(it.InTheEnd()) && it.curFile == "" && it.failed == old(it.failed)
    ensures |blocks| == |all| && NumberedFrom(blocks, all)
  {
    blocks := [];
    var more := true;
    ghost var mail := it.InTheEnd();
    while more
      invariant it.Valid() && it.reqID == |blocks| && it.failed == old(it.failed) && NumberedFrom(blocks, all)
      invariant more ==> it.InTheEnd() == mail && it.Coming() == all[|blocks|..]
      invariant !more ==> |blocks| == |all| && it.Mailbox() == mail && it.curFile == ""
      decreases more, |all| - |blocks|
    {
      ghost var rest := it.Coming();
      var b := it.Next();
      if b.None? {
        more := false;
      } else {
        NumberNext(blocks, all, rest);
        blocks := blocks + [b.value];
      }
    }
  }

  /** A whole iteration and the close after it, for every behaviour of the surroundings:
      which blocks are delivered, and which boundaries in which order. When the context is
      never done these are all the blocks, and exactly the boundaries that are due; in any
      case they are the first blocks, and no boundary comes twice. */
  method Iterate(mode: Mode, files: seq<FileIn>, moments: seq<Moment>, limit: nat)
    returns (blocks: seq<ChangeBlock>, sent: seq<Boundary>)
    ensures |blocks| == |Delivered(StartOf(mode, files), moments)| <= |Items(mode, files)|
    ensures forall i :: 0 <= i < |blocks| ==>
              var x := Items(mode, files)[i];
              blocks[i] == ChangeBlock(x.path, x.off, x.len, i, x.total, false)
    ensures sent == Drain(Posted(StartOf(mode, files), Mail([], []), moments), limit).sent
    ensures multiset(sent) <= multiset(Bounds(mode, files, 0))
    ensures NeverDone(moments) ==> |blocks| == |Items(mode, files)|
    ensures NeverDone(moments) && limit >= |files| ==> multiset(sent) == multiset(Bounds(mode, files, 0))
  {
    var it := new CephFSBlockIterator(mode, files, moments);
    blocks := TakeAll(it, Delivered(StartOf(mode, files), moments));
    ghost var q := it.Mailbox();
    it.Close(false, limit);
    sent := it.sent;
    EmitNothing(q, false);
    IterationIsSound(mode, files, moments, limit);
    NumberedMeans(blocks, Delivered(StartOf(mode, files), moments), Items(mode, files));
  }

  /** The numbers of the first blocks are those of all. */
  lemma NumberedMeans(blocks: seq<ChangeBlock>, some: seq<Item>, all: seq<Item>)
    requires NumberedFrom(blocks, some) && some <= all
    ensures |blocks| <= |all| && forall i :: 0 <= i < |blocks| ==>
              blocks[i] == ChangeBlock(all[i].path, all[i].off, all[i].len, i, all[i].total, false)
  {
  }

  lemma IterationIsSound(m: Mode, fs: seq<FileIn>, ms: seq<Moment>, limit: nat)
    ensures var c, q := StartOf(m, fs), Posted(StartOf(m, fs), Mail([], []), ms);
            && Delivered(c, ms) <= Items(m, fs) && (NeverDone(ms) ==> Delivered(c, ms) == Items(m, fs))
            && multiset(Drain(q, limit).sent) <= multiset(Bounds(m, fs, 0))
            && (NeverDone(ms) && limit >= |fs| ==> multiset(Drain(q, limit).sent) == multiset(Bounds(m, fs, 0)))
  {
    var c := StartOf(m, fs);
    var q := Posted(c, Mail([], []), ms);
    FileIsOver(c);
    DeliveredIsRest(c, ms);
    PostedIsDue(c, Mail([], []), ms);
    assert Due(c) == Bounds(m, fs, 0) && All(Mail([], [])) == multiset{};
    DrainIsKept(q, limit);
    PendingIsFew(c, Mail([], []), ms);
  }

  /** Not more boundaries are kept back than there are files. */
  lemma {:induction false} PendingIsFew(c: Cursor, q: Mail, ms: seq<Moment>)
    ensures |Posted(c, q, ms).pending| <= |q.pending| + |Own(c)| + |c.files|
    decreases |c.files|
  {
    if c.files != [] && !Stops(c.mode, Head(ms)) {
      var p := Drain(Emit(q, Own(c), Head(ms).room), Head(ms).drain);
      PendingIsFew(Opened(AtEnd(c)), p, Tail(ms));
    }
  }
}
