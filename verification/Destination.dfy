/** The destination: the block-device server, which writes into the device in place, and
    the file server, which writes through the cache of open files. */
module Destination {
  import opened Wrappers
  import opened Contents
  import opened FileCaches
  import P = Protocol
  import opened Configuration

  type Request = seq<ChangedBlock>

  ghost function Bytes(b: ChangedBlock): (d: seq<Byte>) {
    if b.isZero then Zeros(b.len) else b.data
  }

  // ---- zeros

  method IsAllZero(data: seq<Byte>) returns (zero: bool)
    ensures zero <==> AllZero(data)
  {
    for i := 0 to |data|
      invariant AllZero(data[..i])
    {
      if data[i] != 0 {
        return false;
      }
    }
    assert data[..|data|] == data;
    zero := true;
  }

  const ZERO_BUF_SIZE: nat := 1024 * 1024

  // ---- the block device

  /** What a write makes of the contents; an empty one leaves them alone. */
  ghost function Patch(c: seq<Byte>, off: nat, d: seq<Byte>): (r: seq<Byte>)
    ensures d == [] || off + |d| <= |c| ==> |r| == |c|
  {
    if d == [] then c else Overlay(c, off, d)
  }

  /** A positioned write into a device, which cannot grow. It may fail at any byte and
      then has written some of them. */
  method WriteAt(dev: array<Byte>, d: seq<Byte>, off: nat) returns (ok: bool)
    modifies dev
    ensures ok ==> (d == [] || off + |d| <= dev.Length) && dev[..] == Patch(old(dev[..]), off, d)
    ensures forall x :: 0 <= x < dev.Length && !(off <= x < off + |d|) ==> dev[x] == old(dev[x])
  {
    ghost var was := dev[..];
    for i := 0 to |d|
      invariant i > 0 ==> off + i <= dev.Length
      invariant forall x :: 0 <= x < dev.Length ==> dev[x] == if off <= x < off + i then d[x - off] else was[x]
    {
      if off + i >= dev.Length {
        return false;
      }
      if * {
        return false;
      }
      dev[off + i] := d[i];
    }
    ghost var r := Patch(was, off, d);
    assert forall x :: 0 <= x < dev.Length ==> dev[x] == ByteAt(r, x);
    ok := true;
  }

  /** Zeros up to `off`, the first contents from there on. */
  ghost predicate ZeroedTo(c: seq<Byte>, was: seq<Byte>, offset: nat, off: nat) {
    |c| == |was| && forall x :: 0 <= x < |c| ==> c[x] == if offset <= x < off then 0 else was[x]
  }

  lemma ZeroMore(c: seq<Byte>, was: seq<Byte>, offset: nat, off: nat, n: nat)
    requires ZeroedTo(c, was, offset, off) && offset <= off && off + n <= |c|
    ensures ZeroedTo(Patch(c, off, Zeros(n)), was, offset, off + n)
  {
    var r := Patch(c, off, Zeros(n));
    forall x | 0 <= x < |r| ensures r[x] == if offset <= x < off + n then 0 else was[x] {
      assert r[x] == ByteAt(r, x) && c[x] == ByteAt(c, x);
    }
  }

  lemma ZeroedIsPatch(c: seq<Byte>, was: seq<Byte>, offset: nat, length: nat)
    requires ZeroedTo(c, was, offset, offset + length) && (length == 0 || offset + length <= |was|)
    ensures c == Patch(was, offset, Zeros(length))
  {
    var r := Patch(was, offset, Zeros(length));
    forall x | 0 <= x < |c| ensures c[x] == r[x] {
      assert r[x] == ByteAt(r, x) && was[x] == ByteAt(was, x);
    }
  }

  /** Zeros in pieces of at most 1 MiB are zeros at once. */
  method WriteZeros(dev: array<Byte>, offset: nat, length: nat) returns (ok: bool)
    modifies dev
    ensures ok ==> length == 0 || offset + length <= dev.Length
    ensures ok ==> dev[..] == Patch(old(dev[..]), offset, Zeros(length))
    ensures forall x :: 0 <= x < dev.Length && !(offset <= x < offset + length) ==> dev[x] == old(dev[x])
  {
    var off, left := offset, length;
    ghost var was := dev[..];
    while left > 0
      invariant 0 <= left <= length && off == offset + (length - left)
      invariant left < length ==> off <= dev.Length
      invariant ZeroedTo(dev[..], was, offset, off)
    {
      ghost var before := dev[..];
      var n := if ZERO_BUF_SIZE < left then ZERO_BUF_SIZE else left;
      ok := WriteAt(dev, Zeros(n), off);
      if !ok {
        assert forall x :: 0 <= x < dev.Length && !(off <= x < off + n) ==> dev[x] == before[x];
        return;
      }
      ZeroMore(before, was, offset, off, n);
      off, left := off + n, left - n;
    }
    ZeroedIsPatch(dev[..], was, offset, length);
    ok := true;
  }

  /** The device after a request: its blocks written one after the other. */
  ghost function Device(c: seq<Byte>, req: Request): (r: seq<Byte>) {
    if req == [] then c
    else
      var b := req[|req| - 1];
      Patch(Device(c, req[..|req| - 1]), b.off, Bytes(b))
  }

  ghost function Ids(req: Request): (s: seq<nat>)
    ensures |s| == |req| && forall i :: 0 <= i < |s| ==> s[i] == req[i].reqID
  {
    seq(|req|, i requires 0 <= i < |req| => req[i].reqID)
  }

  method CollectRequestIDs(req: Request) returns (ids: seq<nat>)
    ensures ids == Ids(req)
  {
    ids := [];
    for i := 0 to |req|
      invariant ids == Ids(req[..i])
    {
      ids := ids + [req[i].reqID];
    }
    assert req[..|req|] == req;
  }

  ghost predicate Touches(req: Request, x: nat) {
    exists i :: 0 <= i < |req| && req[i].off <= x < req[i].off + |Bytes(req[i])|
  }

  lemma DeviceNext(c: seq<Byte>, req: Request, i: nat)
    requires i < |req|
    ensures Device(c, req[..i + 1]) == Patch(Device(c, req[..i]), req[i].off, Bytes(req[i]))
  {
    assert req[..i + 1][..i] == req[..i];
  }

  method WriteDeviceBlock(dev: array<Byte>, b: ChangedBlock) returns (ok: bool)
    modifies dev
    ensures ok ==> dev[..] == Patch(old(dev[..]), b.off, Bytes(b))
    ensures forall x :: 0 <= x < dev.Length && !(b.off <= x < b.off + |Bytes(b)|) ==> dev[x] == old(dev[x])
  {
    if b.isZero {
      ok := WriteZeros(dev, b.off, b.len);
    } else {
      ok := WriteAt(dev, b.data, b.off);
    }
  }

  /** Writes the blocks of a request; a failure leaves every byte outside them alone. */
  method WriteDeviceBlocks(dev: array<Byte>, req: Request) returns (ok: bool)
    modifies dev
    ensures ok ==> dev[..] == Device(old(dev[..]), req)
    ensures forall x :: 0 <= x < dev.Length && !Touches(req, x) ==> dev[x] == old(dev[x])
  {
    ghost var was := dev[..];
    for i := 0 to |req|
      invariant dev[..] == Device(was, req[..i])
      invariant forall x :: 0 <= x < dev.Length && !Touches(req, x) ==> dev[x] == was[x]
    {
      DeviceNext(was, req, i);
      ok := WriteDeviceBlock(dev, req[i]);
      assert forall x :: 0 <= x < dev.Length && !Touches(req, x) ==> !(req[i].off <= x < req[i].off + |Bytes(req[i])|);
      if !ok {
        return;
      }
    }
    assert req[..|req|] == req;
    ok := true;
  }

  lemma {:induction false} DeviceConcat(c: seq<Byte>, a: Request, b: Request)
    ensures Device(c, a + b) == Device(Device(c, a), b)
    decreases |b|
  {
    if b == [] {
      assert a + b == a;
    } else {
      assert (a + b)[..|a + b| - 1] == a + b[..|b| - 1];
      DeviceConcat(c, a, b[..|b| - 1]);
    }
  }

  /** The answers to the first requests: their ids, where there are any. */
  ghost function Answers(reqs: seq<Request>): (s: seq<seq<nat>>) {
    if reqs == [] then []
    else Answers(reqs[..|reqs| - 1]) + if reqs[|reqs| - 1] == [] then [] else [Ids(reqs[|reqs| - 1])]
  }

  /** How many requests have a block. */
  ghost function NonEmpty(reqs: seq<Request>): (n: nat) {
    if reqs == [] then 0 else NonEmpty(reqs[..|reqs| - 1]) + if reqs[|reqs| - 1] == [] then 0 else 1
  }

  lemma NonEmptyNext(reqs: seq<Request>, r: Request)
    ensures NonEmpty([]) == 0
    ensures NonEmpty(reqs + [r]) == NonEmpty(reqs) + if |r| > 0 then 1 else 0
  {
    assert (reqs + [r])[..|reqs|] == reqs;
  }

  /** The answers `acks` to requests: one for each that has a block, none of them empty, and
      together the ids of all their blocks, in order. */
  ghost predicate AnswersAll(acks: seq<seq<nat>>, reqs: seq<Request>) {
    && |acks| == NonEmpty(reqs) && (forall i :: 0 <= i < |acks| ==> |acks[i]| > 0)
    && |Flat(acks)| == |Flat(reqs)| && forall i :: 0 <= i < |Flat(reqs)| ==> Flat(acks)[i] == Flat(reqs)[i].reqID
  }

  lemma {:induction false} AnswersAreIds(reqs: seq<Request>)
    ensures AnswersAll(Answers(reqs), reqs)
  {
    if reqs != [] {
      var front, last := reqs[..|reqs| - 1], reqs[|reqs| - 1];
      AnswersAreIds(front);
      assert reqs == front + [last];
      OneMoreAnswered(Answers(front), front, last);
    }
  }

  lemma OneMoreAnswered(acks: seq<seq<nat>>, reqs: seq<Request>, r: Request)
    requires AnswersAll(acks, reqs)
    ensures AnswersAll(acks + if r == [] then [] else [Ids(r)], reqs + [r])
  {
    NonEmptyNext(reqs, r);
    FlatNext(reqs, r);
    if r == [] {
      assert acks + [] == acks && Flat(reqs) + r == Flat(reqs);
    } else {
      FlatNext(acks, Ids(r));
    }
  }

  /** So an id is acknowledged as often as it occurs in the requests answered: exactly once
      when the blocks have different ids. */
  lemma AcknowledgedOnce(acks: seq<seq<nat>>, reqs: seq<Request>, i: nat)
    requires AnswersAll(acks, reqs) && i < |Flat(reqs)|
    requires forall j, k :: 0 <= j < k < |Flat(reqs)| ==> Flat(reqs)[j].reqID != Flat(reqs)[k].reqID
    ensures multiset(Flat<nat>(acks))[Flat(reqs)[i].reqID] == 1
  {
    var a, all := Flat(acks), Flat(reqs);
    forall j | 0 <= j < |a| && j != i ensures a[j] != a[i] {
      assert a[j] == all[j].reqID && a[i] == all[i].reqID;
    }
    OccursOnce(a, i);
  }

  lemma OccursOnce(a: seq<nat>, i: nat)
    requires i < |a| && forall j :: 0 <= j < |a| && j != i ==> a[j] != a[i]
    ensures multiset(a)[a[i]] == 1
  {
    assert a == a[..i] + [a[i]] + a[i + 1..];
    assert a[i] !in a[..i] && a[i] !in a[i + 1..];
  }

  /** A write stream: an answer goes out only when all the blocks of its request, and of
      those before it, are in the device. The device is opened with the first request, and
      synced and closed at the end; any of that may fail. A stream that ends without an
      error has answered all its requests and synced what it wrote. */
  method WriteDevice(dev: array<Byte>, reqs: seq<Request>)
    returns (acks: seq<seq<nat>>, ghost done: nat, ghost synced: bool, ok: bool)
    modifies dev
    ensures done <= |reqs| && (ok ==> done == |reqs| && (reqs != [] ==> synced))
    ensures |acks| == NonEmpty(reqs[..done]) && forall i :: 0 <= i < |acks| ==> |acks[i]| > 0
    ensures |Flat(acks)| == |Flat(reqs[..done])|
    ensures forall i :: 0 <= i < |Flat(acks)| ==> Flat(acks)[i] == Flat(reqs[..done])[i].reqID
    ensures done == |reqs| ==> dev[..] == Device(old(dev[..]), Flat(reqs))
    ensures forall x :: 0 <= x < dev.Length && !TouchesFrom(reqs, done, x) ==>
              dev[x] == ByteAt(Device(old(dev[..]), Flat(reqs[..done])), x)
  {
    var isOpen;
    acks, done, isOpen, ok := WriteDeviceRequests(dev, reqs);
    AnswersAreIds(reqs[..done]);
    synced := false;
    if isOpen {
      if * {
        ok := false;
      } else {
        synced := true;
      }
      if * {
        ok := false;
      }
    }
  }

  method WriteDeviceRequests(dev: array<Byte>, reqs: seq<Request>)
    returns (acks: seq<seq<nat>>, ghost done: nat, isOpen: bool, ok: bool)
    modifies dev
    ensures done <= |reqs| && acks == Answers(reqs[..done]) && (ok <==> done == |reqs|)
    ensures ok && reqs != [] ==> isOpen
    ensures ok ==> dev[..] == Device(old(dev[..]), Flat(reqs))
    ensures forall x :: 0 <= x < dev.Length && !TouchesFrom(reqs, done, x) ==>
              dev[x] == ByteAt(Device(old(dev[..]), Flat(reqs[..done])), x)
  {
    acks, done, isOpen := [], 0, false;
    ghost var was := dev[..];
    for i := 0 to |reqs|
      invariant done == i && acks == Answers(reqs[..i]) && dev[..] == Device(was, Flat(reqs[..i]))
      invariant i > 0 ==> isOpen
    {
      assert reqs[..i + 1][..i] == reqs[..i];
      ghost var before := dev[..];
      assert forall x :: 0 <= x < dev.Length ==> before[x] == ByteAt(before, x);
      if !isOpen {
        if * {
          ok := false;
          return;
        }
        isOpen := true;
      }
      ok := WriteDeviceBlocks(dev, reqs[i]);
      if !ok {
        return;
      }
      DeviceConcat(was, Flat(reqs[..i]), reqs[i]);
      var ids := CollectRequestIDs(reqs[i]);
      if |ids| > 0 {
        if * {
          ok := false;
          return;
        }
        acks := acks + [ids];
      }
      done := i + 1;
    }
    assert reqs[..|reqs|] == reqs;
    ok := true;
  }

  ghost predicate TouchesFrom(reqs: seq<Request>, done: nat, x: nat) {
    done < |reqs| && Touches(reqs[done], x)
  }

  // ---- files

  /** A file is extended to its size before its first block is written. */
  ghost function Put(disk: Files, b: ChangedBlock): (d: Files) {
    disk[b.path := Patch(Grow(File(disk, b.path), b.total), b.off, Bytes(b))]
  }

  ghost function PutAll(disk: Files, req: Request): (d: Files) {
    if req == [] then disk else Put(PutAll(disk, req[..|req| - 1]), req[|req| - 1])
  }

  ghost function PathsOf(req: Request): (s: set<Path>) {
    if req == [] then {} else PathsOf(req[..|req| - 1]) + {req[|req| - 1].path}
  }

  lemma {:induction false} PathsOfPrefix(req: Request, i: nat)
    requires i <= |req|
    ensures PathsOf(req[..i]) <= PathsOf(req)
    ensures i < |req| ==> PathsOf(req[..i + 1]) == PathsOf(req[..i]) + {req[i].path} <= PathsOf(req)
    decreases |req| - i
  {
    if i == |req| {
      assert req[..i] == req;
    } else {
      assert req[..i + 1][..i] == req[..i];
      PathsOfPrefix(req, i + 1);
    }
  }

  /** Every open file has its size already. `sizes` is the size all the blocks of a path
      carry. */
  ghost predicate Ready(cache: FileCache, sizes: Path -> nat)
    reads cache
  {
    forall p :: cache.SlotOf(p).entry.Some? ==> p in cache.disk && |cache.disk[p]| >= sizes(p)
  }

  ghost predicate Held(cache: FileCache, files: set<Path>)
    reads cache
  {
    cache.Valid() && cache.create && forall p :: p in files ==> cache.SlotOf(p).entry.Some?
  }

  ghost predicate Agree(req: Request, sizes: Path -> nat) {
    forall i :: 0 <= i < |req| ==> req[i].total == sizes(req[i].path)
  }

  /** Which references a stream has taken: one for each of its files. */
  ghost function Taken(s: Slot, mine: bool): Slot {
    if mine then Acquired(s) else s
  }

  /** Finds or acquires the file of a block; then the file has its size. */
  method Open(cache: FileCache, files: set<Path>, b: ChangedBlock, ghost sizes: Path -> nat)
    returns (files': set<Path>, ok: bool)
    requires Held(cache, files) && Ready(cache, sizes) && b.total == sizes(b.path)
    modifies cache
    ensures Held(cache, files') && Ready(cache, sizes)
    ensures files' == if ok then files + {b.path} else files
    ensures Took(old(cache.slots), cache.slots, files' - files)
    ensures ok ==> cache.disk == old(cache.disk)[b.path := Grow(File(old(cache.disk), b.path), b.total)]
    ensures !ok ==> Elsewhere(old(cache.disk), cache.disk, {})
  {
    files', ok := files, true;
    assert forall p :: SlotIn(cache.slots, p) == cache.SlotOf(p);
    if b.path !in files {
      var h := cache.Acquire(b.path, b.total);
      if h.None? {
        assert forall p :: SlotIn(cache.slots, p) == cache.SlotOf(p);
        return files, false;
      }
      files' := files + {b.path};
      assert forall p :: SlotIn(cache.slots, p) == cache.SlotOf(p);
    }
  }

  /** Writes a block to its open file; a write that fails may have written anything within
      the file. */
  method WriteFile(cache: FileCache, b: ChangedBlock, ghost sizes: Path -> nat) returns (ok: bool)
    requires cache.Valid() && Ready(cache, sizes) && b.path in cache.disk && |cache.disk[b.path]| >= b.total
    modifies cache`disk
    ensures Ready(cache, sizes) && b.path in cache.disk
    ensures ok ==> cache.disk == Put(old(cache.disk), b)
    ensures forall p :: p != b.path ==> File(cache.disk, p) == File(old(cache.disk), p)
  {
    var c := cache.disk[b.path];
    var d := if b.isZero then Zeros(b.len) else b.data;
    if * {
      var n: nat :| n <= |d|;
      cache.disk := cache.disk[b.path := if n == 0 then c else Overlay(c, b.off, d[..n])];
      return false;
    }
    cache.disk := cache.disk[b.path := if d == [] then c else Overlay(c, b.off, d)];
    ok := true;
  }

  /** The references taken in between: one for each path of `mine`. */
  ghost predicate Took(before: map<Path, Slot>, after: map<Path, Slot>, mine: set<Path>) {
    forall p :: SlotIn(after, p) == Taken(SlotIn(before, p), p in mine)
  }

  lemma TookMore(a: map<Path, Slot>, b: map<Path, Slot>, c: map<Path, Slot>, m: set<Path>, n: set<Path>)
    requires Took(a, b, m) && Took(b, c, n) && m !! n
    ensures Took(a, c, m + n)
  {
  }

  ghost predicate Elsewhere(a: Files, b: Files, paths: set<Path>) {
    forall p :: p !in paths ==> File(a, p) == File(b, p)
  }

  method WriteFileBlock(cache: FileCache, files: set<Path>, b: ChangedBlock, ghost sizes: Path -> nat)
    returns (files': set<Path>, ok: bool)
    requires Held(cache, files) && Ready(cache, sizes) && b.total == sizes(b.path)
    modifies cache
    ensures Held(cache, files') && Ready(cache, sizes) && files <= files' <= files + {b.path}
    ensures Took(old(cache.slots), cache.slots, files' - files)
    ensures ok ==> cache.disk == Put(old(cache.disk), b) && files' == files + {b.path}
    ensures Elsewhere(old(cache.disk), cache.disk, {b.path})
  {
    ghost var disk := cache.disk;
    files', ok := Open(cache, files, b, sizes);
    if !ok {
      return;
    }
    assert Put(cache.disk, b) == Put(disk, b);
    ok := WriteFile(cache, b, sizes);
  }

  /** The blocks of a request, file by file as they come. */
  method WriteFileBlocks(cache: FileCache, files: set<Path>, req: Request, ghost sizes: Path -> nat)
    returns (files': set<Path>, ok: bool)
    requires Held(cache, files) && Ready(cache, sizes) && Agree(req, sizes)
    modifies cache
    ensures Held(cache, files') && Ready(cache, sizes) && files <= files'
    ensures Took(old(cache.slots), cache.slots, files' - files)
    ensures ok ==> cache.disk == PutAll(old(cache.disk), req) && files' == files + PathsOf(req)
    ensures Elsewhere(old(cache.disk), cache.disk, PathsOf(req))
  {
    files', ok := files, true;
    ghost var disk, slots := cache.disk, cache.slots;
    for i := 0 to |req|
      invariant Held(cache, files') && Ready(cache, sizes) && files' == files + PathsOf(req[..i])
      invariant Took(slots, cache.slots, files' - files)
      invariant cache.disk == PutAll(disk, req[..i]) && Elsewhere(disk, cache.disk, PathsOf(req))
    {
      PathsOfPrefix(req, i);
      assert req[..i + 1][..i] == req[..i];
      ghost var was, slots' := files', cache.slots;
      files', ok := WriteFileBlock(cache, files', req[i], sizes);
      TookMore(slots, slots', cache.slots, was - files, files' - was);
      assert was - files + (files' - was) == files' - files;
      if !ok {
        return;
      }
    }
    assert req[..|req|] == req;
  }

  lemma {:induction false} PutAllConcat(disk: Files, a: Request, b: Request)
    ensures PutAll(disk, a + b) == PutAll(PutAll(disk, a), b)
    decreases |b|
  {
    if b == [] {
      assert a + b == a;
    } else {
      assert (a + b)[..|a + b| - 1] == a + b[..|b| - 1];
      PutAllConcat(disk, a, b[..|b| - 1]);
    }
  }

  ghost predicate Gave(before: map<Path, Slot>, after: map<Path, Slot>, mine: set<Path>) {
    forall p :: SlotIn(after, p) == if p in mine then Released(SlotIn(before, p)) else SlotIn(before, p)
  }

  /** The end of a stream: every file it holds is synced and released, also those behind
      one whose sync fails. */
  method Cleanup(cache: FileCache, files: set<Path>) returns (ok: bool)
    requires cache.Valid()
    modifies cache`slots
    ensures cache.Valid() && Gave(old(cache.slots), cache.slots, files)
  {
    var todo := files;
    ok := true;
    while todo != {}
      invariant todo <= files && cache.Valid() && Gave(old(cache.slots), cache.slots, files - todo)
      decreases |todo|
    {
      var p :| p in todo;
      ghost var slots := cache.slots;
      var synced := cache.SyncAndRelease(p);
      ok := ok && synced;
      assert Gave(slots, cache.slots, {p}) by {
        assert forall q :: cache.SlotOf(q) == SlotIn(cache.slots, q);
      }
      todo := todo - {p};
    }
  }

  /** The state of a path after a stream has taken it and given it back. */
  ghost predicate Balanced(before: map<Path, Slot>, after: map<Path, Slot>) {
    forall p :: SlotIn(after, p).entry == SlotIn(before, p).entry
  }

  lemma TakeAndGive(a: map<Path, Slot>, b: map<Path, Slot>, c: map<Path, Slot>, mine: set<Path>)
    requires forall p :: SlotIn(a, p).entry.Some? ==> SlotIn(a, p).entry.value.refCount >= 1
    requires Took(a, b, mine) && Gave(b, c, mine)
    ensures Balanced(a, c)
  {
  }

  /** The requests of a file stream, in order, until one of them fails. */
  method WriteRequests(cache: FileCache, reqs: seq<Request>, ghost sizes: Path -> nat)
    returns (files: set<Path>, acks: seq<seq<nat>>, ghost done: nat, ok: bool)
    requires cache.Valid() && cache.create && Ready(cache, sizes)
    requires forall i :: 0 <= i < |reqs| ==> Agree(reqs[i], sizes)
    modifies cache
    ensures Held(cache, files) && Ready(cache, sizes) && Took(old(cache.slots), cache.slots, files)
    ensures done <= |reqs| && acks == Answers(reqs[..done]) && (ok <==> done == |reqs|)
    ensures ok ==> cache.disk == PutAll(old(cache.disk), Flat(reqs))
    ensures Elsewhere(PutAll(old(cache.disk), Flat(reqs[..done])), cache.disk, if ok then {} else PathsOf(reqs[done]))
  {
    files, acks, done := {}, [], 0;
    ghost var disk, slots := cache.disk, cache.slots;
    for i := 0 to |reqs|
      invariant Held(cache, files) && Ready(cache, sizes) && Took(slots, cache.slots, files)
      invariant done == i && acks == Answers(reqs[..i]) && cache.disk == PutAll(disk, Flat(reqs[..i]))
    {
      assert reqs[..i + 1][..i] == reqs[..i];
      ghost var was, slots' := files, cache.slots;
      files, ok := WriteFileBlocks(cache, files, reqs[i], sizes);
      TookMore(slots, slots', cache.slots, was, files - was);
      assert was + (files - was) == files;
      if !ok {
        return;
      }
      PutAllConcat(disk, Flat(reqs[..i]), reqs[i]);
      var ids := CollectRequestIDs(reqs[i]);
      if |ids| > 0 {
        if * {
          ok := false;
          return;
        }
        acks := acks + [ids];
      }
      done := i + 1;
    }
    assert reqs[..|reqs|] == reqs;
    ok := true;
  }

  /** A write stream of the file server. As for the device, an answer goes out only after
      the blocks, and a failed sync at the end makes the stream fail; however it ends, it
      gives back the references it took. */
  method WriteFiles(cache: FileCache, reqs: seq<Request>, ghost sizes: Path -> nat)
    returns (acks: seq<seq<nat>>, ghost done: nat, ok: bool)
    requires cache.Valid() && cache.create && Ready(cache, sizes)
    requires forall i :: 0 <= i < |reqs| ==> Agree(reqs[i], sizes)
    modifies cache
    ensures cache.Valid() && Balanced(old(cache.slots), cache.slots)
    ensures done <= |reqs| && (ok ==> done == |reqs|)
    ensures |acks| == NonEmpty(reqs[..done]) && forall i :: 0 <= i < |acks| ==> |acks[i]| > 0
    ensures |Flat(acks)| == |Flat(reqs[..done])|
    ensures forall i :: 0 <= i < |Flat(acks)| ==> Flat(acks)[i] == Flat(reqs[..done])[i].reqID
    ensures done == |reqs| ==> cache.disk == PutAll(old(cache.disk), Flat(reqs))
    ensures done < |reqs| ==>
              Elsewhere(PutAll(old(cache.disk), Flat(reqs[..done])), cache.disk, PathsOf(reqs[done]))
  {
    ghost var slots := cache.slots;
    assert forall p :: cache.SlotOf(p) == SlotIn(slots, p);
    var files;
    files, acks, done, ok := WriteRequests(cache, reqs, sizes);
    AnswersAreIds(reqs[..done]);
    ghost var slots' := cache.slots;
    var synced := Cleanup(cache, files);
    ok := ok && synced;
    TakeAndGive(slots, slots', cache.slots, files);
  }

  ghost function ReleasedTimes(s: Slot, k: nat): Slot {
    if k == 0 then s else Released(ReleasedTimes(s, k - 1))
  }

  ghost predicate ReleasedFor(before: map<Path, Slot>, after: map<Path, Slot>, paths: seq<Path>) {
    forall p :: SlotIn(after, p) == ReleasedTimes(SlotIn(before, p), multiset(paths)[p])
  }

  lemma ReleasedForNext(a: map<Path, Slot>, b: map<Path, Slot>, c: map<Path, Slot>, paths: seq<Path>, q: Path)
    requires ReleasedFor(a, b, paths) && Gave(b, c, {q})
    ensures ReleasedFor(a, c, paths + [q])
  {
  }

  /** A commit request: every entry gives back one reference to its path. A sync that fails
      ends the stream without an answer, and the entries behind it keep their references. */
  method CommitFiles(cache: FileCache, paths: seq<Path>) returns (answer: Option<seq<Path>>, ghost k: nat)
    requires cache.Valid()
    modifies cache`slots
    ensures cache.Valid() && k <= |paths| && ReleasedFor(old(cache.slots), cache.slots, paths[..k])
    ensures answer.Some? ==> k == |paths| && answer.value == paths
  {
    var done: seq<Path> := [];
    k := 0;
    for i := 0 to |paths|
      invariant k == i && cache.Valid() && done == paths[..i]
      invariant ReleasedFor(old(cache.slots), cache.slots, paths[..i])
    {
      assert paths[..i + 1] == paths[..i] + [paths[i]];
      ghost var slots := cache.slots;
      var ok := cache.SyncAndRelease(paths[i]);
      assert forall q :: cache.SlotOf(q) == SlotIn(cache.slots, q);
      ReleasedForNext(old(cache.slots), slots, cache.slots, paths[..i], paths[i]);
      k := i + 1;
      if !ok {
        return None, k;
      }
      done := done + [paths[i]];
    }
    assert paths[..|paths|] == paths;
    if * {
      return None, k;
    }
    answer := Some(done);
  }

  // ---- the wire

  /** The block of the wire for a chunk of the pipeline. */
  ghost function WireBlock(job: P.Job, id: nat): (b: ChangedBlock)
    requires Usable(job.cfg) && id < |job.blocks|
  {
    var b := job.blocks[id];
    match P.WireOf(job, id)
    case ZeroRun(n) => ChangedBlock(id, b.path, b.total, b.off, n, true, [])
    case Data(d) => ChangedBlock(id, b.path, b.total, b.off, |d|, false, d)
  }

  lemma EmptyPatch(g: seq<Byte>, off: nat)
    requires off <= |g|
    ensures Overlay(g, off, []) == g
  {
    var r := Overlay(g, off, []);
    assert forall x :: 0 <= x < |g| ==> r[x] == ByteAt(r, x) == ByteAt(g, x) == g[x];
  }

  lemma WireBytes(job: P.Job, id: nat)
    requires Usable(job.cfg) && id < |job.blocks|
    ensures Bytes(WireBlock(job, id)) == P.Payload(P.WireOf(job, id))
  {
  }

  lemma PatchIsOverlay(g: seq<Byte>, off: nat, d: seq<Byte>)
    requires off <= |g|
    ensures Patch(g, off, d) == Overlay(g, off, d)
  {
    if d == [] {
      EmptyPatch(g, off);
    }
  }

  /** One block of the file server is one write step of the pipeline. */
  lemma FileServerStores(job: P.Job, disk: Files, id: nat)
    requires Usable(job.cfg) && id < |job.blocks| && job.blocks[id].off <= job.blocks[id].total
    ensures Put(disk, WireBlock(job, id)) == P.Store(job, disk, id)
  {
    var b := job.blocks[id];
    WireBytes(job, id);
    PatchIsOverlay(Grow(File(disk, b.path), b.total), b.off, P.Payload(P.WireOf(job, id)));
  }

  /** And so is one block of the device server, on a device that has the source's size. */
  lemma DeviceServerStores(job: P.Job, disk: Files, id: nat)
    requires Usable(job.cfg) && id < |job.blocks| && job.blocks[id].off <= job.blocks[id].total
    requires |File(disk, job.blocks[id].path)| >= job.blocks[id].total
    ensures Device(File(disk, job.blocks[id].path), [WireBlock(job, id)]) ==
            File(P.Store(job, disk, id), job.blocks[id].path)
  {
    var b := job.blocks[id];
    WireBytes(job, id);
    PatchIsOverlay(File(disk, b.path), b.off, P.Payload(P.WireOf(job, id)));
    assert [WireBlock(job, id)][..0] == [];
  }
}
