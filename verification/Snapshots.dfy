/** The life of the snapshots: a new one is created as current, a completed sync makes it
    previous, and older previous ones are marked and deleted. Snapshots are named by their
    creation times, which are distinct. */
module Snapshots {
  import opened Wrappers

  datatype Label = Unlabelled | Current | Previous

  datatype Snap = Snap(status: Label, marked: bool)

  type Time = int

  type Snaps = map<Time, Snap>

  ghost predicate Has(s: Snaps, t: Time, l: Label) {
    t in s && s[t].status == l
  }

  ghost predicate Labelled(s: Snaps, t: Time) {
    t in s && s[t].status != Unlabelled
  }

  /** At most one snapshot is current; it is not marked, and newer than every previous one.
      A previous one that is marked is older than another which is not. */
  ghost predicate Ok(s: Snaps) {
    && (forall a, b :: Has(s, a, Current) && Has(s, b, Current) ==> a == b)
    && (forall a, b :: Has(s, a, Current) && Has(s, b, Previous) ==> b < a)
    && (forall a :: Has(s, a, Current) ==> !s[a].marked)
    && (forall a :: Has(s, a, Previous) && s[a].marked ==> Covered(s, a))
  }

  ghost predicate Covered(s: Snaps, a: Time) {
    exists b :: b > a && Has(s, b, Previous) && !s[b].marked
  }

  /** The newest labelled snapshot is never marked for deletion. */
  lemma NewestIsKept(s: Snaps, t: Time)
    requires Ok(s) && Labelled(s, t) && forall u :: Labelled(s, u) ==> u <= t
    ensures !s[t].marked
  {
    if s[t].status == Previous && s[t].marked {
      var b :| b > t && Has(s, b, Previous) && !s[b].marked;
      assert Labelled(s, b);
    }
  }

  /** The snapshot that was synced last is there, previous, unmarked and the newest of the
      previous ones. */
  ghost predicate Synced(s: Snaps, last: Option<Time>) {
    match last
    case None => forall t :: !Has(s, t, Previous)
    case Some(l) => Has(s, l, Previous) && !s[l].marked && forall t :: Has(s, t, Previous) ==> t <= l
  }

  // ---- marking

  /** What marking does to a previous snapshot: the label is removed only when the mark was
      there already. */
  function Sweep(x: Snap): Snap {
    if !x.marked then x.(marked := true) else x.(status := Unlabelled)
  }

  /** Some of the previous snapshots other than `latest` have been swept. */
  ghost predicate Swept(s: Snaps, t: Snaps, latest: Time) {
    && t.Keys == s.Keys
    && forall a :: a in s ==>
         || t[a] == s[a]
         || (a != latest && s[a].status == Previous && t[a] == Snap(if s[a].marked then Unlabelled else Previous, true))
  }

  ghost predicate IsLatest(s: Snaps, l: Time) {
    Has(s, l, Previous) && forall a :: Has(s, a, Previous) ==> a <= l
  }

  lemma LatestIsUnmarked(s: Snaps, l: Time)
    requires Ok(s) && IsLatest(s, l)
    ensures !s[l].marked
  {
  }

  lemma SweepKeepsOk(s: Snaps, t: Snaps, latest: Time, last: Option<Time>)
    requires Ok(s) && Synced(s, last) && IsLatest(s, latest) && Swept(s, t, latest)
    ensures Ok(t) && Synced(t, last) && IsLatest(t, latest)
  {
    LatestIsUnmarked(s, latest);
    forall a | Has(t, a, Previous) && t[a].marked ensures Covered(t, a) {
      assert Has(s, a, Previous) && latest > a && Has(t, latest, Previous) && !t[latest].marked;
    }
    assert forall a, l :: l != Previous && Has(t, a, l) && l != Unlabelled ==> Has(s, a, l);
    assert forall a :: Has(t, a, Previous) ==> Has(s, a, Previous);
  }

  method Pick<T>(s: set<T>) returns (t: T)
    requires s != {}
    ensures t in s
  {
    t :| t in s;
  }

  // ---- the mover

  class Mover {
    var snaps: Snaps
    ghost var last: Option<Time>              // the snapshot that was synced last
    var luck: seq<bool>                       // which of the next calls of the server go through; then all do

    ghost predicate Valid()
      reads this
    {
      Ok(snaps) && Synced(snaps, last)
    }

    constructor (luck: seq<bool>)
      ensures Valid() && snaps == map[] && last == None && this.luck == luck
    {
      snaps, last, this.luck := map[], None, luck;
    }

    method Call() returns (ok: bool)
      modifies this`luck
      ensures old(luck) == [] ==> ok && luck == []
      ensures old(luck) != [] ==> ok == old(luck)[0] && luck == old(luck)[1..]
    {
      if luck == [] {
        return true;
      }
      ok, luck := luck[0], luck[1..];
    }

    /** The order in which the server happens to list the snapshots. */
    method ServerOrder() returns (order: seq<Time>)
      ensures Lists(snaps, order)
    {
      order := [];
      var todo: set<Time> := snaps.Keys;
      while todo != {}
        invariant todo <= snaps.Keys && NoneTwice(order)
        invariant forall t :: t in order <==> t in snaps && t !in todo
        decreases |todo|
      {
        var t := Pick(todo);
        todo := todo - {t};
        order := order + [t];
      }
    }

    /** The snapshots with a label, in the order of the server's list. */
    method ListWithStatus(l: Label, order: seq<Time>) returns (ts: seq<Time>)
      requires Lists(snaps, order)
      ensures NoneTwice(ts) && forall t :: t in ts <==> Has(snaps, t, l)
      ensures ts != [] ==> IsFirst(snaps, order, l, ts[0])
    {
      ts := [];
      for i := 0 to |order|
        invariant NoneTwice(ts) && forall t :: t in ts <==> t in order[..i] && Has(snaps, t, l)
        invariant ts != [] ==> IsFirst(snaps, order, l, ts[0])
      {
        Listed(snaps, order, i);
        assert order[..i + 1] == order[..i] + [order[i]];
        if snaps[order[i]].status == l {
          if ts == [] {
            FirstHere(snaps, order, l, i);
          }
          ts := ts + [order[i]];
        }
      }
      assert order[..|order|] == order;
    }

    method FindCurrent() returns (c: Option<Time>)
      ensures c.Some? ==> Has(snaps, c.value, Current)
      ensures c.None? ==> forall t :: !Has(snaps, t, Current)
    {
      var order := ServerOrder();
      var ts := ListWithStatus(Current, order);
      c := if ts == [] then None else Some(ts[0]);
    }

    /** Before a sync: the current snapshot is used again, and only when there is none a
        new one is created, later than all the others. */
    method EnsureCurrent(now: Time) returns (c: Option<Time>)
      requires Valid() && forall t :: t in snaps ==> t < now
      modifies this`snaps, this`luck
      ensures Valid() && (old(luck) == [] ==> luck == [] && c.Some?)
      ensures || snaps == old(snaps)
              || ((forall t :: !Has(old(snaps), t, Current)) && snaps == old(snaps)[now := Snap(Current, false)])
      ensures c.Some? ==> Has(snaps, c.value, Current) && forall t :: Labelled(snaps, t) ==> t <= c.value
    {
      c := FindCurrent();
      assert forall t :: Labelled(snaps, t) ==> Has(snaps, t, Current) || Has(snaps, t, Previous);
      if c.Some? {
        return;
      }
      var ok := Call();
      if !ok {
        return None;
      }
      ghost var was := snaps;
      snaps := snaps[now := Snap(Current, false)];
      assert forall t, l :: t != now ==> (Has(snaps, t, l) <==> Has(was, t, l));
      forall a | Has(snaps, a, Previous) && snaps[a].marked ensures Covered(snaps, a) {
        assert Covered(was, a);
      }
      c := Some(now);
    }

    /** The index of the newest. */
    method Latest(ts: seq<Time>) returns (k: nat)
      requires ts != []
      ensures k < |ts| && forall i :: 0 <= i < |ts| ==> ts[i] <= ts[k]
    {
      k := 0;
      for i := 1 to |ts|
        invariant k < |ts| && forall j :: 0 <= j < i ==> ts[j] <= ts[k]
      {
        if ts[i] > ts[k] {
          k := i;
        }
      }
    }

    method UpdateSnap(t: Time, x: Snap) returns (ok: bool)
      requires t in snaps
      modifies this`snaps, this`luck
      ensures snaps == (if ok then old(snaps)[t := x] else old(snaps)) && (old(luck) == [] ==> luck == [] && ok)
    {
      ok := Call();
      if ok {
        snaps := snaps[t := x];
      }
    }

    /** Sweeps the previous snapshots but the newest; it may stop halfway. */
    method MarkOthers(ts: seq<Time>, k: nat) returns (ok: bool)
      requires k < |ts| && NoneTwice(ts)
      requires forall i :: 0 <= i < |ts| ==> Has(snaps, ts[i], Previous)
      modifies this`snaps, this`luck
      ensures Swept(old(snaps), snaps, ts[k]) && (old(luck) == [] ==> luck == [] && ok)
      ensures ok ==> forall i :: 0 <= i < |ts| && i != k ==>
                       && ts[i] in snaps && ts[i] in old(snaps)
                       && snaps[ts[i]] == Snap(if old(snaps)[ts[i]].marked then Unlabelled else Previous, true)
    {
      ok := true;
      ghost var was := snaps;
      for i := 0 to |ts|
        invariant Swept(was, snaps, ts[k]) && (old(luck) == [] ==> luck == [])
        invariant forall j :: 0 <= j < i && j != k ==>
                    && ts[j] in snaps && ts[j] in was
                    && snaps[ts[j]] == Snap(if was[ts[j]].marked then Unlabelled else Previous, true)
        invariant forall j :: i <= j < |ts| ==> ts[j] in snaps && ts[j] in was && snaps[ts[j]] == was[ts[j]]
      {
        if i != k {
          assert Has(was, ts[i], Previous);
          ok := UpdateSnap(ts[i], Sweep(snaps[ts[i]]));
          if !ok {
            return;
          }
        }
      }
      ok := true;
    }

    /** After a sync: the older previous snapshots are marked, then the current one becomes
        previous. However far it comes, nothing is lost that must be kept. */
    method TransitionStatuses() returns (ok: bool)
      requires Valid()
      modifies this
      ensures Valid() && (old(luck) == [] ==> luck == [] && ok)
      ensures ok ==> forall t :: !Has(snaps, t, Current)
      ensures ok ==> Rotated(old(snaps), old(last), last)
      ensures ok ==> Kept(snaps, old(last)) && UnmarkedAre(snaps, last, old(last))
      ensures ok ==> forall t :: Has(old(snaps), t, Previous) && Some(t) != old(last) ==>
                       t in snaps && snaps[t] == Snap(if old(snaps)[t].marked then Unlabelled else Previous, true)
      ensures snaps.Keys == old(snaps).Keys
    {
      var order := ServerOrder();
      var previous := ListWithStatus(Previous, order);
      if |previous| > 1 {
        ok := SweepOlder(previous);
        if !ok {
          return;
        }
      } else {
        OnlyPrevious(snaps, last, previous);
      }
      ok := Promote();
    }

    /** The first half: on success every previous snapshot but the newest is marked. */
    method SweepOlder(previous: seq<Time>) returns (ok: bool)
      requires Valid() && previous != [] && forall t :: t in previous <==> Has(snaps, t, Previous)
      requires NoneTwice(previous)
      modifies this`snaps, this`luck
      ensures Valid() && forall t :: Has(snaps, t, Current) <==> Has(old(snaps), t, Current)
      ensures old(luck) == [] ==> luck == [] && ok
      ensures snaps.Keys == old(snaps).Keys && (ok ==> UnmarkedAre(snaps, last, last))
      ensures ok ==> OlderSwept(old(snaps), snaps, last)
    {
      var k := Latest(previous);
      assert previous[k] in previous && forall i :: 0 <= i < |previous| ==> previous[i] in previous;
      assert forall t :: Has(snaps, t, Previous) ==> t in previous && t <= previous[k];
      assert last == Some(previous[k]);
      ghost var was := snaps;
      ok := MarkOthers(previous, k);
      SweepKeepsOk(was, snaps, previous[k], last);
      SweepKeepsCurrent(was, snaps, previous[k]);
      if ok {
        forall t | Has(snaps, t, Previous) && !snaps[t].marked ensures Some(t) == last {
          assert Has(was, t, Previous) && t in previous;
        }
        assert forall t :: Has(was, t, Previous) ==> t in previous;
      }
    }

    /** The second half: the current snapshot becomes previous. */
    method Promote() returns (ok: bool)
      requires Valid() && UnmarkedAre(snaps, last, last)
      modifies this
      ensures forall t :: Has(old(snaps), t, Previous) || Has(old(snaps), t, Unlabelled) ==>
                t in snaps && snaps[t] == old(snaps)[t]
      ensures Valid() && (old(luck) == [] ==> luck == [] && ok)
      ensures ok ==> forall t :: !Has(snaps, t, Current)
      ensures ok ==> Rotated(old(snaps), old(last), last)
      ensures ok ==> Kept(snaps, old(last)) && UnmarkedAre(snaps, last, old(last))
      ensures snaps.Keys == old(snaps).Keys
    {
      var c := FindCurrent();
      ok := true;
      if c.Some? {
        ghost var was := snaps;
        ok := UpdateSnap(c.value, snaps[c.value].(status := Previous));
        if !ok {
          return;
        }
        last := c;
        PromoteKeepsOk(was, snaps, c.value);
      }
    }

    /** Deletes what is marked; it may stop halfway. */
    method DeleteMarked() returns (ok: bool)
      requires Valid()
      modifies this`snaps, this`luck
      ensures Valid() && Pruned(old(snaps), snaps) && (old(luck) == [] ==> luck == [] && ok)
      ensures forall t, l :: Has(snaps, t, l) ==> Has(old(snaps), t, l)
      ensures ok ==> forall t :: t in snaps ==> !snaps[t].marked
    {
      ghost var was := snaps;
      var todo: set<Time> := snaps.Keys;
      while todo != {}
        invariant todo <= was.Keys && Pruned(was, snaps) && (old(luck) == [] ==> luck == [])
        invariant forall t :: t in snaps && t !in todo ==> !snaps[t].marked
        decreases |todo|
      {
        var t := Pick(todo);
        todo := todo - {t};
        if t in snaps && snaps[t].marked {
          ok := Call();
          if !ok {
            PruneKeepsOk(was, snaps, last);
            return;
          }
          snaps := snaps - {t};
        }
      }
      PruneKeepsOk(was, snaps, last);
      ok := true;
    }

    /** A cleanup, which may fail at any update and be tried again. When it completes, no
        snapshot is current, none is marked, and at most two are previous: the one that has
        just been synced and the one synced before it. */
    method Cleanup() returns (ok: bool)
      requires Valid()
      modifies this
      ensures Valid() && (old(luck) == [] ==> luck == [] && ok)
      ensures ok ==> Rotated(old(snaps), old(last), last)
      ensures ok ==> forall t :: t in snaps ==> !snaps[t].marked
      ensures ok ==> forall t :: !Has(snaps, t, Current)
      ensures ok ==> Kept(snaps, old(last)) && UnmarkedAre(snaps, last, old(last))
      ensures forall t :: t in snaps ==> t in old(snaps)
    {
      ok := TransitionStatuses();
      if ok {
        ok := DeleteMarked();
      }
    }

    /** The base of an incremental sync is the first of the previous snapshots in the
        server's list: the one synced last if and only if no other previous one is listed
        before it. */
    method ChooseBase(order: seq<Time>) returns (b: Option<Time>)
      requires Valid() && Lists(snaps, order)
      ensures b.None? <==> last.None?
      ensures b.Some? ==> Has(snaps, b.value, Previous) && IsFirst(snaps, order, Previous, b.value)
      ensures last.Some? ==> (b == last <==> IsFirst(snaps, order, Previous, last.value))
    {
      var previous := ListWithStatus(Previous, order);
      if previous == [] {
        b := None;
      } else {
        assert previous[0] in previous;
        b := Some(previous[0]);
        if IsFirst(snaps, order, Previous, last.value) {
          OneIsFirst(snaps, order, Previous, b.value, last.value);
        }
      }
    }
  }

  ghost predicate NoneTwice(ts: seq<Time>) {
    forall i, j :: 0 <= i < j < |ts| ==> ts[i] != ts[j]
  }

  /** A list of all the snapshots, each once. */
  ghost predicate Lists(s: Snaps, order: seq<Time>) {
    NoneTwice(order) && forall t :: t in order <==> t in s
  }

  /** The first snapshot in the list that has the label. */
  ghost predicate IsFirst(s: Snaps, order: seq<Time>, l: Label, t: Time) {
    Has(s, t, l) && exists i :: 0 <= i < |order| && order[i] == t && forall j :: 0 <= j < i ==> !Has(s, order[j], l)
  }

  lemma Listed(s: Snaps, order: seq<Time>, i: nat)
    requires Lists(s, order) && i < |order|
    ensures order[i] in s && order[i] !in order[..i]
  {
    assert order[i] in order;
  }

  lemma FirstHere(s: Snaps, order: seq<Time>, l: Label, i: nat)
    requires i < |order| && Has(s, order[i], l) && forall t :: !(t in order[..i] && Has(s, t, l))
    ensures IsFirst(s, order, l, order[i])
  {
    forall j | 0 <= j < i ensures !Has(s, order[j], l) {
      assert order[j] in order[..i];
    }
  }

  lemma OneIsFirst(s: Snaps, order: seq<Time>, l: Label, t: Time, u: Time)
    requires IsFirst(s, order, l, t) && IsFirst(s, order, l, u)
    ensures t == u
  {
    var i :| 0 <= i < |order| && order[i] == t && forall j :: 0 <= j < i ==> !Has(s, order[j], l);
    var k :| 0 <= k < |order| && order[k] == u && forall j :: 0 <= j < k ==> !Has(s, order[j], l);
  }

  /** The snapshot synced last is now the one that was current, if there was one. */
  ghost predicate Rotated(s: Snaps, before: Option<Time>, after: Option<Time>) {
    && (forall c :: Has(s, c, Current) ==> after == Some(c))
    && ((forall c :: !Has(s, c, Current)) ==> after == before)
  }

  /** A snapshot that was synced is still there, as a previous one. */
  ghost predicate Kept(s: Snaps, l: Option<Time>) {
    l.Some? ==> Has(s, l.value, Previous) && !s[l.value].marked
  }

  /** No other previous snapshot than these is unmarked. */
  ghost predicate UnmarkedAre(s: Snaps, a: Option<Time>, b: Option<Time>) {
    forall t :: Has(s, t, Previous) && !s[t].marked ==> Some(t) == a || Some(t) == b
  }

  /** Every previous snapshot but `last` has been marked, and has lost its label if it was
      marked before. */
  ghost predicate OlderSwept(s: Snaps, t: Snaps, last: Option<Time>) {
    forall a :: Has(s, a, Previous) && Some(a) != last ==>
      a in t && t[a] == Snap(if s[a].marked then Unlabelled else Previous, true)
  }

  lemma OnlyPrevious(s: Snaps, last: Option<Time>, previous: seq<Time>)
    requires Synced(s, last) && |previous| <= 1 && forall t :: t in previous <==> Has(s, t, Previous)
    ensures UnmarkedAre(s, last, last) && OlderSwept(s, s, last)
  {
    forall t | Has(s, t, Previous) ensures Some(t) == last {
      assert t in previous && last.Some? && last.value in previous;
    }
  }

  lemma SweepKeepsCurrent(s: Snaps, t: Snaps, latest: Time)
    requires Swept(s, t, latest)
    ensures forall a :: Has(t, a, Current) <==> Has(s, a, Current)
  {
  }

  lemma PromoteKeepsOk(s: Snaps, t: Snaps, c: Time)
    requires Ok(s) && Has(s, c, Current) && t == s[c := s[c].(status := Previous)]
    ensures Ok(t) && Synced(t, Some(c)) && forall a :: !Has(t, a, Current)
  {
    assert forall a :: Has(t, a, Current) ==> a != c && Has(s, a, Current);
    assert forall a :: Has(t, a, Previous) ==> a == c || Has(s, a, Previous);
    forall a | Has(t, a, Previous) && t[a].marked ensures Covered(t, a) {
      assert a < c && Has(t, c, Previous) && !t[c].marked;
    }
  }

  /** Some of the marked snapshots are gone. */
  ghost predicate Pruned(s: Snaps, t: Snaps) {
    && (forall a :: a in t ==> a in s && t[a] == s[a])
    && (forall a :: a in s && !s[a].marked ==> a in t)
  }

  lemma PruneKeepsOk(s: Snaps, t: Snaps, last: Option<Time>)
    requires Ok(s) && Synced(s, last) && Pruned(s, t)
    ensures Ok(t) && Synced(t, last)
  {
    assert forall a, l :: Has(t, a, l) ==> Has(s, a, l);
    forall a | Has(t, a, Previous) && t[a].marked ensures Covered(t, a) {
      assert Covered(s, a);
      var b :| b > a && Has(s, b, Previous) && !s[b].marked;
      assert Has(t, b, Previous);
    }
  }

  /** Two syncs that go through, as they do when every call does, leave two previous
      snapshots. When the server lists them by age, the next base is not the one that was
      synced last. */
  method TwoSyncs(luck: seq<bool>) returns (m: Mover, ok: bool, base: Option<Time>)
    ensures m.Valid() && (luck == [] ==> ok)
    ensures ok ==> m.last == Some(2) && base == Some(1)
  {
    m := new Mover(luck);
    base := None;
    ok := OneSync(m, 1);
    if !ok {
      return;
    }
    ok := OneSync(m, 2);
    if ok {
      assert Has(m.snaps, 1, Previous) && Has(m.snaps, 2, Previous);
      base := m.ChooseBase([1, 2]);
      assert [1, 2][0] == 1;
    }
  }

  /** A sync with nothing current before it, and the cleanup after it. */
  method OneSync(m: Mover, now: Time) returns (ok: bool)
    requires m.Valid() && (forall t :: t in m.snaps ==> t < now) && forall t :: !Has(m.snaps, t, Current)
    modifies m
    ensures m.Valid() && forall t :: t in m.snaps ==> t in old(m.snaps) || t == now
    ensures old(m.luck) == [] ==> m.luck == [] && ok
    ensures ok ==> m.last == Some(now) && Kept(m.snaps, m.last) && Kept(m.snaps, old(m.last))
    ensures ok ==> forall t :: !Has(m.snaps, t, Current)
  {
    var c := m.EnsureCurrent(now);
    if c.None? {
      return false;
    }
    ok := m.Cleanup();
  }
}
