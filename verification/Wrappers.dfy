/** Small generic types and sequence functions. */
module Wrappers {

  datatype Option<T> = None | Some(value: T)

  function Max(a: int, b: int): int { if a < b then b else a }

  function Min(a: int, b: int): int { if a < b then a else b }

  /** Lists put together. */
  ghost function Flat<T>(xs: seq<seq<T>>): (s: seq<T>) {
    if xs == [] then [] else Flat(xs[..|xs| - 1]) + xs[|xs| - 1]
  }

  lemma FlatNext<T>(xs: seq<seq<T>>, x: seq<T>)
    ensures Flat(xs + [x]) == Flat(xs) + x
  {
    assert (xs + [x])[..|xs|] == xs;
  }

  // ---- the same from the front, with positions

  ghost function Join<T>(xs: seq<seq<T>>): (s: seq<T>) {
    if xs == [] then [] else xs[0] + Join(xs[1..])
  }

  /** Where the k-th list starts. */
  ghost function Start<T>(xs: seq<seq<T>>, k: nat): (n: nat)
    requires k <= |xs|
  {
    if k == 0 then 0 else |xs[0]| + Start(xs[1..], k - 1)
  }

  lemma {:induction false} StartNext<T>(xs: seq<seq<T>>, k: nat)
    requires k < |xs|
    ensures Start(xs, k + 1) == Start(xs, k) + |xs[k]|
  {
    if k > 0 {
      StartNext(xs[1..], k - 1);
    }
  }

  lemma {:induction false} StartGrows<T>(xs: seq<seq<T>>, j: nat, k: nat)
    requires j <= k <= |xs|
    ensures Start(xs, j) <= Start(xs, k)
    decreases k
  {
    if j < k {
      StartGrows(xs, j, k - 1);
      StartNext(xs, k - 1);
    }
  }

  lemma {:induction false} StartEnd<T>(xs: seq<seq<T>>)
    ensures Start(xs, |xs|) == |Join(xs)|
  {
    if xs != [] {
      StartEnd(xs[1..]);
    }
  }

  lemma {:induction false} JoinAt<T>(xs: seq<seq<T>>, k: nat, i: nat)
    requires k < |xs| && i < |xs[k]|
    ensures Start(xs, k) + i < |Join(xs)| && Join(xs)[Start(xs, k) + i] == xs[k][i]
  {
    if k > 0 {
      JoinAt(xs[1..], k - 1, i);
    }
  }

  lemma {:induction false} JoinHas<T>(xs: seq<seq<T>>, i: nat) returns (k: nat, j: nat)
    requires i < |Join(xs)|
    ensures k < |xs| && j < |xs[k]| && i == Start(xs, k) + j && Join(xs)[i] == xs[k][j]
  {
    if i < |xs[0]| {
      k, j := 0, i;
    } else {
      k, j := JoinHas(xs[1..], i - |xs[0]|);
      k := k + 1;
    }
  }

  /** A position lies in the k-th list exactly when it is in its range. */
  lemma JoinRange<T>(xs: seq<seq<T>>, k: nat, i: nat) returns (l: nat, j: nat)
    requires k < |xs| && i < |Join(xs)|
    ensures l < |xs| && j < |xs[l]| && Join(xs)[i] == xs[l][j]
    ensures l == k <==> Start(xs, k) <= i < Start(xs, k + 1)
  {
    l, j := JoinHas(xs, i);
    StartNext(xs, k);
    StartNext(xs, l);
    if l < k {
      StartGrows(xs, l + 1, k);
    } else if k < l {
      StartGrows(xs, k + 1, l);
    }
  }

  lemma JoinSlice<T>(xs: seq<seq<T>>, k: nat)
    requires k < |xs|
    ensures Start(xs, k + 1) == Start(xs, k) + |xs[k]| <= |Join(xs)| == Start(xs, |xs|)
    ensures Join(xs)[Start(xs, k)..Start(xs, k + 1)] == xs[k]
  {
    var a := Start(xs, k);
    StartEnd(xs);
    StartNext(xs, k);
    StartGrows(xs, k + 1, |xs|);
    forall i | 0 <= i < |xs[k]| ensures Join(xs)[a..a + |xs[k]|][i] == xs[k][i] {
      JoinAt(xs, k, i);
    }
  }
}
