/** The exchange sort of apply_propagation_through_different_media: two
    nested loops over the same index range that swap the entries at `k` and
    `l` whenever the one at `l` lies further along the trajectory.  The three
    parallel arrays (distance, scattering and absorption length) are swapped
    together, so here one sequence of `MediumChange` records is sorted. */
module ExchangeSorting {
  import opened Media

  /** The entries in [lo, hi) are in ascending order of distance. */
  predicate SortedBetween(s: seq<MediumChange>, lo: int, hi: int)
    requires 0 <= lo <= hi <= |s|
  {
    forall i, j :: lo <= i < j < hi ==> s[i].distance <= s[j].distance
  }

  predicate Sorted(s: seq<MediumChange>) {
    SortedBetween(s, 0, |s|)
  }

  /** One comparison of the inner loop. */
  function SwapIfFurther(s: seq<MediumChange>, k: int, l: int): (r: seq<MediumChange>)
    requires 0 <= k < |s| && 0 <= l < |s|
    ensures |r| == |s| && multiset(r) == multiset(s)
    ensures forall i :: 0 <= i < |s| && i != k && i != l ==> r[i] == s[i]
  {
    if s[l].distance > s[k].distance then s[k := s[l]][l := s[k]] else s
  }

  /** The inner loop from `l` on, for a fixed `k`. */
  function InnerPass(s: seq<MediumChange>, k: int, l: int): (r: seq<MediumChange>)
    requires 0 <= k < |s| && 0 <= l <= |s|
    ensures |r| == |s| && multiset(r) == multiset(s)
    decreases |s| - l
  {
    if l < |s| then InnerPass(SwapIfFurther(s, k, l), k, l + 1) else s
  }

  /** The outer loop from `k` on. */
  function OuterPass(s: seq<MediumChange>, k: int): (r: seq<MediumChange>)
    requires 0 <= k <= |s|
    ensures |r| == |s| && multiset(r) == multiset(s)
    decreases |s| - k
  {
    if k < |s| then OuterPass(InnerPass(s, k, 0), k + 1) else s
  }

  /** Both loops over all of `s`. */
  function ExchangeSort(s: seq<MediumChange>): (r: seq<MediumChange>)
    ensures |r| == |s| && multiset(r) == multiset(s)
  {
    OuterPass(s, 0)
  }

  /** What holds before outer iteration `k`: the first `k` entries are in
      order and the last of them is the furthest of all. */
  predicate OuterInvariant(s: seq<MediumChange>, k: int)
    requires 0 <= k <= |s|
  {
    SortedBetween(s, 0, k)
    && (k > 0 ==> forall i :: 0 <= i < |s| ==> s[i].distance <= s[k - 1].distance)
  }

  /** What holds before inner iteration `l` of outer iteration `k`.  Up to
      `k` the inner loop inserts the entry at `k` into the sorted prefix,
      carrying the larger entry along in slot `k`; after `k` it only raises
      slot `k` to the maximum, which in later outer iterations is there
      already. */
  predicate InnerInvariant(s: seq<MediumChange>, k: int, l: int)
    requires 0 <= k < |s| && 0 <= l <= |s|
  {
    if l <= k then
      SortedBetween(s, 0, l)
      && SortedBetween(s, l, k)
      && (forall i, j :: 0 <= i < l <= j < k ==> s[i].distance <= s[j].distance)
      && (forall i :: 0 <= i < l ==> s[i].distance <= s[k].distance)
      && (k > 0 ==> forall i :: 0 <= i < |s| ==>
            s[i].distance <= s[k].distance || (l < k && s[i].distance <= s[k - 1].distance))
    else
      SortedBetween(s, 0, k + 1)
      && (forall i :: 0 <= i < l ==> s[i].distance <= s[k].distance)
      && (k > 0 ==> forall i :: 0 <= i < |s| ==> s[i].distance <= s[k].distance)
  }

  lemma InnerStepBefore(s: seq<MediumChange>, k: int, l: int)
    requires 0 <= l < k < |s| && InnerInvariant(s, k, l)
    ensures InnerInvariant(SwapIfFurther(s, k, l), k, l + 1)
  {
    var r := SwapIfFurther(s, k, l);
    if s[l].distance > s[k].distance {
      assert r[l] == s[k] && r[k] == s[l];
      assert SortedBetween(r, 0, l + 1);
      assert SortedBetween(r, l + 1, k);
      assert forall i :: 0 <= i < l + 1 ==> r[i].distance <= r[k].distance;
      assert forall i :: 0 <= i < |s| ==>
        r[i].distance <= r[k].distance || (l + 1 < k && r[i].distance <= r[k - 1].distance);
    } else {
      assert r == s;
      assert SortedBetween(r, 0, l + 1);
    }
  }

  lemma InnerStepAt(s: seq<MediumChange>, k: int)
    requires 0 <= k < |s| && InnerInvariant(s, k, k)
    ensures InnerInvariant(SwapIfFurther(s, k, k), k, k + 1)
  {
    assert SwapIfFurther(s, k, k) == s;
  }

  lemma InnerStepAfter(s: seq<MediumChange>, k: int, l: int)
    requires 0 <= k < l < |s| && InnerInvariant(s, k, l)
    ensures InnerInvariant(SwapIfFurther(s, k, l), k, l + 1)
  {
    var r := SwapIfFurther(s, k, l);
    if s[l].distance > s[k].distance {
      assert k == 0;
      assert r[0] == s[l] && r[l] == s[0];
      assert forall i :: 0 <= i < l + 1 ==> r[i].distance <= r[0].distance;
    } else {
      assert r == s;
    }
  }

  /** The inner loop, run to its end, establishes the outer invariant for
      the next `k`. */
  lemma {:induction false} InnerPassKeeps(s: seq<MediumChange>, k: int, l: int)
    requires 0 <= k < |s| && 0 <= l <= |s| && InnerInvariant(s, k, l)
    ensures InnerInvariant(InnerPass(s, k, l), k, |s|)
    decreases |s| - l
  {
    if l < |s| {
      if l < k {
        InnerStepBefore(s, k, l);
      } else if l == k {
        InnerStepAt(s, k);
      } else {
        InnerStepAfter(s, k, l);
      }
      InnerPassKeeps(SwapIfFurther(s, k, l), k, l + 1);
    }
  }

  lemma OuterStep(s: seq<MediumChange>, k: int)
    requires 0 <= k < |s| && OuterInvariant(s, k)
    ensures OuterInvariant(InnerPass(s, k, 0), k + 1)
  {
    InnerPassKeeps(s, k, 0);
  }

  lemma {:induction false} OuterPassSorts(s: seq<MediumChange>, k: int)
    requires 0 <= k <= |s| && OuterInvariant(s, k)
    ensures Sorted(OuterPass(s, k))
    decreases |s| - k
  {
    if k < |s| {
      OuterStep(s, k);
      OuterPassSorts(InnerPass(s, k, 0), k + 1);
    }
  }

  /** The exchange sort orders the entries by distance and only permutes
      them. */
  lemma ExchangeSortSorts(s: seq<MediumChange>)
    ensures Sorted(ExchangeSort(s))
    ensures multiset(ExchangeSort(s)) == multiset(s)
  {
    OuterPassSorts(s, 0);
  }

  /** The double loop as the kernel bounds it: over the first
      number_of_medium_changes entries only, so the last change, at index
      number_of_medium_changes, keeps its place. */
  function SortAsWritten(s: seq<MediumChange>): (r: seq<MediumChange>)
    requires |s| >= 1
    ensures |r| == |s| && multiset(r) == multiset(s) && r[|s| - 1] == s[|s| - 1]
  {
    var last := |s| - 1;
    assert s == s[..last] + [s[last]];
    ExchangeSort(s[..last]) + [s[last]]
  }

  /** The bounded sort leaves an early last change out of order: a photon
      that enters one cylinder at 0.8 and leaves it at 1.0, and then, for a
      second cylinder it starts inside, records the exit at 0.3 last. */
  lemma SortAsWrittenLeavesLastOutOfOrder(s: seq<MediumChange>)
    requires s == [MediumChange(0.0, 1.0, 1.0), MediumChange(0.8, 1.0, 1.0),
                   MediumChange(1.0, 1.0, 1.0), MediumChange(0.3, 1.0, 1.0)]
    ensures !Sorted(SortAsWritten(s))
    ensures Sorted(ExchangeSort(s))
  {
    var front := s[..3];
    var r := ExchangeSort(front);
    ExchangeSortSorts(front);
    ExchangeSortSorts(s);
    assert front[2] in multiset(r);
    var i :| 0 <= i < 3 && r[i] == front[2];
    assert r[2].distance >= 1.0;
    var t := SortAsWritten(s);
    assert t[2] == r[2] && t[3] == s[3];
  }

  /** The double loop on the first `n` slots of the arrays; the slots from
      `n` on are not touched. */
  method SortChanges(a: array<MediumChange>, n: int)
    requires 0 <= n <= a.Length
    modifies a
    ensures a[..n] == ExchangeSort(old(a[..n]))
    ensures a[n..] == old(a[n..])
  {
    for k := 0 to n
      invariant OuterPass(a[..n], k) == ExchangeSort(old(a[..n]))
      invariant a[n..] == old(a[n..])
    {
      ghost var before := a[..n];
      InnerLoop(a, n, k);
      assert OuterPass(before, k) == OuterPass(a[..n], k + 1);
    }
  }

  /** The inner loop for one `k`. */
  method InnerLoop(a: array<MediumChange>, n: int, k: int)
    requires 0 <= k < n <= a.Length
    modifies a
    ensures a[..n] == InnerPass(old(a[..n]), k, 0)
    ensures a[n..] == old(a[n..])
  {
    for l := 0 to n
      invariant InnerPass(a[..n], k, l) == InnerPass(old(a[..n]), k, 0)
      invariant a[n..] == old(a[n..])
    {
      ghost var before := a[..n];
      CompareAndSwap(a, n, k, l);
      assert InnerPass(before, k, l) == InnerPass(a[..n], k, l + 1);
    }
  }

  /** One step of the inner loop: the three arrays' entries at `k` and `l`
      are exchanged when the one at `l` lies further along. */
  method CompareAndSwap(a: array<MediumChange>, n: int, k: int, l: int)
    requires 0 <= k < n <= a.Length && 0 <= l < n
    modifies a
    ensures a[..n] == SwapIfFurther(old(a[..n]), k, l)
    ensures a[n..] == old(a[n..])
  {
    if a[l].distance > a[k].distance {
      a[k], a[l] := a[l], a[k];
    }
    assert a[..n] == SwapIfFurther(old(a[..n]), k, l);
  }
}
