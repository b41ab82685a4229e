/** os/src/data/quicksort.c: in-place quicksort with a comparator callback. */
module Sorting {

  /** A comparator in the style of the kernel: 1, -1 or 0 for greater, smaller, equal, and
      the induced order is a total preorder. */
  ghost predicate IsComparator<T(!new)>(cmp: (T, T) -> int) {
    forall x, y, z {:trigger Instance(x, y, z)} :: Instance(x, y, z) ==>
      && -1 <= cmp(x, y) <= 1
      && cmp(x, y) == -cmp(y, x)
      && (cmp(x, y) <= 0 && cmp(y, z) <= 0 ==> cmp(x, z) <= 0)
  }

  /** Always true. It names the points at which IsComparator is used, which keeps the
      transitivity law from being applied to every triple of array elements. */
  ghost predicate Instance<T>(x: T, y: T, z: T) { true }

  lemma Compare<T(!new)>(cmp: (T, T) -> int, x: T, y: T, z: T)
    requires IsComparator(cmp)
    ensures -1 <= cmp(x, y) <= 1 && cmp(x, y) == -cmp(y, x) && cmp(x, x) == 0
    ensures cmp(x, y) <= 0 && cmp(y, z) <= 0 ==> cmp(x, z) <= 0
  {
    assert Instance(x, y, z) && Instance(x, x, x);
  }

  ghost predicate Sorted<T>(s: seq<T>, cmp: (T, T) -> int) {
    forall i, j :: 0 <= i < j < |s| ==> cmp(s[i], s[j]) <= 0
  }

  /** `after` permutes the slice [lo..hi) of `before` and leaves everything else in place. */
  ghost predicate PermutesSlice<T>(before: seq<T>, after: seq<T>, lo: int, hi: int)
    requires 0 <= lo <= hi <= |before|
  {
    && |after| == |before|
    && after[..lo] == before[..lo]
    && after[hi..] == before[hi..]
    && multiset(after[lo..hi]) == multiset(before[lo..hi])
  }

  function Swapped<T>(s: seq<T>, i: nat, j: nat): seq<T>
    requires i < |s| && j < |s|
  {
    s[i := s[j]][j := s[i]]
  }

  lemma SwapPermutes<T>(before: seq<T>, s: seq<T>, i: nat, j: nat, lo: nat, hi: nat)
    requires lo <= i < hi <= |before| == |s| && lo <= j < hi && PermutesSlice(before, s, lo, hi)
    ensures |Swapped(s, i, j)| == |s|
    ensures forall k :: 0 <= k < |s| && k != i && k != j ==> Swapped(s, i, j)[k] == s[k]
    ensures PermutesSlice(before, Swapped(s, i, j), lo, hi)
  {
    var t := Swapped(s, i, j);
    var u := s[lo..hi];
    assert t[lo..hi] == u[i - lo := s[j]][j - lo := s[i]];
    assert t[..lo] == s[..lo] && t[hi..] == s[hi..];
  }

  lemma PermutesRefl<T>(a: seq<T>, lo: nat, hi: nat)
    requires lo <= hi <= |a|
    ensures PermutesSlice(a, a, lo, hi)
  {
  }

  lemma PermutesTrans<T>(a: seq<T>, b: seq<T>, c: seq<T>, lo: nat, hi: nat)
    requires lo <= hi <= |a| && PermutesSlice(a, b, lo, hi) && PermutesSlice(b, c, lo, hi)
    ensures PermutesSlice(a, c, lo, hi)
  {
  }

  /** A permutation of a part of a slice is a permutation of the slice. */
  lemma PermutesWiden<T>(a: seq<T>, b: seq<T>, lo: nat, hi: nat, lo': nat, hi': nat)
    requires lo' <= lo <= hi <= hi' <= |a| && PermutesSlice(a, b, lo, hi)
    ensures PermutesSlice(a, b, lo', hi')
  {
    assert a[lo'..hi'] == a[lo'..lo] + a[lo..hi] + a[hi..hi'];
    assert b[lo'..hi'] == b[lo'..lo] + b[lo..hi] + b[hi..hi'];
    assert a[lo'..lo] == a[..lo][lo'..] && b[lo'..lo] == b[..lo][lo'..];
    assert a[hi..hi'] == a[hi..][..hi' - hi] && b[hi..hi'] == b[hi..][..hi' - hi];
    assert a[..lo'] == a[..lo][..lo'] && b[..lo'] == b[..lo][..lo'];
    assert a[hi'..] == a[hi..][hi' - hi..] && b[hi'..] == b[hi..][hi' - hi..];
  }

  /** An element property that holds on a slice survives a permutation of the slice. */
  lemma PermutesAll<T(!new)>(a: seq<T>, b: seq<T>, lo: nat, hi: nat, p: T -> bool)
    requires lo <= hi <= |a| && PermutesSlice(a, b, lo, hi)
    requires forall k :: lo <= k < hi ==> p(a[k])
    ensures forall k :: lo <= k < hi ==> p(b[k])
  {
    forall k | lo <= k < hi ensures p(b[k]) {
      assert b[lo..hi][k - lo] in multiset(a[lo..hi]);
      assert b[lo..hi][k - lo] in a[lo..hi];
    }
  }

  method Swap<T>(a: array<T>, i: nat, j: nat)
    requires i < a.Length && j < a.Length
    modifies a
    ensures a[..] == Swapped(old(a[..]), i, j)
  {
    var t := a[i];
    a[i] := a[j];
    a[j] := t;
  }

  /** The scan of make_partition: s[lo..i] is not above the pivot, s[i+1..j) not below it. */
  ghost predicate Scanned<T>(s: seq<T>, lo: int, i: int, j: int, pivot: T, cmp: (T, T) -> int)
    requires 0 <= lo <= i + 1 <= j <= |s|
  {
    && (forall k :: lo <= k <= i ==> cmp(s[k], pivot) <= 0)
    && (forall k :: i < k < j ==> cmp(pivot, s[k]) <= 0)
  }

  /** s[p] splits the slice [lo..hi]. */
  ghost predicate SplitAt<T>(s: seq<T>, lo: int, p: int, hi: int, cmp: (T, T) -> int)
    requires 0 <= lo <= p <= hi < |s|
  {
    && (forall k :: lo <= k <= p ==> cmp(s[k], s[p]) <= 0)
    && (forall k :: p < k <= hi ==> cmp(s[p], s[k]) <= 0)
  }

  lemma ScanStart<T>(s: seq<T>, lo: int, pivot: T, cmp: (T, T) -> int)
    requires 0 <= lo <= |s|
    ensures Scanned(s, lo, lo - 1, lo, pivot, cmp)
  {
  }

  lemma PartitionStep<T(!new)>(s: seq<T>, lo: int, i: int, j: int, pivot: T, cmp: (T, T) -> int)
    requires IsComparator(cmp)
    requires 0 <= lo <= i + 1 <= j < |s| && Scanned(s, lo, i, j, pivot, cmp)
    ensures -1 <= cmp(s[j], pivot) <= 1
    ensures if cmp(s[j], pivot) <= 0
      then Scanned(Swapped(s, i + 1, j), lo, i + 1, j + 1, pivot, cmp)
      else Scanned(s, lo, i, j + 1, pivot, cmp)
  {
    Compare(cmp, s[j], pivot, pivot);
  }

  lemma PlacePivot<T(!new)>(s: seq<T>, lo: int, i: int, hi: int, cmp: (T, T) -> int)
    requires IsComparator(cmp)
    requires 0 <= lo <= i + 1 <= hi < |s| && Scanned(s, lo, i, hi, s[hi], cmp)
    ensures SplitAt(Swapped(s, i + 1, hi), lo, i + 1, hi, cmp)
  {
    Compare(cmp, s[hi], s[hi], s[hi]);
  }

  method MakePartition<T(!new)>(a: array<T>, lo: nat, hi: nat, cmp: (T, T) -> int)
    returns (p: int)
    requires lo < hi < a.Length && IsComparator(cmp)
    modifies a
    ensures lo <= p <= hi
    ensures PermutesSlice(old(a[..]), a[..], lo, hi + 1)
    ensures SplitAt(a[..], lo, p, hi, cmp)
  {
    hide *;
    ghost var before := a[..];
    ghost var s := before;
    PermutesRefl(s, lo, hi + 1);
    var pivot := a[hi];
    var i := lo - 1;
    ScanStart(s, lo, pivot, cmp);
    assert s[hi] == pivot;
    for j := lo to hi
      invariant a[..] == s && |s| == |before|
      invariant lo - 1 <= i < j
      invariant s[hi] == pivot
      invariant PermutesSlice(before, s, lo, hi + 1)
      invariant Scanned(s, lo, i, j, pivot, cmp)
    {
      PartitionStep(s, lo, i, j, pivot, cmp);
      SwapPermutes(before, s, i + 1, j, lo, hi + 1);
      assert a[j] == s[j];
      if cmp(a[j], pivot) == 0 || cmp(a[j], pivot) == -1 {
        i := i + 1;
        Swap(a, i, j);
        s := Swapped(s, i, j);
      }
    }
    PlacePivot(s, lo, i, hi, cmp);
    SwapPermutes(before, s, i + 1, hi, lo, hi + 1);
    Swap(a, i + 1, hi);
    p := i + 1;
  }

  /** The two recursive calls sort what lies left and right of the pivot. */
  lemma SortedHalves<T(!new)>(part: seq<T>, left: seq<T>, done: seq<T>,
                              lo: int, p: int, hi: int, cmp: (T, T) -> int)
    requires 0 <= lo <= p <= hi < |part| == |left| == |done| && IsComparator(cmp)
    requires SplitAt(part, lo, p, hi, cmp)
    requires PermutesSlice(part, left, lo, p) && Sorted(left[lo..p], cmp)
    requires PermutesSlice(left, done, p + 1, hi + 1) && Sorted(done[p + 1..hi + 1], cmp)
    ensures Sorted(done[lo..hi + 1], cmp)
  {
    hide PermutesSlice, Sorted;
    var v := part[p];
    Unmoved(part, left, lo, p);
    Unmoved(left, done, p + 1, hi + 1);
    Compare(cmp, v, v, v);
    PermutesAll(part, left, lo, p, x => cmp(x, v) <= 0);
    PermutesAll(left, done, p + 1, hi + 1, x => cmp(v, x) <= 0);
    assert left[lo..p] == done[lo..p];
    JoinSorted(done[lo..p], v, done[p + 1..hi + 1], cmp);
    assert done[lo..hi + 1] == done[lo..p] + [v] + done[p + 1..hi + 1];
  }

  lemma JoinSorted<T(!new)>(s: seq<T>, v: T, t: seq<T>, cmp: (T, T) -> int)
    requires IsComparator(cmp) && Sorted(s, cmp) && Sorted(t, cmp)
    requires forall k :: 0 <= k < |s| ==> cmp(s[k], v) <= 0
    requires forall k :: 0 <= k < |t| ==> cmp(v, t[k]) <= 0
    ensures Sorted(s + [v] + t, cmp)
  {
    var r := s + [v] + t;
    forall i, j | 0 <= i < j < |r| ensures cmp(r[i], r[j]) <= 0 {
      Compare(cmp, r[i], v, r[j]);
    }
  }

  lemma Unmoved<T>(a: seq<T>, b: seq<T>, lo: nat, hi: nat)
    requires lo <= hi <= |a| && PermutesSlice(a, b, lo, hi)
    ensures forall k :: 0 <= k < lo || hi <= k < |a| ==> b[k] == a[k]
  {
    forall k | 0 <= k < lo || hi <= k < |a| ensures b[k] == a[k] {
      if k < lo {
        assert b[..lo][k] == a[..lo][k];
      } else {
        assert b[hi..][k - hi] == a[hi..][k - hi];
      }
    }
  }

  lemma ShortSlice<T>(s: seq<T>, lo: int, hi: int, cmp: (T, T) -> int)
    requires 0 <= lo <= hi + 1 <= |s| && hi <= lo
    ensures PermutesSlice(s, s, lo, hi + 1) && Sorted(s[lo..hi + 1], cmp)
  {
  }

  method QuicksortR<T(!new)>(a: array<T>, lo: int, hi: int, cmp: (T, T) -> int)
    requires hi < a.Length && IsComparator(cmp)
    modifies a
    ensures lo < 0 || lo >= hi ==> a[..] == old(a[..])
    ensures 0 <= lo <= hi + 1 ==> PermutesSlice(old(a[..]), a[..], lo, hi + 1)
    ensures 0 <= lo <= hi + 1 ==> Sorted(a[lo..hi + 1], cmp)
    decreases hi - lo
  {
    hide *;
    if lo >= hi || lo < 0 {
      if 0 <= lo <= hi + 1 { ShortSlice(a[..], lo, hi, cmp); }
      return;
    }
    var p := MakePartition(a, lo, hi, cmp);
    ghost var part := a[..];
    QuicksortR(a, lo, p - 1, cmp);
    ghost var left := a[..];
    assert left[lo..p] == a[lo..p];
    QuicksortR(a, p + 1, hi, cmp);
    ghost var done := a[..];
    assert done[p + 1..hi + 1] == a[p + 1..hi + 1] && done[lo..hi + 1] == a[lo..hi + 1];
    SortedHalves(part, left, done, lo, p, hi, cmp);
    PermutesWiden(part, left, lo, p, lo, hi + 1);
    PermutesWiden(left, done, p + 1, hi + 1, lo, hi + 1);
    PermutesTrans(part, left, done, lo, hi + 1);
    PermutesTrans(old(a[..]), part, done, lo, hi + 1);
  }

  method Quicksort<T(!new)>(a: array<T>, lo: int, hi: int, cmp: (T, T) -> int)
    requires hi < a.Length && IsComparator(cmp)
    modifies a
    ensures lo < 0 || lo >= hi ==> a[..] == old(a[..])
    ensures 0 <= lo <= hi + 1 ==> PermutesSlice(old(a[..]), a[..], lo, hi + 1)
    ensures 0 <= lo <= hi + 1 ==> Sorted(a[lo..hi + 1], cmp)
  {
    QuicksortR(a, lo, hi, cmp);
  }

  /** A strictly increasing sequence has no other sorted permutation. */
  lemma {:induction false} StrictlySortedUnique<T(!new)>(s: seq<T>, t: seq<T>, cmp: (T, T) -> int)
    requires IsComparator(cmp) && multiset(s) == multiset(t) && Sorted(t, cmp)
    requires forall i, j :: 0 <= i < j < |s| ==> cmp(s[i], s[j]) == -1
    ensures s == t
  {
    assert |s| == |multiset(s)| == |multiset(t)| == |t|;
    if |s| > 0 {
      SameLeast(s, t, cmp);
      SameTail(s, t);
      StrictlySortedUnique(s[1..], t[1..], cmp);
    }
  }

  lemma SameTail<T>(s: seq<T>, t: seq<T>)
    requires |s| > 0 && |t| > 0 && s[0] == t[0] && multiset(s) == multiset(t)
    ensures multiset(s[1..]) == multiset(t[1..])
  {
    assert s == [s[0]] + s[1..] && t == [t[0]] + t[1..];
    assert multiset(s[1..]) == multiset(s) - multiset{s[0]};
    assert multiset(t[1..]) == multiset(t) - multiset{t[0]};
  }

  lemma SameLeast<T(!new)>(s: seq<T>, t: seq<T>, cmp: (T, T) -> int)
    requires IsComparator(cmp) && multiset(s) == multiset(t) && Sorted(t, cmp)
    requires |s| > 0 && |t| > 0
    requires forall i, j :: 0 <= i < j < |s| ==> cmp(s[i], s[j]) == -1
    ensures s[0] == t[0]
  {
    assert t[0] in multiset(s) && s[0] in multiset(t);
    var l :| 0 <= l < |s| && s[l] == t[0];
    var k :| 0 <= k < |t| && t[k] == s[0];
    Compare(cmp, s[0], t[0], s[0]);
  }
}
