/** The in-place unstable sort by time stamp, as a divide-and-conquer sort that splits one pending range at a time.
    The range to split and the pivot are chosen arbitrarily, so every order in which parallel workers might
    process the disjoint ranges is covered. */
module Sort {
  ghost predicate Sorted<T>(s: seq<T>, key: T -> int) {
    forall i, j :: 0 <= i < j < |s| ==> key(s[i]) <= key(s[j])
  }

  datatype Range = Range(lo: nat, hi: nat)

  // Positions i and j are still to be ordered with respect to each other.
  ghost predicate Undecided(work: set<Range>, i: int, j: int) {
    exists r :: r in work && r.lo <= i && j < r.hi
  }

  ghost predicate OrderedOutside<T>(s: seq<T>, work: set<Range>, key: T -> int) {
    forall i, j :: 0 <= i < j < |s| && !Undecided(work, i, j) ==> key(s[i]) <= key(s[j])
  }

  ghost predicate Disjoint(work: set<Range>) {
    forall r, q :: r in work && q in work && r != q ==> r.hi <= q.lo || q.hi <= r.lo
  }

  ghost predicate Within(work: set<Range>, n: nat) {
    forall r :: r in work ==> r.lo < r.hi <= n
  }

  // s' is s with the elements of r rearranged.
  ghost predicate Rearranged<T>(s: seq<T>, s': seq<T>, r: Range) {
    && r.lo <= r.hi <= |s| == |s'|
    && s'[..r.lo] == s[..r.lo] && s'[r.hi..] == s[r.hi..]
    && multiset(s'[r.lo..r.hi]) == multiset(s[r.lo..r.hi])
  }

  // Position p holds the pivot, with no larger element of r before it and no smaller one after it.
  ghost predicate SplitAt<T>(s: seq<T>, r: Range, p: nat, key: T -> int) {
    && r.lo <= p < r.hi <= |s|
    && (forall k :: r.lo <= k < p ==> key(s[k]) <= key(s[p]))
    && (forall k :: p < k < r.hi ==> key(s[p]) <= key(s[k]))
  }

  function Halves(r: Range, p: nat): set<Range>
    requires r.lo <= p < r.hi
  {
    (if r.lo < p then {Range(r.lo, p)} else {}) + (if p + 1 < r.hi then {Range(p + 1, r.hi)} else {})
  }

  lemma RearrangedKeepsElements<T>(s: seq<T>, s': seq<T>, r: Range)
    requires Rearranged(s, s', r)
    ensures multiset(s') == multiset(s)
  {
    assert s == s[..r.lo] + s[r.lo..r.hi] + s[r.hi..];
    assert s' == s'[..r.lo] + s'[r.lo..r.hi] + s'[r.hi..];
  }

  lemma RearrangedBySwap<T>(t: seq<T>, r: Range, i: nat, j: nat)
    requires r.lo <= i < r.hi <= |t| && r.lo <= j < r.hi
    ensures Rearranged(t, t[i := t[j]][j := t[i]], r)
  {
    var u := t[i := t[j]][j := t[i]];
    var m := t[r.lo..r.hi];
    var x, y := i - r.lo, j - r.lo;
    assert u[r.lo..r.hi] == m[x := m[y]][y := m[x]];
    assert u[..r.lo] == t[..r.lo] && u[r.hi..] == t[r.hi..];
  }

  // Where an element came from: the range's elements stay in it and the others do not move.
  lemma Origin<T>(s: seq<T>, s': seq<T>, r: Range, k: nat) returns (k': nat)
    requires Rearranged(s, s', r) && k < |s|
    ensures k' < |s| && s[k'] == s'[k]
    ensures if r.lo <= k < r.hi then r.lo <= k' < r.hi else k' == k
  {
    if k < r.lo {
      assert s'[..r.lo][k] == s[..r.lo][k];
      k' := k;
    } else if k >= r.hi {
      assert s'[r.hi..][k - r.hi] == s[r.hi..][k - r.hi];
      k' := k;
    } else {
      var e := s'[k];
      assert e == s'[r.lo..r.hi][k - r.lo];
      assert e in multiset(s'[r.lo..r.hi]);
      assert e in s[r.lo..r.hi];
      var i: nat :| i < r.hi - r.lo && s[r.lo..r.hi][i] == e;
      k' := r.lo + i;
    }
  }

  lemma HalvesUndecided(work: set<Range>, r: Range, p: nat, i: nat, j: nat)
    requires r.lo <= p < r.hi && r.lo <= i < j < r.hi
    ensures Undecided(work + Halves(r, p), i, j) || i <= p <= j
  {
    if j < p {
      assert Range(r.lo, p) in work + Halves(r, p);
    } else if p < i {
      assert Range(p + 1, r.hi) in work + Halves(r, p);
    }
  }

  lemma SplitKeepsOrder<T>(s: seq<T>, s': seq<T>, work: set<Range>, r: Range, p: nat, key: T -> int)
    requires r in work && Disjoint(work) && Within(work, |s|) && OrderedOutside(s, work, key)
    requires Rearranged(s, s', r) && SplitAt(s', r, p, key)
    ensures OrderedOutside(s', work - {r} + Halves(r, p), key)
  {
    var work' := work - {r} + Halves(r, p);
    forall i: nat, j: nat | i < j < |s| && !Undecided(work', i, j)
      ensures key(s'[i]) <= key(s'[j])
    {
      if r.lo <= i && j < r.hi {
        HalvesUndecided(work - {r}, r, p, i, j);
      } else {
        var i' := Origin(s, s', r, i);
        var j' := Origin(s, s', r, j);
        forall q | q in work
          ensures !(q.lo <= i' && j' < q.hi)
        {
          assert q == r || q in work';
        }
      }
    }
  }

  // The scanned part of the range: up to p nothing larger than the pivot, from p to i nothing smaller.
  ghost predicate Scanned<T>(s: seq<T>, r: Range, p: nat, i: nat, key: T -> int) {
    && r.lo <= p <= i < r.hi <= |s|
    && (forall k :: r.lo <= k < p ==> key(s[k]) <= key(s[r.hi - 1]))
    && (forall k :: p <= k < i ==> key(s[r.hi - 1]) <= key(s[k]))
  }

  lemma ScanSmaller<T>(s: seq<T>, r: Range, p: nat, i: nat, key: T -> int)
    requires Scanned(s, r, p, i, key) && i < r.hi - 1 && key(s[i]) < key(s[r.hi - 1])
    ensures Scanned(s[i := s[p]][p := s[i]], r, p + 1, i + 1, key)
  {
  }

  lemma ScanEnds<T>(s: seq<T>, r: Range, p: nat, key: T -> int)
    requires 0 < r.hi && Scanned(s, r, p, r.hi - 1, key)
    ensures SplitAt(s[p := s[r.hi - 1]][r.hi - 1 := s[p]], r, p, key)
  {
  }

  method SwapWithin<T>(a: array<T>, r: Range, i: nat, j: nat)
    requires r.lo <= i < r.hi <= a.Length && r.lo <= j < r.hi
    modifies a
    ensures a[..] == old(a[..])[i := old(a[j])][j := old(a[i])]
    ensures Rearranged(old(a[..]), a[..], r)
  {
    RearrangedBySwap(a[..], r, i, j);
    a[i], a[j] := a[j], a[i];
    assert a[..] == old(a[..])[i := old(a[j])][j := old(a[i])];
  }

  method ScanNext<T>(a: array<T>, r: Range, p: nat, i: nat, key: T -> int) returns (p': nat)
    requires r.hi <= a.Length && Scanned(a[..], r, p, i, key) && i < r.hi - 1
    modifies a
    ensures Rearranged(old(a[..]), a[..], r) && Scanned(a[..], r, p', i + 1, key)
  {
    if key(a[i]) < key(a[r.hi - 1]) {
      ScanSmaller(a[..], r, p, i, key);
      SwapWithin(a, r, i, p);
      p' := p + 1;
    } else {
      p' := p;
    }
  }

  method ScanAll<T>(a: array<T>, r: Range, key: T -> int) returns (p: nat)
    requires r.lo < r.hi <= a.Length
    modifies a
    ensures Rearranged(old(a[..]), a[..], r) && Scanned(a[..], r, p, r.hi - 1, key)
  {
    p := r.lo;
    for i := r.lo to r.hi - 1
      invariant Rearranged(old(a[..]), a[..], r) && Scanned(a[..], r, p, i, key)
    {
      p := ScanNext(a, r, p, i, key);
    }
  }

  lemma RearrangedTwice<T>(s: seq<T>, t: seq<T>, u: seq<T>, r: Range)
    requires Rearranged(s, t, r) && Rearranged(t, u, r)
    ensures Rearranged(s, u, r)
  {
  }

  method Partition<T>(a: array<T>, r: Range, pivot: nat, key: T -> int) returns (p: nat)
    requires r.lo <= pivot < r.hi <= a.Length
    modifies a
    ensures Rearranged(old(a[..]), a[..], r) && SplitAt(a[..], r, p, key)
  {
    ghost var s := a[..];
    SwapWithin(a, r, pivot, r.hi - 1);
    ghost var t := a[..];
    p := ScanAll(a, r, key);
    RearrangedTwice(s, t, a[..], r);
    p := PlacePivot(a, r, p, s, key);
  }

  method PlacePivot<T>(a: array<T>, r: Range, p: nat, ghost s: seq<T>, key: T -> int) returns (q: nat)
    requires r.lo < r.hi <= a.Length && Scanned(a[..], r, p, r.hi - 1, key) && Rearranged(s, a[..], r)
    modifies a
    ensures q == p && Rearranged(s, a[..], r) && SplitAt(a[..], r, q, key)
  {
    ghost var t := a[..];
    ScanEnds(t, r, p, key);
    SwapWithin(a, r, p, r.hi - 1);
    RearrangedTwice(s, t, a[..], r);
    q := p;
  }

  // Any position of the range may serve as the pivot.
  method PickPivot(r: Range) returns (pivot: nat)
    requires r.lo < r.hi
    ensures r.lo <= pivot < r.hi
  {
    pivot := r.lo;
    while pivot + 1 < r.hi
      invariant r.lo <= pivot < r.hi
    {
      if * {
        return;
      }
      pivot := pivot + 1;
    }
  }

  // Splits one pending range and leaves its two sides pending.
  method SplitOne<T>(a: array<T>, r: Range, ghost work: set<Range>, key: T -> int) returns (p: nat)
    requires r in work && Disjoint(work) && Within(work, a.Length) && OrderedOutside(a[..], work, key)
    modifies a
    ensures r.lo <= p < r.hi && OrderedOutside(a[..], work - {r} + Halves(r, p), key)
    ensures multiset(a[..]) == multiset(old(a[..]))
  {
    ghost var s := a[..];
    var pivot := PickPivot(r);
    p := Partition(a, r, pivot, key);
    SplitKeepsOrder(s, a[..], work, r, p, key);
    RearrangedKeepsElements(s, a[..], r);
  }

  lemma HalvesApart(work: set<Range>, r: Range, p: nat, n: nat)
    requires r in work && Disjoint(work) && Within(work, n) && r.lo <= p < r.hi
    ensures Disjoint(work - {r} + Halves(r, p)) && Within(work - {r} + Halves(r, p), n)
  {
    forall q | q in Halves(r, p)
      ensures r.lo <= q.lo < q.hi <= r.hi
    {
    }
    forall q, t | q in work - {r} + Halves(r, p) && t in work - {r} + Halves(r, p) && q != t
      ensures q.hi <= t.lo || t.hi <= q.lo
    {
    }
  }

  // The pivot's position is settled and no position becomes pending again.
  lemma HalvesPending(work: set<Range>, r: Range, p: nat, n: nat)
    requires r in work && Disjoint(work) && Within(work, n) && r.lo <= p < r.hi
    ensures Pending(work - {r} + Halves(r, p), n) < Pending(work, n)
  {
    var work' := work - {r} + Halves(r, p);
    forall i | i in Pending(work', n)
      ensures i in Pending(work, n) && i != p
    {
      var q :| q in work' && q.lo <= i < q.hi;
      assert q in work || r.lo <= i < r.hi;
    }
    assert Covered(work, p);
    assert p in Pending(work, n) && p !in Pending(work', n);
  }

  ghost predicate Covered(work: set<Range>, i: int) {
    exists r :: r in work && r.lo <= i < r.hi
  }

  ghost function Pending(work: set<Range>, n: nat): set<int> {
    set i | 0 <= i < n && Covered(work, i)
  }

  method SortUnstableByKey<T>(a: array<T>, key: T -> int)
    modifies a
    ensures Sorted(a[..], key)
    ensures multiset(a[..]) == multiset(old(a[..]))
  {
    var work: set<Range> := if a.Length == 0 then {} else {Range(0, a.Length)};
    while work != {}
      invariant Disjoint(work) && Within(work, a.Length)
      invariant OrderedOutside(a[..], work, key)
      invariant multiset(a[..]) == multiset(old(a[..]))
      decreases Pending(work, a.Length)
    {
      var r :| r in work;
      var p := SplitOne(a, r, work, key);
      HalvesApart(work, r, p, a.Length);
      HalvesPending(work, r, p, a.Length);
      work := work - {r} + Halves(r, p);
    }
  }
}
