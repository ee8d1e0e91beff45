/** What sorting and filtering keep of a sequence. */
module Sequences {
  import opened Sort

  function Filter<T>(s: seq<T>, p: T -> bool): (r: seq<T>) {
    if s == [] then [] else (if p(s[0]) then [s[0]] else []) + Filter(s[1..], p)
  }

  function Keys<T>(s: seq<T>, key: T -> int): seq<int> {
    seq(|s|, i requires 0 <= i < |s| => key(s[i]))
  }

  function HasKey<T>(key: T -> int, k: int): T -> bool {
    e => key(e) == k
  }

  ghost predicate StrictlySorted<T>(s: seq<T>, key: T -> int) {
    forall i, j :: 0 <= i < j < |s| ==> key(s[i]) < key(s[j])
  }

  ghost predicate NoRepeats<T>(s: seq<T>) {
    forall i, j :: 0 <= i < j < |s| ==> s[i] != s[j]
  }

  lemma {:induction false} FilterCount<T>(s: seq<T>, p: T -> bool, x: T)
    ensures multiset(Filter(s, p))[x] == if p(x) then multiset(s)[x] else 0
  {
    if s != [] {
      FilterCount(s[1..], p, x);
      assert s == [s[0]] + s[1..];
    }
  }

  lemma FilterSame<T(!new)>(s: seq<T>, t: seq<T>, p: T -> bool)
    requires multiset(s) == multiset(t)
    ensures multiset(Filter(s, p)) == multiset(Filter(t, p))
    ensures |Filter(s, p)| == |Filter(t, p)|
  {
    forall x: T
      ensures multiset(Filter(s, p))[x] == multiset(Filter(t, p))[x]
    {
      FilterCount(s, p, x);
      FilterCount(t, p, x);
    }
    assert |Filter(s, p)| == |multiset(Filter(s, p))|;
    assert |Filter(t, p)| == |multiset(Filter(t, p))|;
  }

  lemma SameMember<T>(s: seq<T>, t: seq<T>, x: T)
    requires multiset(s) == multiset(t) && x in s
    ensures x in t
  {
    assert x in multiset(t);
  }

  lemma {:induction false} FilterConcat<T>(s: seq<T>, t: seq<T>, p: T -> bool)
    ensures Filter(s + t, p) == Filter(s, p) + Filter(t, p)
  {
    if s == [] {
      assert s + t == t;
    } else {
      FilterConcat(s[1..], t, p);
      var st := s + t;
      var head := if p(s[0]) then [s[0]] else [];
      assert st != [] && st[0] == s[0] && st[1..] == s[1..] + t;
      assert head + (Filter(s[1..], p) + Filter(t, p)) == (head + Filter(s[1..], p)) + Filter(t, p);
    }
  }

  lemma {:induction false} FilterAll<T>(s: seq<T>, p: T -> bool)
    ensures (forall x :: x in s ==> p(x)) ==> Filter(s, p) == s
    ensures (forall x :: x in s ==> !p(x)) ==> Filter(s, p) == []
  {
    if s != [] {
      FilterAll(s[1..], p);
    }
  }

  // Filtering keeps elements in order: what is left of a sorted sequence is sorted.
  lemma {:induction false} FilterSorted<T>(s: seq<T>, p: T -> bool, key: T -> int)
    requires Sorted(s, key)
    ensures Sorted(Filter(s, p), key)
    ensures forall x :: x in Filter(s, p) ==> x in s && p(x)
  {
    if s != [] {
      assert forall i :: 1 <= i < |s| ==> s[1..][i - 1] == s[i];
      FilterSorted(s[1..], p, key);
      var rest := Filter(s[1..], p);
      forall j | 0 <= j < |rest|
        ensures key(s[0]) <= key(rest[j])
      {
        assert rest[j] in s[1..];
      }
    }
  }

  lemma {:induction false} KeysCount<T>(s: seq<T>, key: T -> int, k: int)
    ensures multiset(Keys(s, key))[k] == |Filter(s, HasKey(key, k))|
  {
    if s != [] {
      KeysCount(s[1..], key, k);
      assert Keys(s, key) == [key(s[0])] + Keys(s[1..], key);
    }
  }

  lemma {:induction false} SortedIntsEqual(a: seq<int>, b: seq<int>)
    requires multiset(a) == multiset(b)
    requires forall i, j :: 0 <= i < j < |a| ==> a[i] <= a[j]
    requires forall i, j :: 0 <= i < j < |b| ==> b[i] <= b[j]
    ensures a == b
  {
    assert |a| == |multiset(a)| == |multiset(b)| == |b|;
    if a != [] {
      SameHead(a, b);
      SortedIntsEqual(a[1..], b[1..]);
      assert a == [a[0]] + a[1..] && b == [b[0]] + b[1..];
    }
  }

  lemma SameHead(a: seq<int>, b: seq<int>)
    requires multiset(a) == multiset(b) && a != [] && b != []
    requires forall i :: 0 <= i < |a| ==> a[0] <= a[i]
    requires forall i :: 0 <= i < |b| ==> b[0] <= b[i]
    ensures a[0] == b[0] && multiset(a[1..]) == multiset(b[1..])
  {
    assert a[0] in multiset(b) && b[0] in multiset(a);
    var i :| 0 <= i < |b| && b[i] == a[0];
    var j :| 0 <= j < |a| && a[j] == b[0];
    SameTail(a[0], a[1..], b[1..]) by {
      assert a == [a[0]] + a[1..] && b == [a[0]] + b[1..];
    }
  }

  lemma SameTail<T>(x: T, s: seq<T>, t: seq<T>)
    requires multiset([x] + s) == multiset([x] + t)
    ensures multiset(s) == multiset(t)
  {
    assert multiset(s) == multiset([x] + s) - multiset{x};
    assert multiset(t) == multiset([x] + t) - multiset{x};
  }

  // Two sorted arrangements of the same elements carry the same keys in the same places, and hold the same
  // elements for each key; so they can only differ in the order of elements with equal keys.
  lemma SortedArrangements<T(!new)>(s: seq<T>, t: seq<T>, key: T -> int)
    requires multiset(s) == multiset(t) && Sorted(s, key) && Sorted(t, key)
    ensures Keys(s, key) == Keys(t, key)
    ensures forall k :: multiset(Filter(s, HasKey(key, k))) == multiset(Filter(t, HasKey(key, k)))
  {
    forall k
      ensures multiset(Filter(s, HasKey(key, k))) == multiset(Filter(t, HasKey(key, k)))
      ensures multiset(Keys(s, key))[k] == multiset(Keys(t, key))[k]
    {
      FilterSame(s, t, HasKey(key, k));
      KeysCount(s, key, k);
      KeysCount(t, key, k);
    }
    SortedIntsEqual(Keys(s, key), Keys(t, key));
  }

  lemma SortedUnique<T(!new)>(s: seq<T>, t: seq<T>, key: T -> int)
    requires multiset(s) == multiset(t) && Sorted(s, key) && StrictlySorted(t, key)
    ensures s == t
  {
    SortedArrangements(s, t, key);
    assert |s| == |Keys(s, key)| == |Keys(t, key)| == |t|;
    forall i | 0 <= i < |s|
      ensures s[i] == t[i]
    {
      assert Keys(s, key)[i] == Keys(t, key)[i];
      assert s[i] in multiset(t);
      var j :| 0 <= j < |t| && t[j] == s[i];
    }
  }

  lemma {:induction false} SortedArrangement<T>(s: seq<T>, key: T -> int) returns (m: seq<T>)
    ensures Sorted(m, key) && multiset(m) == multiset(s)
  {
    m := [];
    if s != [] {
      var rest := SortedArrangement(s[1..], key);
      m := Insertion(rest, s[0], key);
      assert s == [s[0]] + s[1..];
    }
  }

  lemma Insertion<T>(s: seq<T>, x: T, key: T -> int) returns (m: seq<T>)
    requires Sorted(s, key)
    ensures Sorted(m, key) && multiset(m) == multiset(s) + multiset{x}
  {
    var i := 0;
    while i < |s| && key(s[i]) < key(x)
      invariant i <= |s|
      invariant forall k :: 0 <= k < i ==> key(s[k]) < key(x)
    {
      i := i + 1;
    }
    m := s[..i] + [x] + s[i..];
    assert s == s[..i] + s[i..];
  }

  // In a sorted sequence where p holds of later keys only, the elements with p are a suffix.
  lemma {:induction false} SortedSuffix<T>(s: seq<T>, p: T -> bool, key: T -> int)
    requires Sorted(s, key)
    requires forall x, y :: x in s && y in s && !p(x) && p(y) ==> key(x) < key(y)
    ensures |Filter(s, p)| <= |s|
    ensures forall i :: 0 <= i < |s| ==> (p(s[i]) <==> i >= |s| - |Filter(s, p)|)
  {
    if s != [] {
      assert forall i :: 1 <= i < |s| ==> s[1..][i - 1] == s[i];
      SortedSuffix(s[1..], p, key);
      if p(s[0]) {
        assert forall x :: x in s[1..] ==> p(x) by {
          forall x | x in s[1..] ensures p(x) {
            assert s[0] in s && x in s;
            var i :| 0 <= i < |s| - 1 && s[1..][i] == x;
          }
        }
        FilterAll(s[1..], p);
      }
    }
  }

  // ---------- concatenating the images of the elements ----------

  function FlatMap<A, B>(s: seq<A>, f: A -> seq<B>): seq<B> {
    if s == [] then [] else FlatMap(s[..|s| - 1], f) + f(s[|s| - 1])
  }

  lemma FlatMapLast<A, B>(s: seq<A>, x: A, f: A -> seq<B>)
    ensures FlatMap(s + [x], f) == FlatMap(s, f) + f(x)
  {
    assert (s + [x])[..|s|] == s;
  }

  lemma {:induction false} FlatMapConcat<A, B>(s: seq<A>, t: seq<A>, f: A -> seq<B>)
    ensures FlatMap(s + t, f) == FlatMap(s, f) + FlatMap(t, f)
  {
    if t == [] {
      assert s + t == s;
    } else {
      var t' := t[..|t| - 1];
      var x := t[|t| - 1];
      FlatMapConcat(s, t', f);
      FlatMapLast(s + t', x, f);
      assert s + t == s + t' + [x] && t == t' + [x];
      FlatMapLast(t', x, f);
      assert (FlatMap(s, f) + FlatMap(t', f)) + f(x) == FlatMap(s, f) + (FlatMap(t', f) + f(x));
    }
  }

  function Without<T>(s: seq<T>, i: nat): seq<T>
    requires i < |s|
  {
    s[..i] + s[i + 1..]
  }

  lemma FlatMapAround<A, B>(s: seq<A>, x: A, t: seq<A>, f: A -> seq<B>)
    ensures FlatMap(s + [x] + t, f) == FlatMap(s, f) + f(x) + FlatMap(t, f)
  {
    FlatMapConcat(s + [x], t, f);
    FlatMapLast(s, x, f);
  }

  lemma FlatMapWithout<A, B>(s: seq<A>, x: A, t: seq<A>, f: A -> seq<B>)
    ensures multiset(FlatMap(s + [x] + t, f)) == multiset(FlatMap(s + t, f)) + multiset(f(x))
  {
    FlatMapAround(s, x, t, f);
    FlatMapConcat(s, t, f);
    MiddlePart(FlatMap(s, f), f(x), FlatMap(t, f));
  }

  lemma MiddlePart<T>(a: seq<T>, x: seq<T>, b: seq<T>)
    ensures multiset(a + x + b) == multiset(a + b) + multiset(x)
  {
  }

  lemma WithoutKeepsOthers<T>(s: seq<T>, i: nat)
    requires i < |s| && NoRepeats(s)
    ensures NoRepeats(Without(s, i))
    ensures forall x :: x in Without(s, i) <==> x in s && x != s[i]
  {
    var t := Without(s, i);
    forall x
      ensures x in t <==> x in s && x != s[i]
    {
      if x in s && x != s[i] {
        var k :| 0 <= k < |s| && s[k] == x;
        assert t[if k < i then k else k - 1] == x;
      }
      if x in t {
        var k :| 0 <= k < |t| && t[k] == x;
        assert s[if k < i then k else k + 1] == x;
      }
    }
  }

  lemma FirstIsMember<T>(s: seq<T>)
    requires |s| > 0
    ensures s[0] in s
  {
  }

  // The same elements, in any order, have the same images.
  lemma {:induction false} FlatMapAnyOrder<A, B>(a: seq<A>, b: seq<A>, f: A -> seq<B>)
    requires NoRepeats(a) && NoRepeats(b) && forall x :: x in a <==> x in b
    ensures multiset(FlatMap(a, f)) == multiset(FlatMap(b, f))
  {
    if |a| == 0 {
      if |b| > 0 {
        FirstIsMember(b);
        assert false;
      }
    } else {
      var front, x := a[..|a| - 1], a[|a| - 1];
      assert x in b;
      var i :| 0 <= i < |b| && b[i] == x;
      assert a == front + [x] + [] && b == b[..i] + [x] + b[i + 1..];
      WithoutKeepsOthers(a, |a| - 1);
      WithoutKeepsOthers(b, i);
      assert Without(a, |a| - 1) == front + [];
      FlatMapAnyOrder(front + [], Without(b, i), f);
      FlatMapWithout(front, x, [], f);
      FlatMapWithout(b[..i], x, b[i + 1..], f);
    }
  }

  lemma {:induction false} FilterMembers<T>(s: seq<T>, p: T -> bool)
    ensures forall x :: x in Filter(s, p) <==> x in s && p(x)
  {
    if s != [] {
      FilterMembers(s[1..], p);
      assert s == [s[0]] + s[1..];
    }
  }

  lemma {:induction false} FilterNoRepeats<T>(s: seq<T>, p: T -> bool)
    requires NoRepeats(s)
    ensures NoRepeats(Filter(s, p))
  {
    if s != [] {
      assert forall i :: 1 <= i < |s| ==> s[1..][i - 1] == s[i];
      FilterNoRepeats(s[1..], p);
      FilterMembers(s[1..], p);
    }
  }

  // Elements without an image can be dropped.
  lemma {:induction false} FlatMapFilter<A, B>(s: seq<A>, p: A -> bool, f: A -> seq<B>)
    requires forall x :: x in s && !p(x) ==> f(x) == []
    ensures FlatMap(Filter(s, p), f) == FlatMap(s, f)
  {
    if s != [] {
      var x, rest := s[0], s[1..];
      FlatMapFilter(rest, p, f);
      assert s == [] + [x] + rest;
      FlatMapAround([], x, rest, f);
      if p(x) {
        assert Filter(s, p) == [] + [x] + Filter(rest, p);
        FlatMapAround([], x, Filter(rest, p), f);
      } else {
        assert x in s;
        assert Filter(s, p) == Filter(rest, p);
      }
    }
  }

  lemma {:induction false} FlatMapSame<A, B>(s: seq<A>, f: A -> seq<B>, g: A -> seq<B>)
    requires forall x :: x in s ==> f(x) == g(x)
    ensures FlatMap(s, f) == FlatMap(s, g)
  {
    if s != [] {
      FlatMapSame(s[..|s| - 1], f, g);
      assert s[|s| - 1] in s;
    }
  }

  lemma {:induction false} SetAsSequence<T>(xs: set<T>) returns (s: seq<T>)
    ensures NoRepeats(s) && forall x :: x in s <==> x in xs
  {
    s := [];
    if xs != {} {
      var x :| x in xs;
      var rest := SetAsSequence(xs - {x});
      s := rest + [x];
    }
  }

  function Flatten<T>(ss: seq<seq<T>>): seq<T> {
    if ss == [] then [] else Flatten(ss[..|ss| - 1]) + ss[|ss| - 1]
  }

  // ---------- some of the elements ----------

  // The second sequence consists of the elements that the first has at these positions, in order.
  ghost predicate Picks<T>(all: seq<T>, at: seq<int>, some: seq<T>) {
    && |some| == |at|
    && (forall k :: 0 <= k < |at| ==> 0 <= at[k] < |all| && some[k] == all[at[k]])
    && (forall k, l :: 0 <= k < l < |at| ==> at[k] < at[l])
  }

  lemma PicksMore<T>(all: seq<T>, at: seq<int>, some: seq<T>, x: T)
    requires Picks(all, at, some)
    ensures Picks(all + [x], at, some) && Picks(all + [x], at + [|all|], some + [x])
  {
  }

  lemma PicksFirst<T>(all: seq<T>, at: seq<int>, some: seq<T>, n: nat)
    requires Picks(all, at, some) && n <= |at|
    ensures Picks(all, at[..n], some[..n])
  {
  }

  // ---------- totals ----------

  function Total(ns: seq<nat>): nat {
    if ns == [] then 0 else Total(ns[..|ns| - 1]) + ns[|ns| - 1]
  }

  lemma {:induction false} TotalUpdate(ns: seq<nat>, i: nat, n: nat)
    requires i < |ns|
    ensures Total(ns[i := n]) + ns[i] == Total(ns) + n
  {
    var last := |ns| - 1;
    if i < last {
      TotalUpdate(ns[..last], i, n);
      assert ns[i := n][..last] == ns[..last][i := n];
    } else {
      assert ns[i := n][..last] == ns[..last];
    }
  }

  lemma {:induction false} TotalZero(ns: seq<nat>)
    requires forall i :: 0 <= i < |ns| ==> ns[i] == 0
    ensures Total(ns) == 0
  {
    if ns != [] {
      TotalZero(ns[..|ns| - 1]);
    }
  }

  lemma {:induction false} FlattenTotal<T>(ss: seq<seq<T>>, counts: seq<nat>, x: T)
    requires |ss| == |counts| && forall i :: 0 <= i < |ss| ==> counts[i] == multiset(ss[i])[x]
    ensures multiset(Flatten(ss))[x] == Total(counts)
  {
    if ss != [] {
      FlattenTotal(ss[..|ss| - 1], counts[..|ss| - 1], x);
    }
  }

  function Mapped<A, B>(s: seq<A>, f: A -> B): seq<B> {
    seq(|s|, i requires 0 <= i < |s| => f(s[i]))
  }

  lemma MappedConcat<A, B>(s: seq<A>, t: seq<A>, f: A -> B)
    ensures Mapped(s + t, f) == Mapped(s, f) + Mapped(t, f)
  {
  }
}
