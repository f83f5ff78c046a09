// Sorting by a strict order, and when the outcome is determined.
module Sorting {
  ghost predicate WeakOrder<T(!new)>(less: (T, T) -> bool) {
    && (forall a, b :: less(a, b) ==> !less(b, a))
    && (forall a, b, c :: less(a, c) ==> less(a, b) || less(b, c))
  }

  ghost predicate SortedBy<T>(s: seq<T>, less: (T, T) -> bool) {
    forall i, j :: 0 <= i < j < |s| ==> !less(s[j], s[i])
  }

  // After everything it is not smaller than.
  function Insert<T>(s: seq<T>, x: T, less: (T, T) -> bool): seq<T> {
    if s == [] || !less(x, s[|s| - 1]) then s + [x]
    else Insert(s[..|s| - 1], x, less) + [s[|s| - 1]]
  }

  function Sort<T>(s: seq<T>, less: (T, T) -> bool): seq<T> {
    if s == [] then [] else Insert(Sort(s[..|s| - 1], less), s[|s| - 1], less)
  }

  lemma AppendSorted<T(!new)>(s: seq<T>, x: T, less: (T, T) -> bool)
    requires SortedBy(s, less) && forall i :: 0 <= i < |s| ==> !less(x, s[i])
    ensures SortedBy(s + [x], less)
  {
  }

  lemma NotBelowLast<T(!new)>(s: seq<T>, x: T, less: (T, T) -> bool)
    requires WeakOrder(less) && SortedBy(s, less) && (s == [] || !less(x, s[|s| - 1]))
    ensures forall i :: 0 <= i < |s| ==> !less(x, s[i])
  {
    forall i | 0 <= i < |s| ensures !less(x, s[i]) {
      NotBelow(s[i], s[|s| - 1], x, less);
    }
  }

  lemma NotBelow<T(!new)>(a: T, b: T, c: T, less: (T, T) -> bool)
    requires WeakOrder(less) && !less(c, b) && (a == b || !less(b, a))
    ensures !less(c, a)
  {
  }

  lemma FrontAndLast<T>(s: seq<T>)
    requires s != []
    ensures multiset(s) == multiset(s[..|s| - 1]) + multiset{s[|s| - 1]}
  {
    assert s == s[..|s| - 1] + [s[|s| - 1]];
  }

  lemma {:induction false} InsertKeeps<T(!new)>(s: seq<T>, x: T, less: (T, T) -> bool)
    requires WeakOrder(less) && SortedBy(s, less)
    ensures SortedBy(Insert(s, x, less), less)
    ensures multiset(Insert(s, x, less)) == multiset(s) + multiset{x}
    decreases |s|
  {
    if s == [] || !less(x, s[|s| - 1]) {
      NotBelowLast(s, x, less);
      AppendSorted(s, x, less);
    } else {
      var front, last := s[..|s| - 1], s[|s| - 1];
      assert less(x, last) && !less(last, x);
      hide WeakOrder;
      InsertKeeps(front, x, less);
      var t := Insert(front, x, less);
      FrontAndLast(s);
      forall i | 0 <= i < |t| ensures !less(last, t[i]) {
        OneOf(front, x, t, i);
      }
      AppendSorted(t, last, less);
    }
  }

  lemma OneOf<T>(front: seq<T>, x: T, t: seq<T>, i: nat)
    requires multiset(t) == multiset(front) + multiset{x} && i < |t|
    ensures t[i] == x || exists k :: 0 <= k < |front| && front[k] == t[i]
  {
    assert t[i] in multiset(t);
  }

  lemma {:induction false} SortIsSorted<T(!new)>(s: seq<T>, less: (T, T) -> bool)
    requires WeakOrder(less)
    ensures SortedBy(Sort(s, less), less)
    ensures multiset(Sort(s, less)) == multiset(s)
    ensures |Sort(s, less)| == |s|
    decreases |s|
  {
    if s != [] {
      SortIsSorted(s[..|s| - 1], less);
      InsertKeeps(Sort(s[..|s| - 1], less), s[|s| - 1], less);
      assert s == s[..|s| - 1] + [s[|s| - 1]];
    }
    SameSize(Sort(s, less), s);
  }

  lemma SameSize<T>(a: seq<T>, b: seq<T>)
    requires multiset(a) == multiset(b)
    ensures |a| == |b|
  {
    assert |multiset(a)| == |multiset(b)|;
  }

  // Any two elements in the sequence that the order does not separate are one.
  ghost predicate TotalOn<T>(s: seq<T>, less: (T, T) -> bool) {
    forall a, b :: a in s && b in s && a != b ==> less(a, b) || less(b, a)
  }

  // Under a total order there is only one sorted arrangement.
  lemma {:induction false} SortedIsUnique<T(!new)>(a: seq<T>, b: seq<T>, less: (T, T) -> bool)
    requires WeakOrder(less) && TotalOn(a, less)
    requires SortedBy(a, less) && SortedBy(b, less) && multiset(a) == multiset(b)
    ensures a == b
    decreases |a|
  {
    hide WeakOrder, SortedBy, TotalOn;
    SameSize(a, b);
    if a != [] {
      var p, q, x := a[..|a| - 1], b[..|b| - 1], a[|a| - 1];
      LastsAgree(a, b, less);
      FrontAndLast(a);
      FrontAndLast(b);
      SameRest(multiset(p), multiset(q), x);
      FrontSorted(a, less);
      FrontSorted(b, less);
      SortedIsUnique(p, q, less);
      assert a == p + [x] && b == q + [x];
    }
  }

  lemma SameRest<T>(p: multiset<T>, q: multiset<T>, x: T)
    requires p + multiset{x} == q + multiset{x}
    ensures p == q
  {
    assert p == p + multiset{x} - multiset{x} && q == q + multiset{x} - multiset{x};
  }

  lemma FrontSorted<T(!new)>(a: seq<T>, less: (T, T) -> bool)
    requires a != [] && SortedBy(a, less)
    ensures SortedBy(a[..|a| - 1], less) && (TotalOn(a, less) ==> TotalOn(a[..|a| - 1], less))
  {
  }

  lemma LastsAgree<T(!new)>(a: seq<T>, b: seq<T>, less: (T, T) -> bool)
    requires WeakOrder(less) && TotalOn(a, less) && a != [] && b != []
    requires SortedBy(a, less) && SortedBy(b, less) && multiset(a) == multiset(b)
    ensures a[|a| - 1] == b[|b| - 1]
  {
    LargestIsLast(a, b, less);
    LargestIsLast(b, a, less);
  }

  lemma LargestIsLast<T(!new)>(a: seq<T>, b: seq<T>, less: (T, T) -> bool)
    requires WeakOrder(less) && SortedBy(b, less) && multiset(a) == multiset(b) && a != [] && b != []
    ensures !less(b[|b| - 1], a[|a| - 1]) && a[|a| - 1] in b && b[|b| - 1] in a
  {
    var x := a[|a| - 1];
    assert x in multiset(b) && b[|b| - 1] in multiset(a);
    var i :| 0 <= i < |b| && b[i] == x;
  }

  // So the result of sorting does not depend on the order of the input.
  lemma SortIgnoresInputOrder<T(!new)>(a: seq<T>, b: seq<T>, less: (T, T) -> bool)
    requires WeakOrder(less) && TotalOn(a, less) && multiset(a) == multiset(b)
    ensures Sort(a, less) == Sort(b, less)
  {
    SortIsSorted(a, less);
    SortIsSorted(b, less);
    var s := Sort(a, less);
    forall x | x in s ensures x in a {
      assert x in multiset(s);
    }
    SortedIsUnique(s, Sort(b, less), less);
  }

  // ---- byte-wise string order ----

  predicate StringLess(a: string, b: string) {
    if b == "" then false
    else if a == "" then true
    else if a[0] != b[0] then a[0] < b[0]
    else StringLess(a[1..], b[1..])
  }

  lemma {:induction false} StringOrder(a: string, b: string, c: string)
    ensures StringLess(a, b) ==> !StringLess(b, a)
    ensures StringLess(a, c) ==> StringLess(a, b) || StringLess(b, c)
    ensures a != b ==> StringLess(a, b) || StringLess(b, a)
    decreases |a| + |b| + |c|
  {
    if a != "" && b != "" {
      StringOrder(a[1..], b[1..], if c == "" then "" else c[1..]);
      if a[0] == b[0] && a[1..] == b[1..] {
        assert a == [a[0]] + a[1..] && b == [b[0]] + b[1..];
      }
    }
  }

  // One string is less than another when it ends first, or holds the smaller
  // character at the first place where they differ.
  lemma {:induction false} StringLessAt(a: string, b: string, k: nat)
    requires k <= |a| && k < |b| && a[..k] == b[..k] && (k == |a| || a[k] < b[k])
    ensures StringLess(a, b) && !StringLess(b, a)
    decreases k
  {
    StringOrder(a, b, a);
    if k > 0 {
      assert a[0] == a[..k][0] == b[..k][0] == b[0];
      assert a[1..][..k - 1] == a[..k][1..] == b[..k][1..] == b[1..][..k - 1];
      StringLessAt(a[1..], b[1..], k - 1);
    }
  }
}
