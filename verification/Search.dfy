// The vector scan: a bounded min-heap over the eligible records, against the
// plain reading of "the best Limit scores".
module Search {
  import opened Sorting

  datatype Candidate = Candidate(ordinal: nat, sourceType: string, sourceId: string, inputHash: string, score: real)

  datatype Ref = Ref(sourceType: string, sourceId: string, inputHash: string)

  // ---- the heap ----

  ghost predicate HeapAt(s: seq<Candidate>, k: nat)
    requires 0 < k < |s|
  {
    s[(k - 1) / 2].score <= s[k].score
  }

  ghost predicate IsHeap(s: seq<Candidate>) {
    forall k :: 0 < k < |s| ==> HeapAt(s, k)
  }

  lemma {:induction false} RootIsLeast(s: seq<Candidate>, k: nat)
    requires IsHeap(s) && k < |s|
    ensures s[0].score <= s[k].score
  {
    if k > 0 {
      assert HeapAt(s, k);
      RootIsLeast(s, (k - 1) / 2);
    }
  }

  function Swap(s: seq<Candidate>, i: nat, j: nat): (r: seq<Candidate>)
    requires i < |s| && j < |s|
    ensures |r| == |s| && multiset(r) == multiset(s)
  {
    s[i := s[j]][j := s[i]]
  }

  // Heap order but for the node at i, which may be too small for its parent.
  ghost predicate RisingAt(s: seq<Candidate>, i: nat) {
    && i < |s|
    && (forall k :: 0 < k < |s| && k != i ==> HeapAt(s, k))
    && (forall k :: 0 < k < |s| && i > 0 && (k - 1) / 2 == i ==> s[(i - 1) / 2].score <= s[k].score)
  }

  // Heap order but for the node at i, which may be too large for its children.
  ghost predicate SinkingAt(s: seq<Candidate>, i: nat) {
    && i <= |s|
    && (forall k :: 0 < k < |s| && (k - 1) / 2 != i ==> HeapAt(s, k))
    && (forall k :: 0 < k < |s| && i > 0 && (k - 1) / 2 == i ==> s[(i - 1) / 2].score <= s[k].score)
  }

  lemma RiseStep(s: seq<Candidate>, i: nat)
    requires RisingAt(s, i) && i > 0 && s[i].score < s[(i - 1) / 2].score
    ensures RisingAt(Swap(s, i, (i - 1) / 2), (i - 1) / 2)
  {
    var p := (i - 1) / 2;
    var t := Swap(s, i, p);
    forall k | 0 < k < |t| && k != p ensures HeapAt(t, k) {
      assert k != i ==> HeapAt(s, k);
    }
    forall k | 0 < k < |t| && p > 0 && (k - 1) / 2 == p ensures t[(p - 1) / 2].score <= t[k].score {
      assert HeapAt(s, p);
      assert k != i ==> HeapAt(s, k);
    }
  }

  lemma SinkStep(s: seq<Candidate>, i: nat, j: nat)
    requires SinkingAt(s, i) && i < |s| && 0 < j < |s| && (j - 1) / 2 == i
    requires s[j].score < s[i].score
    requires forall k :: 0 < k < |s| && (k - 1) / 2 == i ==> s[j].score <= s[k].score
    ensures SinkingAt(Swap(s, i, j), j)
  {
    var t := Swap(s, i, j);
    forall k | 0 < k < |t| && (k - 1) / 2 != j ensures HeapAt(t, k) {
      assert (k - 1) / 2 != i ==> HeapAt(s, k);
    }
    forall k | 0 < k < |t| && j > 0 && (k - 1) / 2 == j ensures t[(j - 1) / 2].score <= t[k].score {
      assert HeapAt(s, k);
    }
  }

  class ScoredHeap {
    var items: seq<Candidate>

    ghost predicate Valid()
      reads this
    {
      IsHeap(items)
    }

    constructor ()
      ensures Valid() && items == []
    {
      items := [];
    }

    method Push(c: Candidate)
      requires Valid()
      modifies this
      ensures Valid() && multiset(items) == multiset(old(items)) + multiset{c} && |items| == |old(items)| + 1
    {
      hide IsHeap, RisingAt;
      StartRising(items, c);
      items := items + [c];
      items := Up(items, |items| - 1);
    }

    // Takes a candidate with the least score.
    method Pop() returns (least: Candidate)
      requires Valid() && items != []
      modifies this
      ensures Valid() && multiset(old(items)) == multiset(items) + multiset{least} && |items| == |old(items)| - 1
      ensures least == old(items)[0] && forall k :: 0 <= k < |items| ==> least.score <= items[k].score
    {
      hide IsHeap, SinkingAt, Swap;
      ghost var was := items;
      var last := |items| - 1;
      StartSinking(items);
      var swapped := Swap(items, 0, last);
      SwappedEnds(items, last);
      least := swapped[last];
      items := Down(swapped[..last], 0);
      RootRemoved(was, swapped, items);
    }

    static method Up(heap: seq<Candidate>, start: nat) returns (r: seq<Candidate>)
      requires RisingAt(heap, start)
      ensures IsHeap(r) && multiset(r) == multiset(heap) && |r| == |heap|
    {
      hide RisingAt, IsHeap, Swap;
      r := heap;
      var j := start;
      RisingInRange(r, j);
      while true
        invariant 0 <= j < |r| && RisingAt(r, j) && multiset(r) == multiset(heap) && |r| == |heap|
        decreases j
      {
        if j == 0 || !(r[j].score < r[(j - 1) / 2].score) {
          StopRising(r, j);
          break;
        }
        RiseStep(r, j);
        r := Swap(r, j, (j - 1) / 2);
        j := (j - 1) / 2;
      }
    }

    static method Down(heap: seq<Candidate>, start: nat) returns (r: seq<Candidate>)
      requires SinkingAt(heap, start)
      ensures IsHeap(r) && multiset(r) == multiset(heap) && |r| == |heap|
    {
      hide SinkingAt, IsHeap, Swap;
      r := heap;
      var i := start;
      while true
        invariant 0 <= i && SinkingAt(r, i) && multiset(r) == multiset(heap) && |r| == |heap|
        decreases |r| - i
      {
        var left := 2 * i + 1;
        if left >= |r| {
          StopSinking(r, i);
          break;
        }
        var j := left;
        if left + 1 < |r| && r[left + 1].score < r[left].score {
          j := left + 1;
        }
        if !(r[j].score < r[i].score) {
          StopSinking(r, i);
          break;
        }
        SinkStep(r, i, j);
        r := Swap(r, i, j);
        i := j;
      }
    }
  }

  lemma StartRising(s: seq<Candidate>, c: Candidate)
    requires IsHeap(s)
    ensures RisingAt(s + [c], |s|)
  {
    var t := s + [c];
    forall k | 0 < k < |t| && k != |s| ensures HeapAt(t, k) {
      assert HeapAt(s, k);
    }
  }

  lemma RisingInRange(s: seq<Candidate>, i: nat)
    requires RisingAt(s, i)
    ensures i < |s|
  {
  }

  lemma StopRising(s: seq<Candidate>, i: nat)
    requires RisingAt(s, i) && (i == 0 || s[(i - 1) / 2].score <= s[i].score)
    ensures IsHeap(s)
  {
  }

  lemma StartSinking(s: seq<Candidate>)
    requires IsHeap(s) && s != []
    ensures SinkingAt(Swap(s, 0, |s| - 1)[..|s| - 1], 0)
  {
    var t := Swap(s, 0, |s| - 1)[..|s| - 1];
    forall k | 0 < k < |t| && (k - 1) / 2 != 0 ensures HeapAt(t, k) {
      assert HeapAt(s, k);
    }
  }

  lemma StopSinking(s: seq<Candidate>, i: nat)
    requires SinkingAt(s, i)
    requires i < |s| ==> forall k :: 0 < k < |s| && (k - 1) / 2 == i ==> s[i].score <= s[k].score
    ensures IsHeap(s)
  {
  }

  lemma SwappedEnds(s: seq<Candidate>, last: nat)
    requires last < |s|
    ensures Swap(s, 0, last)[last] == s[0]
  {
  }

  lemma RootRemoved(was: seq<Candidate>, swapped: seq<Candidate>, after: seq<Candidate>)
    requires IsHeap(was) && was != [] && multiset(swapped) == multiset(was) && |swapped| == |was|
    requires swapped[|was| - 1] == was[0] && multiset(after) == multiset(swapped[..|was| - 1])
    ensures multiset(was) == multiset(after) + multiset{was[0]}
    ensures forall k :: 0 <= k < |after| ==> was[0].score <= after[k].score
  {
    FrontAndLast(swapped);
    forall k | 0 <= k < |after| ensures was[0].score <= after[k].score {
      assert after[k] in multiset(after);
      InOriginal(was, after[k]);
    }
  }

  lemma InOriginal(s: seq<Candidate>, c: Candidate)
    requires IsHeap(s) && s != [] && c in multiset(s)
    ensures s[0].score <= c.score
  {
    var k :| 0 <= k < |s| && s[k] == c;
    RootIsLeast(s, k);
  }

  // ---- the scan ----

  datatype Options = Options(limit: int, minimumScore: real, allowed: nat -> bool)

  function Dot(q: seq<real>, v: seq<real>): real
    requires |q| == |v|
  {
    if q == [] then 0.0 else Dot(q[..|q| - 1], v[..|v| - 1]) + q[|q| - 1] * v[|v| - 1]
  }

  method Score(q: seq<real>, v: seq<real>) returns (score: real)
    requires |q| == |v|
    ensures score == Dot(q, v)
  {
    score := 0.0;
    for d := 0 to |q|
      invariant score == Dot(q[..d], v[..d])
    {
      assert q[..d + 1][..d] == q[..d] && v[..d + 1][..d] == v[..d];
      score := score + q[d] * v[d];
    }
    assert q[..|q|] == q && v[..|v|] == v;
  }

  ghost predicate Aligned(refs: seq<Ref>, vectors: seq<seq<real>>, q: seq<real>) {
    |vectors| == |refs| && forall i :: 0 <= i < |vectors| ==> |vectors[i]| == |q|
  }

  function CandidateAt(refs: seq<Ref>, vectors: seq<seq<real>>, q: seq<real>, i: nat): Candidate
    requires i < |refs| && Aligned(refs, vectors, q)
  {
    Candidate(i, refs[i].sourceType, refs[i].sourceId, refs[i].inputHash, Dot(q, vectors[i]))
  }

  // The records the filter and the threshold let through, among the first n.
  function Eligible(refs: seq<Ref>, vectors: seq<seq<real>>, q: seq<real>, options: Options, n: nat): seq<Candidate>
    requires n <= |refs| && Aligned(refs, vectors, q)
  {
    if n == 0 then []
    else
      var before, c := Eligible(refs, vectors, q, options, n - 1), CandidateAt(refs, vectors, q, n - 1);
      if options.allowed(n - 1) && !(c.score < options.minimumScore) then before + [c] else before
  }

  // Nothing left out scores higher than anything kept.
  ghost predicate Dominates(kept: seq<Candidate>, out: multiset<Candidate>) {
    forall c, k :: c in out && 0 <= k < |kept| ==> c.score <= kept[k].score
  }

  ghost predicate Splits(kept: seq<Candidate>, out: multiset<Candidate>, all: seq<Candidate>) {
    multiset(all) == multiset(kept) + out && Dominates(kept, out)
  }

  // As many as there may be, and nothing left out scores higher.
  ghost predicate IsTop(kept: seq<Candidate>, all: seq<Candidate>, limit: nat) {
    && |kept| == (if |all| <= limit then |all| else limit)
    && exists out: multiset<Candidate> :: Splits(kept, out, all)
  }

  predicate RanksBefore(a: Candidate, b: Candidate) {
    if a.score == b.score then StringLess(a.sourceId, b.sourceId) else a.score > b.score
  }

  lemma RankOrder()
    ensures WeakOrder(RanksBefore)
  {
    forall a: Candidate, b: Candidate, c: Candidate
      ensures RanksBefore(a, b) ==> !RanksBefore(b, a)
      ensures RanksBefore(a, c) ==> RanksBefore(a, b) || RanksBefore(b, c)
    {
      StringOrder(a.sourceId, b.sourceId, c.sourceId);
    }
  }

  // One more candidate while the heap is not full.
  lemma Admit(before: seq<Candidate>, after: seq<Candidate>, out: multiset<Candidate>, all: seq<Candidate>, c: Candidate)
    requires Splits(before, out, all) && out == multiset{}
    requires multiset(after) == multiset(before) + multiset{c}
    ensures Splits(after, out, all + [c])
  {
  }

  // A candidate no better than the least kept one.
  lemma Skip(kept: seq<Candidate>, out: multiset<Candidate>, all: seq<Candidate>, c: Candidate)
    requires Splits(kept, out, all) && IsHeap(kept) && kept != [] && c.score <= kept[0].score
    ensures Splits(kept, out + multiset{c}, all + [c])
  {
    forall k | 0 <= k < |kept| ensures c.score <= kept[k].score {
      RootIsLeast(kept, k);
    }
  }

  // The least kept candidate makes room for a better one.
  lemma Replace(before: seq<Candidate>, popped: seq<Candidate>, after: seq<Candidate>, least: Candidate,
                out: multiset<Candidate>, all: seq<Candidate>, c: Candidate)
    requires Splits(before, out, all) && least.score < c.score
    requires multiset(before) == multiset(popped) + multiset{least} && multiset(after) == multiset(popped) + multiset{c}
    requires forall k :: 0 <= k < |popped| ==> least.score <= popped[k].score
    ensures Splits(after, out + multiset{least}, all + [c])
  {
    assert least in multiset(before);
    var at :| 0 <= at < |before| && before[at] == least;
    forall x, k | x in out + multiset{least} && 0 <= k < |after| ensures x.score <= after[k].score {
      assert x.score <= least.score;
      assert after[k] in multiset(after);
      if after[k] != c {
        assert after[k] in multiset(popped);
        var i :| 0 <= i < |popped| && popped[i] == after[k];
      }
    }
  }

  method Search(refs: seq<Ref>, vectors: seq<seq<real>>, q: seq<real>, options: Options) returns (result: seq<Candidate>)
    requires Aligned(refs, vectors, q)
    ensures options.limit <= 0 ==> result == []
    ensures options.limit > 0 ==> IsTop(result, Eligible(refs, vectors, q, options, |refs|), options.limit)
    ensures SortedBy(result, RanksBefore)
  {
    if options.limit <= 0 || |refs| == 0 {
      result := [];
      if options.limit > 0 {
        assert Splits([], multiset{}, Eligible(refs, vectors, q, options, |refs|));
      }
      return;
    }
    var top, out := Scan(refs, vectors, q, options);
    ghost var kept := top.items;
    var drained := Drain(top);
    RankOrder();
    SortIsSorted(drained, RanksBefore);
    result := Sort(drained, RanksBefore);
    SameMembers(kept, result, out, Eligible(refs, vectors, q, options, |refs|));
  }

  lemma SameMembers(kept: seq<Candidate>, result: seq<Candidate>, out: multiset<Candidate>, all: seq<Candidate>)
    requires Splits(kept, out, all) && multiset(kept) == multiset(result)
    ensures Splits(result, out, all)
  {
    forall k | 0 <= k < |result| ensures exists i :: 0 <= i < |kept| && kept[i] == result[k] {
      assert result[k] in multiset(kept);
    }
  }

  method Scan(refs: seq<Ref>, vectors: seq<seq<real>>, q: seq<real>, options: Options)
    returns (top: ScoredHeap, ghost out: multiset<Candidate>)
    requires Aligned(refs, vectors, q) && options.limit > 0
    ensures fresh(top) && top.Valid()
    ensures var all := Eligible(refs, vectors, q, options, |refs|);
            Splits(top.items, out, all) && |top.items| == if |all| <= options.limit then |all| else options.limit
  {
    hide Splits, Dominates, IsHeap;
    top := new ScoredHeap();
    out := multiset{};
    NothingYet();
    var i := 0;
    while i < |refs|
      invariant 0 <= i <= |refs| && fresh(top) && top.Valid()
      invariant var all := Eligible(refs, vectors, q, options, i);
                && Splits(top.items, out, all)
                && |top.items| == (if |all| <= options.limit then |all| else options.limit)
                && (|top.items| < options.limit ==> out == multiset{})
    {
      ghost var all := Eligible(refs, vectors, q, options, i);
      i := i + 1;
      if !options.allowed(i - 1) {
        continue;
      }
      var score := Score(q, vectors[i - 1]);
      if score < options.minimumScore {
        continue;
      }
      var c := Candidate(i - 1, refs[i - 1].sourceType, refs[i - 1].sourceId, refs[i - 1].inputHash, score);
      if |top.items| < options.limit {
        ghost var before := top.items;
        top.Push(c);
        Admit(before, top.items, out, all, c);
      } else if score > top.items[0].score {
        ghost var before := top.items;
        var least := top.Pop();
        ghost var popped := top.items;
        top.Push(c);
        Replace(before, popped, top.items, least, out, all, c);
        out := out + multiset{least};
      } else {
        Skip(top.items, out, all, c);
        out := out + multiset{c};
      }
    }
  }

  lemma NothingYet()
    ensures Splits([], multiset{}, [])
  {
  }

  // Drained so far: falling scores, none above what is still in the heap.
  ghost predicate DrainedBelow(done: seq<Candidate>, items: seq<Candidate>) {
    && (forall i, j :: 0 <= i < j < |done| ==> done[i].score >= done[j].score)
    && (forall j, k :: 0 <= j < |done| && 0 <= k < |items| ==> done[j].score <= items[k].score)
  }

  lemma DrainStep(done: seq<Candidate>, before: seq<Candidate>, after: seq<Candidate>, least: Candidate)
    requires DrainedBelow(done, before) && multiset(before) == multiset(after) + multiset{least}
    requires forall k :: 0 <= k < |after| ==> least.score <= after[k].score
    ensures DrainedBelow([least] + done, after)
  {
    assert least in multiset(before);
    var at :| 0 <= at < |before| && before[at] == least;
    forall j, k | 0 <= j < |done| && 0 <= k < |after| ensures done[j].score <= after[k].score {
      assert after[k] in multiset(after) && after[k] in multiset(before);
      var n :| 0 <= n < |before| && before[n] == after[k];
    }
  }

  // Filling from the back, least first.
  method Drain(top: ScoredHeap) returns (result: seq<Candidate>)
    requires top.Valid()
    modifies top
    ensures multiset(result) == multiset(old(top.items))
    ensures DrainedBelow(result, [])
  {
    hide IsHeap;
    var filled := new Candidate[|top.items|];
    var i := |top.items| - 1;
    assert DrainedBelow([], top.items);
    hide DrainedBelow;
    while i >= 0
      invariant -1 <= i < filled.Length && |top.items| == i + 1 && top.Valid()
      invariant multiset(filled[i + 1..]) + multiset(top.items) == multiset(old(top.items))
      invariant DrainedBelow(filled[i + 1..], top.items)
    {
      ghost var before, done := top.items, filled[i + 1..];
      var least := top.Pop();
      DrainStep(done, before, top.items, least);
      filled[i] := least;
      assert filled[i..] == [least] + done;
      i := i - 1;
    }
    result := filled[..];
    assert filled[i + 1..] == result && top.items == [];
  }

  // ---- against the plain reading ----

  function Scores(s: seq<Candidate>): (r: seq<real>)
    ensures |r| == |s| && forall i :: 0 <= i < |s| ==> r[i] == s[i].score
  {
    seq(|s|, i requires 0 <= i < |s| => s[i].score)
  }

  ghost predicate Descending(s: seq<real>) {
    forall i, j :: 0 <= i < j < |s| ==> s[i] >= s[j]
  }

  lemma {:induction false} ScoresOfPermutation(a: seq<Candidate>, b: seq<Candidate>)
    requires multiset(a) == multiset(b)
    ensures multiset(Scores(a)) == multiset(Scores(b))
    decreases |a|
  {
    SameSize(a, b);
    hide Scores;
    if a == [] {
      assert a == b;
    } else {
      var last := |a| - 1;
      var p := a[..last] + a[last + 1..];
      var i := SameWithout(a, last, b);
      ScoresOfPermutation(p, b[..i] + b[i + 1..]);
      ScoresWithout(a, last);
      ScoresWithout(b, i);
    }
  }

  // Taking one element out of each of two permutations.
  lemma SameWithout<T>(a: seq<T>, k: nat, b: seq<T>) returns (i: nat)
    requires k < |a| && multiset(a) == multiset(b)
    ensures i < |b| && b[i] == a[k] && multiset(a[..k] + a[k + 1..]) == multiset(b[..i] + b[i + 1..])
  {
    assert a[k] in multiset(a);
    i :| 0 <= i < |b| && b[i] == a[k];
    WithoutOne(a, k);
    WithoutOne(b, i);
    SameRest(multiset(a[..k] + a[k + 1..]), multiset(b[..i] + b[i + 1..]), a[k]);
  }

  lemma ScoresWithout(s: seq<Candidate>, i: nat)
    requires i < |s|
    ensures multiset(Scores(s)) == multiset(Scores(s[..i] + s[i + 1..])) + multiset{s[i].score}
  {
    WithoutOne(Scores(s), i);
    assert Scores(s)[..i] + Scores(s)[i + 1..] == Scores(s[..i] + s[i + 1..]);
  }

  lemma WithoutOne<T>(s: seq<T>, i: nat)
    requires i < |s|
    ensures multiset(s) == multiset(s[..i] + s[i + 1..]) + multiset{s[i]}
  {
    assert s == s[..i] + [s[i]] + s[i + 1..];
  }

  ghost function Listed(m: multiset<Candidate>): (s: seq<Candidate>)
    ensures multiset(s) == m
  {
    if m == multiset{} then []
    else
      var c :| c in m;
      Listed(m - multiset{c}) + [c]
  }

  predicate Higher(x: real, y: real) {
    x > y
  }

  // The returned scores are the first of all eligible scores put in descending
  // order: the heap loses none of them to a lower one.
  lemma SearchFindsTheBestScores(result: seq<Candidate>, all: seq<Candidate>, limit: nat)
    requires IsTop(result, all, limit) && SortedBy(result, RanksBefore)
    ensures |result| <= |all| == |Sort(all, RanksBefore)|
    ensures Scores(result) == Scores(Sort(all, RanksBefore))[..|result|]
  {
    RankOrder();
    SortIsSorted(all, RanksBefore);
    SameSize(all, Sort(all, RanksBefore));
    hide Splits, RanksBefore, WeakOrder, SortedBy, Sort;
    var out: multiset<Candidate> :| Splits(result, out, all);
    var left := Sort(Listed(out), RanksBefore);
    SortIsSorted(Listed(out), RanksBefore);
    SameScores(result, left, out, all);
    assert Scores(result + left)[..|result|] == Scores(result);
  }

  lemma SameScores(result: seq<Candidate>, left: seq<Candidate>, out: multiset<Candidate>, all: seq<Candidate>)
    requires WeakOrder(RanksBefore) && Splits(result, out, all) && multiset(left) == out
    requires SortedBy(result, RanksBefore) && SortedBy(left, RanksBefore)
    ensures Scores(result + left) == Scores(Sort(all, RanksBefore))
  {
    SortIsSorted(all, RanksBefore);
    hide Splits, RanksBefore, WeakOrder, SortedBy, Sort, Descending, Scores;
    var best := Sort(all, RanksBefore);
    ScoresDescend(best);
    Joined(result, left, out, all);
    ScoresOfPermutation(result + left, best);
    OneDescendingOrder(Scores(result + left), Scores(best));
  }

  lemma OneDescendingOrder(a: seq<real>, b: seq<real>)
    requires Descending(a) && Descending(b) && multiset(a) == multiset(b)
    ensures a == b
  {
    SortedIsUnique(a, b, Higher);
  }

  lemma ScoresDescend(s: seq<Candidate>)
    requires SortedBy(s, RanksBefore)
    ensures Descending(Scores(s))
  {
    var scores := Scores(s);
    forall i, j | 0 <= i < j < |s| ensures scores[i] >= scores[j] {
      assert !RanksBefore(s[j], s[i]);
    }
  }

  lemma Joined(kept: seq<Candidate>, left: seq<Candidate>, out: multiset<Candidate>, all: seq<Candidate>)
    requires Splits(kept, out, all) && multiset(left) == out
    requires SortedBy(kept, RanksBefore) && SortedBy(left, RanksBefore)
    ensures Descending(Scores(kept + left)) && multiset(kept + left) == multiset(all)
  {
    ScoresDescend(kept);
    ScoresDescend(left);
    var scores := Scores(kept + left);
    forall i, j | 0 <= i < j < |scores| ensures scores[i] >= scores[j] {
      if i < |kept| <= j {
        assert left[j - |kept|] in multiset(left);
      } else if j < |kept| {
        assert scores[i] == Scores(kept)[i] && scores[j] == Scores(kept)[j];
      } else {
        assert scores[i] == Scores(left)[i - |kept|] && scores[j] == Scores(left)[j - |kept|];
      }
    }
  }

  // ---- what is eligible, and what a score is ----

  // A candidate is a record the filter allows whose score is not below the
  // threshold, under its own place, names and score.
  lemma {:induction false} EligibleIff(
    refs: seq<Ref>, vectors: seq<seq<real>>, q: seq<real>, options: Options, n: nat, c: Candidate)
    requires n <= |refs| && Aligned(refs, vectors, q)
    ensures c in Eligible(refs, vectors, q, options, n) <==>
            && c.ordinal < n && options.allowed(c.ordinal)
            && c.sourceType == refs[c.ordinal].sourceType && c.sourceId == refs[c.ordinal].sourceId
            && c.inputHash == refs[c.ordinal].inputHash
            && c.score == Dot(q, vectors[c.ordinal]) && c.score >= options.minimumScore
    decreases n
  {
    if n > 0 {
      EligibleIff(refs, vectors, q, options, n - 1, c);
    }
  }

  // A score is the sum of the products: nothing for the zero vector, and each
  // component counts by the query's component at its place.
  lemma {:induction false} DotOfZeros(q: seq<real>, v: seq<real>)
    requires |q| == |v| && forall i :: 0 <= i < |v| ==> v[i] == 0.0
    ensures Dot(q, v) == 0.0
    decreases |q|
  {
    if q != [] {
      DotOfZeros(q[..|q| - 1], v[..|v| - 1]);
    }
  }

  lemma {:induction false} DotByComponent(q: seq<real>, v: seq<real>, i: nat, x: real)
    requires |q| == |v| && i < |q|
    ensures Dot(q, v[i := x]) == Dot(q, v) + q[i] * (x - v[i])
    decreases |q|
  {
    var n := |q| - 1;
    if i < n {
      DotByComponent(q[..n], v[..n], i, x);
      assert v[i := x][..n] == v[..n][i := x];
    } else {
      assert v[i := x][..n] == v[..n];
    }
  }

  // Results come by score, the highest first, and of equal scores the smaller
  // source id first.
  lemma ResultsByScore(result: seq<Candidate>, i: nat, j: nat)
    requires SortedBy(result, RanksBefore) && i < j < |result|
    ensures result[i].score > result[j].score
            || (result[i].score == result[j].score && !StringLess(result[j].sourceId, result[i].sourceId))
  {
    assert !RanksBefore(result[j], result[i]);
  }
}
