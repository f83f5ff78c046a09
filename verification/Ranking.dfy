// Ranking search results: the lexicographic key, reciprocal-rank fusion, and the
// cut that spares identity memories.
module Ranking {
  import opened Memory
  import opened Sorting

  const IDENTITY_HITS_MAX := 20
  const MATCH_CONTENT := 3
  const MATCH_SUBJECT := 4

  predicate IdentityKind(kind: string) {
    kind == "USER_PREFERENCE" || kind == "PERSONAL_GOAL" || kind == "PERSONAL_CONSTRAINT"
  }

  // ---- the key ----

  datatype RankKey = RankKey(
    scopeEligible: int, matchClass: int, identityGlobal: int, strength: real, confidence: real, validity: int,
    activation: real, importance: real, updatedAt: int, memoryId: string)

  predicate LessKey(a: RankKey, b: RankKey) {
    if a.scopeEligible != b.scopeEligible then a.scopeEligible > b.scopeEligible
    else if a.matchClass != b.matchClass then a.matchClass > b.matchClass
    else if a.identityGlobal != b.identityGlobal then a.identityGlobal > b.identityGlobal
    else if a.strength != b.strength then a.strength > b.strength
    else if a.confidence != b.confidence then a.confidence > b.confidence
    else if a.validity != b.validity then a.validity > b.validity
    else if a.activation != b.activation then a.activation > b.activation
    else if a.importance != b.importance then a.importance > b.importance
    else if a.updatedAt != b.updatedAt then a.updatedAt > b.updatedAt
    else StringLess(a.memoryId, b.memoryId)
  }

  // A strict order in which two different keys are never tied.
  lemma KeyOrder(a: RankKey, b: RankKey, c: RankKey)
    ensures LessKey(a, b) ==> !LessKey(b, a)
    ensures LessKey(a, c) ==> LessKey(a, b) || LessKey(b, c)
    ensures a != b ==> LessKey(a, b) || LessKey(b, a)
  {
    StringOrder(a.memoryId, b.memoryId, c.memoryId);
  }

  function ConfidenceFactor(confidence: real, disputed: bool): real {
    if disputed then 0.25
    else if confidence >= 0.9 then 1.0
    else if confidence >= 0.7 then 0.85
    else if confidence >= 0.5 then 0.6
    else if confidence >= 0.3 then 0.4
    else 0.25
  }

  datatype Match = Match(matchClass: int, strength: real)

  // decay: the cooled activation of a row of that activation and importance
  // after so many sessions.
  function RankKeyFor(decay: (real, int, real) -> real, row: MemoryRow, m: Match, sessionsSince: int): RankKey {
    var activation := if IdentityKind(row.kind) then row.runtime.activation
                      else decay(row.runtime.activation, sessionsSince, row.importance);
    var validity := if row.lifecycle == ACTIVE then (if row.runtime.disputed then 1 else 2)
                    else if row.lifecycle == SUPERSEDED then 1 else 0;
    var identityGlobal := if IdentityKind(row.kind) then (if row.scopeType == "GLOBAL" then 2 else 1) else 0;
    RankKey(1, m.matchClass, identityGlobal, m.strength, ConfidenceFactor(row.runtime.confidence, row.runtime.disputed),
            validity, activation, row.importance, row.updatedAt, row.memoryId)
  }

  // Confidence never counts against a row, and a dispute always does.
  lemma DisputeAndDoubtLowerARow(
    decay: (real, int, real) -> real, row: MemoryRow, m: Match, sessionsSince: int, confidence: real)
    requires row.lifecycle == ACTIVE && !row.runtime.disputed && confidence <= row.runtime.confidence
    ensures var disputed := row.(runtime := row.runtime.(disputed := true));
            LessKey(RankKeyFor(decay, row, m, sessionsSince), RankKeyFor(decay, disputed, m, sessionsSince))
    ensures var doubted := row.(runtime := row.runtime.(confidence := confidence));
            !LessKey(RankKeyFor(decay, doubted, m, sessionsSince), RankKeyFor(decay, row, m, sessionsSince))
  {
    StringOrder(row.memoryId, row.memoryId, row.memoryId);
  }

  // ---- what outranks what ----

  // How far a row is about the person: everywhere, in one project, or not.
  predicate Personal(row: MemoryRow) {
    row.kind == "USER_PREFERENCE" || row.kind == "PERSONAL_GOAL" || row.kind == "PERSONAL_CONSTRAINT"
  }

  ghost predicate Tier(row: MemoryRow, tier: int) {
    && (Personal(row) && row.scopeType == "GLOBAL" ==> tier == 2)
    && (Personal(row) && row.scopeType != "GLOBAL" ==> tier == 1)
    && (!Personal(row) ==> tier == 0)
  }

  // ACTIVE and undisputed, then active but disputed or superseded, then the rest.
  ghost predicate Standing(row: MemoryRow, standing: int) {
    && (row.lifecycle == "ACTIVE" && !row.runtime.disputed ==> standing == 2)
    && ((row.lifecycle == "ACTIVE" && row.runtime.disputed) || row.lifecycle == "SUPERSEDED" ==> standing == 1)
    && (row.lifecycle != "ACTIVE" && row.lifecycle != "SUPERSEDED" ==> standing == 0)
  }

  // Confidence counts by bands, and a disputed row is in the lowest.
  ghost predicate Banded(row: MemoryRow, band: real) {
    var c := row.runtime.confidence;
    && (row.runtime.disputed || c < 0.3 ==> band == 0.25)
    && (!row.runtime.disputed && 0.3 <= c < 0.5 ==> band == 0.4)
    && (!row.runtime.disputed && 0.5 <= c < 0.7 ==> band == 0.6)
    && (!row.runtime.disputed && 0.7 <= c < 0.9 ==> band == 0.85)
    && (!row.runtime.disputed && 0.9 <= c ==> band == 1.0)
  }

  // A personal memory does not cool.
  ghost predicate Warmth(decay: (real, int, real) -> real, row: MemoryRow, sessionsSince: int, warmth: real) {
    warmth == if Personal(row) then row.runtime.activation else decay(row.runtime.activation, sessionsSince, row.importance)
  }

  // Of two memories matched by a query the better match comes first, then the
  // more personal, the stronger match, the more credible, the better standing,
  // the warmer, the more important, the newer, and at last the smaller id.
  lemma WhatOutranksWhat(
    decay: (real, int, real) -> real, x: MemoryRow, y: MemoryRow, m: Match, n: Match, since: int, ago: int,
    tier: int, lower: int, band: real, below: real, standing: int, under: int, warmth: real, cooler: real)
    requires Tier(x, tier) && Banded(x, band) && Standing(x, standing) && Warmth(decay, x, since, warmth)
    requires Tier(y, lower) && Banded(y, below) && Standing(y, under) && Warmth(decay, y, ago, cooler)
    ensures var first := LessKey(RankKeyFor(decay, x, m, since), RankKeyFor(decay, y, n, ago));
            var matched := m.matchClass == n.matchClass;
            var personal := matched && tier == lower;
            var strong := personal && m.strength == n.strength;
            var credible := strong && band == below;
            var standing_ := credible && standing == under;
            var warm := standing_ && warmth == cooler;
            var important := warm && x.importance == y.importance;
            var recent := important && x.updatedAt == y.updatedAt;
            && (m.matchClass > n.matchClass ==> first)
            && (matched && tier > lower ==> first)
            && (personal && m.strength > n.strength ==> first)
            && (strong && band > below ==> first)
            && (credible && standing > under ==> first)
            && (standing_ && warmth > cooler ==> first)
            && (warm && x.importance > y.importance ==> first)
            && (important && x.updatedAt > y.updatedAt ==> first)
            && (recent ==> (first <==> StringLess(x.memoryId, y.memoryId)))
  {
  }

  // ---- sorted hits ----

  datatype Hit = Hit(memoryId: string, kind: string, matchClass: int)

  datatype Ranked = Ranked(key: RankKey, hit: Hit)

  function Id(r: Ranked): string {
    r.key.memoryId
  }

  predicate ByKey(a: Ranked, b: Ranked) {
    LessKey(a.key, b.key)
  }

  ghost predicate DistinctIds(s: seq<Ranked>) {
    forall i, j :: 0 <= i < j < |s| ==> Id(s[i]) != Id(s[j])
  }

  lemma ByKeyIsTotal(s: seq<Ranked>)
    ensures WeakOrder(ByKey) && (DistinctIds(s) ==> TotalOn(s, ByKey))
  {
    forall a: Ranked, b: Ranked, c: Ranked
      ensures ByKey(a, b) ==> !ByKey(b, a)
      ensures ByKey(a, c) ==> ByKey(a, b) || ByKey(b, c)
      ensures a.key != b.key ==> ByKey(a, b) || ByKey(b, a)
    {
      KeyOrder(a.key, b.key, c.key);
    }
  }

  // The ranking of a set of candidates does not depend on the order in which
  // they were gathered.
  lemma RankingIgnoresGatheringOrder(a: seq<Ranked>, b: seq<Ranked>)
    requires DistinctIds(a) && multiset(a) == multiset(b)
    ensures Sort(a, ByKey) == Sort(b, ByKey)
  {
    ByKeyIsTotal(a);
    SortIgnoresInputOrder(a, b, ByKey);
  }

  // ---- fusion ----

  datatype Fused = Fused(candidate: Ranked, score: real)

  function Share(weight: real, position: nat): real {
    weight / (61 + position) as real
  }

  function WithLexical(m: map<string, Fused>, c: Ranked, position: nat, weight: real): map<string, Fused> {
    m[Id(c) := Fused(c, Share(weight, position))]
  }

  function WithSemantic(m: map<string, Fused>, c: Ranked, position: nat, weight: real): map<string, Fused> {
    if Id(c) !in m then m[Id(c) := Fused(c, Share(weight, position))]
    else
      var best := if LessKey(c.key, m[Id(c)].candidate.key) then c else m[Id(c)].candidate;
      m[Id(c) := Fused(best, m[Id(c)].score + Share(weight, position))]
  }

  function LexicalEntries(lexical: seq<Ranked>, weight: real): map<string, Fused> {
    if lexical == [] then map[]
    else WithLexical(LexicalEntries(lexical[..|lexical| - 1], weight), lexical[|lexical| - 1], |lexical| - 1, weight)
  }

  function Entries(lexical: seq<Ranked>, semantic: seq<Ranked>, lw: real, sw: real): map<string, Fused> {
    if semantic == [] then LexicalEntries(lexical, lw)
    else WithSemantic(Entries(lexical, semantic[..|semantic| - 1], lw, sw), semantic[|semantic| - 1], |semantic| - 1, sw)
  }

  predicate FusedBefore(a: Fused, b: Fused) {
    if a.score == b.score then LessKey(a.candidate.key, b.candidate.key) else a.score > b.score
  }

  // The values of a map in some order, each once.
  ghost predicate Lists(out: seq<Fused>, m: map<string, Fused>) {
    && (forall i :: 0 <= i < |out| ==> Id(out[i].candidate) in m && m[Id(out[i].candidate)] == out[i])
    && (forall id :: id in m ==> exists i :: 0 <= i < |out| && Id(out[i].candidate) == id)
    && (forall i, j :: 0 <= i < j < |out| ==> Id(out[i].candidate) != Id(out[j].candidate))
  }

  function Candidates(out: seq<Fused>): (r: seq<Ranked>)
    ensures |r| == |out| && forall i :: 0 <= i < |r| ==> r[i] == out[i].candidate
  {
    seq(|out|, i requires 0 <= i < |out| => out[i].candidate)
  }

  ghost predicate Ordered(out: seq<Fused>, m: map<string, Fused>) {
    Lists(out, m) && SortedBy(out, FusedBefore)
  }

  ghost predicate IsFusion(result: seq<Ranked>, lexical: seq<Ranked>, semantic: seq<Ranked>, lw: real, sw: real) {
    exists out: seq<Fused> :: Ordered(out, Entries(Sort(lexical, ByKey), semantic, lw, sw)) && result == Candidates(out)
  }

  lemma FusedOrder()
    ensures WeakOrder(FusedBefore)
  {
    forall a: Fused, b: Fused, c: Fused
      ensures FusedBefore(a, b) ==> !FusedBefore(b, a)
      ensures FusedBefore(a, c) ==> FusedBefore(a, b) || FusedBefore(b, c)
    {
      KeyOrder(a.candidate.key, b.candidate.key, c.candidate.key);
    }
  }

  method Fuse(lexical: seq<Ranked>, semantic: seq<Ranked>, lw: real, sw: real) returns (result: seq<Ranked>)
    ensures IsFusion(result, lexical, semantic, lw, sw)
  {
    var byId := Gather(Sort(lexical, ByKey), semantic, lw, sw);
    EntriesAreKeyed(Sort(lexical, ByKey), semantic, lw, sw);
    var out := Values(byId);
    FusedOrder();
    SortIsSorted(out, FusedBefore);
    SortedStillLists(out, Sort(out, FusedBefore), byId);
    out := Sort(out, FusedBefore);
    result := Candidates(out);
  }

  method Gather(lexical: seq<Ranked>, semantic: seq<Ranked>, lw: real, sw: real) returns (byId: map<string, Fused>)
    ensures byId == Entries(lexical, semantic, lw, sw)
  {
    byId := map[];
    for i := 0 to |lexical|
      invariant byId == LexicalEntries(lexical[..i], lw)
    {
      assert lexical[..i + 1][..i] == lexical[..i];
      byId := byId[Id(lexical[i]) := Fused(lexical[i], lw / (60 + i + 1) as real)];
    }
    assert lexical[..|lexical|] == lexical;
    for i := 0 to |semantic|
      invariant byId == Entries(lexical, semantic[..i], lw, sw)
    {
      assert semantic[..i + 1][..i] == semantic[..i];
      var candidate := semantic[i];
      var entry := Fused(candidate, 0.0);
      if Id(candidate) in byId {
        entry := byId[Id(candidate)];
        if LessKey(candidate.key, entry.candidate.key) {
          entry := entry.(candidate := candidate);
        }
      }
      byId := byId[Id(candidate) := entry.(score := entry.score + sw / (60 + i + 1) as real)];
    }
    assert semantic[..|semantic|] == semantic;
  }

  ghost predicate Keyed(m: map<string, Fused>) {
    forall id :: id in m ==> Id(m[id].candidate) == id
  }

  lemma {:induction false} EntriesAreKeyed(lexical: seq<Ranked>, semantic: seq<Ranked>, lw: real, sw: real)
    ensures Keyed(Entries(lexical, semantic, lw, sw))
    decreases |lexical| + |semantic|
  {
    if semantic != [] {
      EntriesAreKeyed(lexical, semantic[..|semantic| - 1], lw, sw);
    } else if lexical != [] {
      EntriesAreKeyed(lexical[..|lexical| - 1], [], lw, sw);
    }
  }

  // The map's values, in whatever order it is walked.
  method Values(m: map<string, Fused>) returns (out: seq<Fused>)
    requires Keyed(m)
    ensures Lists(out, m)
  {
    hide Lists;
    out := [];
    var rest := m.Keys;
    ghost var done: map<string, Fused> := map[];
    ListsNothing();
    while rest != {}
      invariant rest <= m.Keys && Lists(out, done)
      invariant done.Keys == m.Keys - rest && forall id :: id in done ==> done[id] == m[id]
      decreases |rest|
    {
      var id :| id in rest;
      ListsOneMore(out, done, m[id]);
      rest := rest - {id};
      out := out + [m[id]];
      done := done[id := m[id]];
    }
    assert done == m;
  }

  lemma ListsNothing()
    ensures Lists([], map[])
  {
  }

  lemma ListsOneMore(out: seq<Fused>, m: map<string, Fused>, f: Fused)
    requires Lists(out, m) && Id(f.candidate) !in m
    ensures Lists(out + [f], m[Id(f.candidate) := f])
  {
    var more := out + [f];
    forall id | id in m || id == Id(f.candidate) ensures exists i :: 0 <= i < |more| && Id(more[i].candidate) == id {
      if id in m {
        var i :| 0 <= i < |out| && Id(out[i].candidate) == id;
        assert more[i] == out[i];
      } else {
        assert more[|out|] == f;
      }
    }
  }

  lemma {:induction false} ListedOnce(out: seq<Fused>, f: Fused)
    requires forall i, j :: 0 <= i < j < |out| ==> Id(out[i].candidate) != Id(out[j].candidate)
    ensures multiset(out)[f] == if f in out then 1 else 0
    decreases |out|
  {
    if out != [] {
      ListedOnce(out[..|out| - 1], f);
      FrontAndLast(out);
      assert out == out[..|out| - 1] + [out[|out| - 1]];
    }
  }

  lemma ListsHasValue(out: seq<Fused>, m: map<string, Fused>, f: Fused)
    requires Lists(out, m)
    ensures f in out <==> Id(f.candidate) in m && m[Id(f.candidate)] == f
  {
    if Id(f.candidate) in m {
      var i :| 0 <= i < |out| && Id(out[i].candidate) == Id(f.candidate);
      assert out[i] in out;
    }
  }

  lemma SameValues(a: seq<Fused>, b: seq<Fused>, m: map<string, Fused>)
    requires Lists(a, m) && Lists(b, m)
    ensures multiset(a) == multiset(b)
  {
    forall f ensures multiset(a)[f] == multiset(b)[f] {
      ListedOnce(a, f);
      ListedOnce(b, f);
      ListsHasValue(a, m, f);
      ListsHasValue(b, m, f);
    }
  }

  lemma SortedStillLists(a: seq<Fused>, b: seq<Fused>, m: map<string, Fused>)
    requires Lists(a, m) && multiset(a) == multiset(b)
    ensures Lists(b, m)
  {
    SameSize(a, b);
    forall i | 0 <= i < |b| ensures b[i] in a {
      assert b[i] in multiset(a);
    }
    forall id | id in m ensures exists i :: 0 <= i < |b| && Id(b[i].candidate) == id {
      var i :| 0 <= i < |a| && Id(a[i].candidate) == id;
      assert a[i] in multiset(b);
      var j :| 0 <= j < |b| && b[j] == a[i];
    }
    forall i, j | 0 <= i < j < |b| ensures Id(b[i].candidate) != Id(b[j].candidate) {
      if Id(b[i].candidate) == Id(b[j].candidate) {
        assert b[i] == b[j];
        ListedOnce(a, b[i]);
        Twice(b, i, j);
      }
    }
  }

  lemma Twice(s: seq<Fused>, i: nat, j: nat)
    requires i < j < |s| && s[i] == s[j]
    ensures multiset(s)[s[i]] >= 2
  {
    assert s == s[..j] + [s[j]] + s[j + 1..];
    assert s[i] in s[..j];
  }

  // Fusion is determined: walking the map in another order, or gathering the
  // lexical hits in another order, gives the same result.
  lemma FusionIsDetermined(r1: seq<Ranked>, r2: seq<Ranked>, l1: seq<Ranked>, l2: seq<Ranked>, semantic: seq<Ranked>, lw: real, sw: real)
    requires DistinctIds(l1) && multiset(l1) == multiset(l2)
    requires IsFusion(r1, l1, semantic, lw, sw) && IsFusion(r2, l2, semantic, lw, sw)
    ensures r1 == r2
  {
    RankingIgnoresGatheringOrder(l1, l2);
    var m := Entries(Sort(l1, ByKey), semantic, lw, sw);
    hide Entries, Sort, ByKey, SortedBy, Lists;
    var a: seq<Fused> :| Ordered(a, m) && r1 == Candidates(a);
    var b: seq<Fused> :| Ordered(b, m) && r2 == Candidates(b);
    OneOrdering(a, b, m);
  }

  lemma OneOrdering(a: seq<Fused>, b: seq<Fused>, m: map<string, Fused>)
    requires Ordered(a, m) && Ordered(b, m)
    ensures a == b
  {
    SameValues(a, b, m);
    FusedOrder();
    forall x, y | x in a && y in a && x != y ensures FusedBefore(x, y) || FusedBefore(y, x) {
      KeyOrder(x.candidate.key, y.candidate.key, x.candidate.key);
      assert m[Id(x.candidate)] == x && m[Id(y.candidate)] == y;
    }
    SortedIsUnique(a, b, FusedBefore);
  }

  ghost predicate HasId(s: seq<Ranked>, id: string) {
    exists i :: 0 <= i < |s| && Id(s[i]) == id
  }

  // Each memory of either list comes out once, and no other.
  lemma FusionKeepsEachIdOnce(result: seq<Ranked>, lexical: seq<Ranked>, semantic: seq<Ranked>, lw: real, sw: real, id: string)
    requires IsFusion(result, lexical, semantic, lw, sw)
    ensures DistinctIds(result)
    ensures HasId(result, id) <==> HasId(lexical, id) || HasId(semantic, id)
  {
    var sorted := Sort(lexical, ByKey);
    var m := Entries(sorted, semantic, lw, sw);
    var out: seq<Fused> :| Ordered(out, m) && result == Candidates(out);
    EntryIds(sorted, semantic, lw, sw, id);
    ByKeyIsTotal(lexical);
    SortIsSorted(lexical, ByKey);
    SameIds(lexical, sorted, id);
    hide SortedBy, Sort, Entries;
    if id in m {
      var i :| 0 <= i < |out| && Id(out[i].candidate) == id;
      assert Id(result[i]) == id;
    }
  }

  lemma SameIds(a: seq<Ranked>, b: seq<Ranked>, id: string)
    requires multiset(a) == multiset(b)
    ensures HasId(a, id) <==> HasId(b, id)
  {
    if i :| 0 <= i < |a| && Id(a[i]) == id {
      assert a[i] in multiset(b);
      var j :| 0 <= j < |b| && b[j] == a[i];
    }
    if i :| 0 <= i < |b| && Id(b[i]) == id {
      assert b[i] in multiset(a);
      var j :| 0 <= j < |a| && a[j] == b[i];
    }
  }

  lemma {:induction false} EntryIds(lexical: seq<Ranked>, semantic: seq<Ranked>, lw: real, sw: real, id: string)
    ensures id in Entries(lexical, semantic, lw, sw) <==> HasId(lexical, id) || HasId(semantic, id)
    decreases |lexical| + |semantic|
  {
    if semantic != [] {
      EntryIds(lexical, semantic[..|semantic| - 1], lw, sw, id);
      HasIdSnoc(semantic, id);
    } else if lexical != [] {
      EntryIds(lexical[..|lexical| - 1], [], lw, sw, id);
      HasIdSnoc(lexical, id);
    }
  }

  lemma HasIdSnoc(s: seq<Ranked>, id: string)
    requires s != []
    ensures HasId(s, id) <==> HasId(s[..|s| - 1], id) || Id(s[|s| - 1]) == id
  {
    var front := s[..|s| - 1];
    if i :| 0 <= i < |s| && Id(s[i]) == id {
      assert i < |front| ==> Id(front[i]) == id;
    }
    if i :| 0 <= i < |front| && Id(front[i]) == id {
      assert Id(s[i]) == id;
    }
  }

  // A memory in both lists scores the sum of its two shares and keeps the better
  // of its two keys; one in a single list scores its one share.
  lemma {:induction false} ScoreIsTheSumOfShares(lexical: seq<Ranked>, semantic: seq<Ranked>, lw: real, sw: real, i: nat, j: nat)
    requires DistinctIds(lexical) && DistinctIds(semantic) && i < |lexical| && j < |semantic|
    ensures var m := Entries(lexical, semantic, lw, sw);
            && Id(lexical[i]) in m && Id(semantic[j]) in m
            && (!HasId(semantic, Id(lexical[i])) ==> m[Id(lexical[i])] == Fused(lexical[i], lw / (60 + i + 1) as real))
            && (!HasId(lexical, Id(semantic[j])) ==> m[Id(semantic[j])] == Fused(semantic[j], sw / (60 + j + 1) as real))
            && (Id(lexical[i]) == Id(semantic[j]) ==>
                  m[Id(lexical[i])] ==
                  Fused(if LessKey(semantic[j].key, lexical[i].key) then semantic[j] else lexical[i],
                        lw / (60 + i + 1) as real + sw / (60 + j + 1) as real))
  {
    LexicalShare(lexical, lw, i);
    if !HasId(semantic, Id(lexical[i])) {
      UntilSemantic(lexical, semantic, lw, sw, Id(lexical[i]), |semantic|);
    } else {
      var k: nat :| k < |semantic| && Id(semantic[k]) == Id(lexical[i]);
      SemanticShare(lexical, semantic, lw, sw, k, |semantic|);
    }
    SemanticShare(lexical, semantic, lw, sw, j, |semantic|);
    EntryIds(lexical, [], lw, sw, Id(semantic[j]));
    assert semantic[..|semantic|] == semantic;
  }

  lemma {:induction false} LexicalShare(lexical: seq<Ranked>, lw: real, i: nat)
    requires DistinctIds(lexical) && i < |lexical|
    ensures Id(lexical[i]) in LexicalEntries(lexical, lw)
    ensures LexicalEntries(lexical, lw)[Id(lexical[i])] == Fused(lexical[i], Share(lw, i))
    decreases |lexical|
  {
    if i < |lexical| - 1 {
      LexicalShare(lexical[..|lexical| - 1], lw, i);
    }
  }

  lemma {:induction false} UntilSemantic(lexical: seq<Ranked>, semantic: seq<Ranked>, lw: real, sw: real, id: string, n: nat)
    requires n <= |semantic|
    requires forall k :: 0 <= k < n ==> Id(semantic[k]) != id
    ensures id in Entries(lexical, semantic[..n], lw, sw) <==> id in LexicalEntries(lexical, lw)
    ensures id in LexicalEntries(lexical, lw) ==> Entries(lexical, semantic[..n], lw, sw)[id] == LexicalEntries(lexical, lw)[id]
    decreases n
  {
    if n > 0 {
      assert semantic[..n][..n - 1] == semantic[..n - 1];
      UntilSemantic(lexical, semantic, lw, sw, id, n - 1);
    }
  }

  lemma {:induction false} SemanticShare(lexical: seq<Ranked>, semantic: seq<Ranked>, lw: real, sw: real, j: nat, n: nat)
    requires DistinctIds(semantic) && j < n <= |semantic|
    ensures var id := Id(semantic[j]); var m, l := Entries(lexical, semantic[..n], lw, sw), LexicalEntries(lexical, lw);
            && id in m
            && m[id] == (if id !in l then Fused(semantic[j], Share(sw, j))
                         else Fused(if LessKey(semantic[j].key, l[id].candidate.key) then semantic[j] else l[id].candidate,
                                    l[id].score + Share(sw, j)))
    decreases n
  {
    assert semantic[..n][..n - 1] == semantic[..n - 1];
    if j == n - 1 {
      UntilSemantic(lexical, semantic, lw, sw, Id(semantic[j]), j);
    } else {
      SemanticShare(lexical, semantic, lw, sw, j, n - 1);
    }
  }

  // ---- the cut ----

  // Identity memories matched by subject bypass the caller's limit.
  predicate Protected(h: Hit) {
    IdentityKind(h.kind) && h.matchClass >= MATCH_SUBJECT
  }

  function Only(hits: seq<Hit>, protected: bool): seq<Hit> {
    if hits == [] then []
    else
      var front := Only(hits[..|hits| - 1], protected);
      if Protected(hits[|hits| - 1]) == protected then front + [hits[|hits| - 1]] else front
  }

  function FirstOf(s: seq<Hit>, n: nat): seq<Hit> {
    if |s| <= n then s else s[..n]
  }

  lemma OnlySnoc(s: seq<Hit>, h: Hit, protected: bool)
    ensures Only(s + [h], protected) == if Protected(h) == protected then Only(s, protected) + [h] else Only(s, protected)
  {
    assert (s + [h])[..|s|] == s;
  }

  lemma FirstSnoc(s: seq<Hit>, h: Hit, n: nat)
    ensures FirstOf(s + [h], n) == if |FirstOf(s, n)| < n then FirstOf(s, n) + [h] else FirstOf(s, n)
    ensures |FirstOf(s, n)| <= n
  {
  }

  // Where each kept hit stood.
  ghost predicate PicksInOrder(kept: seq<Hit>, hits: seq<Hit>, at: seq<nat>) {
    && |at| == |kept|
    && (forall k :: 0 <= k < |at| ==> at[k] < |hits| && kept[k] == hits[at[k]])
    && (forall j, k :: 0 <= j < k < |at| ==> at[j] < at[k])
  }

  // The kept hits are the first twenty protected hits and the first limit others.
  ghost predicate IsCut(kept: seq<Hit>, hits: seq<Hit>, limit: nat) {
    && Only(kept, true) == FirstOf(Only(hits, true), IDENTITY_HITS_MAX)
    && Only(kept, false) == FirstOf(Only(hits, false), limit)
  }

  function Count(hits: seq<Hit>, protected: bool): nat {
    |Only(hits, protected)|
  }

  function Room(protected: bool, limit: nat): nat {
    if protected then IDENTITY_HITS_MAX else limit
  }

  // One more hit: kept while there is room on its side, dropped after.
  lemma CutStep(kept: seq<Hit>, hits: seq<Hit>, h: Hit, limit: nat)
    requires IsCut(kept, hits, limit)
    ensures Count(kept, Protected(h)) < Room(Protected(h), limit) ==> IsCut(kept + [h], hits + [h], limit)
    ensures Count(kept, Protected(h)) >= Room(Protected(h), limit) ==> IsCut(kept, hits + [h], limit)
    ensures Count(kept + [h], Protected(h)) == Count(kept, Protected(h)) + 1
    ensures Count(kept + [h], !Protected(h)) == Count(kept, !Protected(h))
  {
    hide Only, FirstOf, Protected;
    OnlySnoc(hits, h, true);
    OnlySnoc(hits, h, false);
    OnlySnoc(kept, h, true);
    OnlySnoc(kept, h, false);
    FirstSnoc(Only(hits, true), h, IDENTITY_HITS_MAX);
    FirstSnoc(Only(hits, false), h, limit);
  }

  lemma PickOneMore(kept: seq<Hit>, hits: seq<Hit>, at: seq<nat>, i: nat)
    requires PicksInOrder(kept, hits, at) && i < |hits| && forall k :: 0 <= k < |at| ==> at[k] < i
    ensures PicksInOrder(kept + [hits[i]], hits, at + [i])
  {
  }

  // The loop after i hits.
  ghost predicate CutTo(kept: seq<Hit>, at: seq<nat>, hits: seq<Hit>, i: nat, limit: nat)
    requires i <= |hits|
  {
    && PicksInOrder(kept, hits, at) && (forall k :: 0 <= k < |at| ==> at[k] < i)
    && IsCut(kept, hits[..i], limit)
    && |kept| == Count(kept, true) + Count(kept, false)
    && Count(kept, true) <= IDENTITY_HITS_MAX && Count(kept, false) <= limit
  }

  lemma CutTurn(kept: seq<Hit>, at: seq<nat>, hits: seq<Hit>, i: nat, limit: nat)
    requires i < |hits| && CutTo(kept, at, hits, i, limit)
    ensures var h := hits[i];
            && (Count(kept, Protected(h)) < Room(Protected(h), limit) ==> CutTo(kept + [h], at + [i], hits, i + 1, limit))
            && (Count(kept, Protected(h)) >= Room(Protected(h), limit) ==> CutTo(kept, at, hits, i + 1, limit))
            && Count(kept + [h], Protected(h)) == Count(kept, Protected(h)) + 1
            && Count(kept + [h], !Protected(h)) == Count(kept, !Protected(h))
  {
    var h := hits[i];
    assert hits[..i + 1] == hits[..i] + [h];
    CutStep(kept, hits[..i], h, limit);
    PickOneMore(kept, hits, at, i);
    hide IsCut, Protected, PicksInOrder, Count;
    assert Protected(h) || !Protected(h);
  }

  lemma NothingCut(hits: seq<Hit>, limit: nat)
    ensures CutTo([], [], hits, 0, limit) && Count([], true) == Count([], false) == 0
  {
    assert IsCut([], hits[..0], limit);
  }

  lemma AllCut(kept: seq<Hit>, at: seq<nat>, hits: seq<Hit>, limit: nat)
    requires CutTo(kept, at, hits, |hits|, limit)
    ensures PicksInOrder(kept, hits, at) && IsCut(kept, hits, limit) && |kept| <= IDENTITY_HITS_MAX + limit
  {
    assert hits[..|hits|] == hits;
  }

  // The kept hits stand in ranking order, each at its own place.
  method Truncate(hits: seq<Hit>, limit: nat) returns (kept: seq<Hit>, ghost at: seq<nat>)
    ensures PicksInOrder(kept, hits, at) && IsCut(kept, hits, limit)
    ensures |kept| <= IDENTITY_HITS_MAX + limit
  {
    var identityKept, nonIdentityKept := 0, 0;
    kept, at := [], [];
    NothingCut(hits, limit);
    hide CutTo, Protected, Count;
    var i := 0;
    while i < |hits|
      invariant 0 <= i <= |hits| && CutTo(kept, at, hits, i, limit)
      invariant identityKept == Count(kept, true) && nonIdentityKept == Count(kept, false)
    {
      var h := hits[i];
      CutTurn(kept, at, hits, i, limit);
      i := i + 1;
      if Protected(h) {
        if identityKept < IDENTITY_HITS_MAX {
          kept, at := kept + [h], at + [i - 1];
          identityKept := identityKept + 1;
        }
        continue;
      }
      if nonIdentityKept < limit {
        kept, at := kept + [h], at + [i - 1];
        nonIdentityKept := nonIdentityKept + 1;
      }
    }
    AllCut(kept, at, hits, limit);
  }

  lemma {:induction false} OnlyIs(hits: seq<Hit>, protected: bool)
    ensures forall h :: h in Only(hits, protected) <==> h in hits && Protected(h) == protected
    decreases |hits|
  {
    if hits != [] {
      var front := hits[..|hits| - 1];
      OnlyIs(front, protected);
      assert hits == front + [hits[|hits| - 1]];
    }
  }

  ghost predicate NoRepeats(hits: seq<Hit>) {
    forall i, j :: 0 <= i < j < |hits| ==> hits[i] != hits[j]
  }

  lemma {:induction false} OnlyNoRepeats(hits: seq<Hit>, protected: bool)
    requires NoRepeats(hits)
    ensures NoRepeats(Only(hits, protected))
    decreases |hits|
  {
    if hits != [] {
      OnlyNoRepeats(hits[..|hits| - 1], protected);
      OnlyIs(hits[..|hits| - 1], protected);
    }
  }

  // A hit stands among those of its side behind the ones ranked before it.
  lemma {:induction false} OnlyAt(hits: seq<Hit>, i: nat, protected: bool)
    requires i < |hits| && Protected(hits[i]) == protected
    ensures Count(hits[..i], protected) < |Only(hits, protected)|
    ensures Only(hits, protected)[Count(hits[..i], protected)] == hits[i]
    decreases |hits|
  {
    if i < |hits| - 1 {
      var front := hits[..|hits| - 1];
      assert front[..i] == hits[..i];
      OnlyAt(front, i, protected);
    }
  }

  // A cut keeps a hit exactly when there was room on its side for the hits ranked
  // before it and for itself.
  lemma KeptIff(kept: seq<Hit>, hits: seq<Hit>, limit: nat, i: nat)
    requires IsCut(kept, hits, limit) && NoRepeats(hits) && i < |hits|
    ensures hits[i] in kept <==> Count(hits[..i], Protected(hits[i])) < Room(Protected(hits[i]), limit)
  {
    var p := Protected(hits[i]);
    OnlyIs(kept, p);
    OnlyAt(hits, i, p);
    OnlyNoRepeats(hits, p);
    hide Only, Protected;
    FirstHas(Only(hits, p), Count(hits[..i], p), Room(p, limit));
  }

  lemma FirstHas(s: seq<Hit>, k: nat, n: nat)
    requires NoRepeats(s) && k < |s|
    ensures s[k] in FirstOf(s, n) <==> k < n
  {
    if k < n {
      assert FirstOf(s, n)[k] == s[k];
    }
  }

  // The comment above the loop promises that every matched identity hit is kept;
  // one matched in its content alone is dropped like any other beyond the limit.
  lemma ContentMatchIsDropped(kept: seq<Hit>)
    requires IsCut(kept, [Hit("m1", "USER_PREFERENCE", MATCH_CONTENT), Hit("m2", "USER_PREFERENCE", MATCH_CONTENT)], 1)
    ensures Hit("m2", "USER_PREFERENCE", MATCH_CONTENT) !in kept
  {
    var hits := [Hit("m1", "USER_PREFERENCE", MATCH_CONTENT), Hit("m2", "USER_PREFERENCE", MATCH_CONTENT)];
    assert hits[..1] == [hits[0]] && !Protected(hits[0]);
    assert Only([hits[0]], false) == [] + [hits[0]];
    KeptIff(kept, hits, 1, 1);
  }

  // A fusion lists the higher score first, and of equal scores the better key.
  lemma FusionIsByScore(result: seq<Ranked>, lexical: seq<Ranked>, semantic: seq<Ranked>, lw: real, sw: real, i: nat, j: nat)
    requires IsFusion(result, lexical, semantic, lw, sw) && i < j < |result|
    ensures var m := Entries(Sort(lexical, ByKey), semantic, lw, sw);
            && Id(result[i]) in m && Id(result[j]) in m
            && var x, y := m[Id(result[i])], m[Id(result[j])];
               && x.candidate == result[i] && y.candidate == result[j]
               && (x.score > y.score || (x.score == y.score && !LessKey(result[j].key, result[i].key)))
  {
    hide Sort, Entries, LessKey;
    var out: seq<Fused> :| Ordered(out, Entries(Sort(lexical, ByKey), semantic, lw, sw)) && result == Candidates(out);
    assert !FusedBefore(out[j], out[i]);
  }

  // Spared from the limit is what speaks of the person and was matched by its
  // subject or exactly, up to twenty; for the others the limit holds.
  lemma WhoIsSpared(h: Hit, limit: nat)
    ensures Protected(h) <==>
              (h.kind == "USER_PREFERENCE" || h.kind == "PERSONAL_GOAL" || h.kind == "PERSONAL_CONSTRAINT") && h.matchClass >= 4
    ensures Room(true, limit) == 20 && Room(false, limit) == limit
  {
  }
}
