// The query-vector cache: a least-recently-used list and a map over the same
// elements, emptied whenever the vector generation changes.
module QueryCache {
  import opened Wrappers

  datatype Entry = Entry(key: string, vector: seq<real>)

  // ---- what the cache means ----

  function Without(s: seq<Entry>, key: string): seq<Entry> {
    if s == [] then []
    else if s[0].key == key then Without(s[1..], key)
    else [s[0]] + Without(s[1..], key)
  }

  function Find(s: seq<Entry>, key: string): Option<seq<real>> {
    if s == [] then None else if s[0].key == key then Some(s[0].vector) else Find(s[1..], key)
  }

  function Take(s: seq<Entry>, n: nat): seq<Entry> {
    if |s| <= n then s else s[..n]
  }

  function ToFront(s: seq<Entry>, e: Entry): seq<Entry> {
    [e] + Without(s, e.key)
  }

  // Most recently used first.
  datatype State = State(generation: string, entries: seq<Entry>)

  datatype Op = Get(generation: string, key: string) | Put(generation: string, key: string, vector: seq<real>)

  function Switch(s: State, generation: string): State {
    if s.generation == generation then s else State(generation, [])
  }

  function Step(capacity: nat, s: State, op: Op): State {
    var t := Switch(s, op.generation);
    match op
    case Get(_, key) =>
      if Find(t.entries, key).None? then t else t.(entries := ToFront(t.entries, Entry(key, Find(t.entries, key).value)))
    case Put(_, key, vector) => t.(entries := Take(ToFront(t.entries, Entry(key, vector)), capacity))
  }

  function Run(capacity: nat, ops: seq<Op>): State {
    if ops == [] then State("", []) else Step(capacity, Run(capacity, ops[..|ops| - 1]), ops[|ops| - 1])
  }

  // ---- the recency theorem ----

  // Every use since the generation last changed: each put, and each get that hit.
  function Uses(capacity: nat, ops: seq<Op>): seq<Entry> {
    if ops == [] then []
    else
      var before, op := Run(capacity, ops[..|ops| - 1]), ops[|ops| - 1];
      var uses := if before.generation == op.generation then Uses(capacity, ops[..|ops| - 1]) else [];
      match op
      case Get(_, key) =>
        var hit := Find(Switch(before, op.generation).entries, key);
        if hit.None? then uses else uses + [Entry(key, hit.value)]
      case Put(_, key, vector) => uses + [Entry(key, vector)]
  }

  // Each key once, at its last use, latest first.
  function ByRecency(uses: seq<Entry>): seq<Entry> {
    if uses == [] then [] else ToFront(ByRecency(uses[..|uses| - 1]), uses[|uses| - 1])
  }

  ghost predicate Distinct(s: seq<Entry>) {
    forall i, j :: 0 <= i < j < |s| ==> s[i].key != s[j].key
  }

  lemma {:induction false} WithoutIs(s: seq<Entry>, key: string)
    ensures forall e :: e in Without(s, key) <==> e in s && e.key != key
    ensures Distinct(s) ==> Distinct(Without(s, key))
    ensures |Without(s, key)| <= |s|
    decreases |s|
  {
    if s != [] {
      WithoutIs(s[1..], key);
      DistinctCons(s[0], s[1..]);
      DistinctCons(s[0], Without(s[1..], key));
      hide Distinct;
      assert s == [s[0]] + s[1..];
    }
  }

  lemma DistinctCons(first: Entry, rest: seq<Entry>)
    ensures Distinct([first] + rest) <==> Distinct(rest) && forall e :: e in rest ==> e.key != first.key
  {
    var s := [first] + rest;
    assert forall i :: 0 <= i < |rest| ==> s[i + 1] == rest[i];
    if Distinct(s) {
      forall i, j | 0 <= i < j < |rest| ensures rest[i].key != rest[j].key {
        assert s[i + 1].key != s[j + 1].key;
      }
      forall e | e in rest ensures e.key != first.key {
        var i :| 0 <= i < |rest| && rest[i] == e;
        assert s[0].key != s[i + 1].key;
      }
    }
  }

  lemma {:induction false} Absent(s: seq<Entry>, key: string)
    requires forall e :: e in s ==> e.key != key
    ensures Without(s, key) == s
    decreases |s|
  {
    if s != [] {
      assert s[0] in s && forall e :: e in s[1..] ==> e in s;
      Absent(s[1..], key);
    }
  }

  lemma {:induction false} DistinctByRecency(uses: seq<Entry>)
    ensures Distinct(ByRecency(uses))
    decreases |uses|
  {
    if uses != [] {
      DistinctByRecency(uses[..|uses| - 1]);
      WithoutIs(ByRecency(uses[..|uses| - 1]), uses[|uses| - 1].key);
    }
  }

  // Cutting the list off first loses nothing that the longer list would keep.
  lemma {:induction false} CutThenDrop(s: seq<Entry>, key: string, n: nat)
    requires Distinct(s)
    ensures Take(Without(s, key), n) == Take(Without(Take(s, n + 1), key), n)
    decreases n
  {
    hide Take, Without;
    if s == [] {
      NothingToTake(key, n);
    } else {
      var x, rest := s[0], s[1..];
      assert s == [x] + rest;
      TakeCons(x, rest, n);
      WithoutCons(x, rest, key);
      WithoutCons(x, Take(rest, n), key);
      if x.key == key {
        forall e | e in rest ensures e.key != key {
          var i :| 0 <= i < |rest| && rest[i] == e;
          assert s[i + 1] == e;
        }
        Absent(rest, key);
        TakeTwice(rest, n);
        Absent(Take(rest, n), key);
      } else if n > 0 {
        CutThenDrop(rest, key, n - 1);
        TakeCons(x, Without(rest, key), n - 1);
        TakeCons(x, Without(Take(rest, n), key), n - 1);
      } else {
        TakeNone(Without(s, key), Without(Take(s, 1), key));
      }
    }
  }

  lemma NothingToTake(key: string, n: nat)
    ensures Take(Without([], key), n) == Take(Without(Take([], n + 1), key), n)
  {
  }

  lemma TakeNone(a: seq<Entry>, b: seq<Entry>)
    ensures Take(a, 0) == Take(b, 0)
  {
  }

  lemma TakeCons(x: Entry, s: seq<Entry>, n: nat)
    ensures Take([x] + s, n + 1) == [x] + Take(s, n)
  {
  }

  lemma TakeTwice(s: seq<Entry>, n: nat)
    ensures Take(Take(s, n), n) == Take(s, n) && forall e :: e in Take(s, n) ==> e in s
  {
  }

  lemma WithoutCons(x: Entry, s: seq<Entry>, key: string)
    ensures Without([x] + s, key) == if x.key == key then Without(s, key) else [x] + Without(s, key)
  {
    assert ([x] + s)[1..] == s;
  }

  // What the cache holds is the first so many keys of the recency order: nothing
  // is dropped while there is room, and the least recently used goes first.
  lemma {:induction false} HoldsTheMostRecent(capacity: nat, ops: seq<Op>)
    requires capacity > 0
    ensures Run(capacity, ops).entries == Take(ByRecency(Uses(capacity, ops)), capacity)
    decreases |ops|
  {
    if ops != [] {
      var front, op := ops[..|ops| - 1], ops[|ops| - 1];
      HoldsTheMostRecent(capacity, front);
      var before := Run(capacity, front);
      var t := Switch(before, op.generation);
      var uses := if before.generation == op.generation then Uses(capacity, front) else [];
      var ideal := ByRecency(uses);
      assert t.entries == Take(ideal, capacity);
      DistinctByRecency(uses);
      CutThenDrop(ideal, op.key, capacity - 1);
      var used := if op.Put? then Some(op.vector) else Find(t.entries, op.key);
      if used.Some? {
        var e := Entry(op.key, used.value);
        assert (uses + [e])[..|uses|] == uses;
        assert Uses(capacity, ops) == uses + [e];
        FrontOfBoth(t.entries, ideal, e, capacity);
        if op.Get? {
          HitHasRoom(t.entries, op.key);
          assert Run(capacity, ops).entries == ToFront(t.entries, e);
        }
      }
    }
  }

  lemma FrontOfBoth(held: seq<Entry>, ideal: seq<Entry>, e: Entry, capacity: nat)
    requires capacity > 0 && held == Take(ideal, capacity)
    requires Take(Without(ideal, e.key), capacity - 1) == Take(Without(held, e.key), capacity - 1)
    ensures Take(ToFront(held, e), capacity) == Take(ToFront(ideal, e), capacity)
  {
    assert Take(ToFront(held, e), capacity) == [e] + Take(Without(held, e.key), capacity - 1);
    assert Take(ToFront(ideal, e), capacity) == [e] + Take(Without(ideal, e.key), capacity - 1);
  }

  // Moving a hit to the front does not make the list longer.
  lemma {:induction false} HitHasRoom(s: seq<Entry>, key: string)
    requires Find(s, key).Some?
    ensures |Without(s, key)| < |s|
    decreases |s|
  {
    WithoutIs(s[1..], key);
    if s[0].key != key {
      HitHasRoom(s[1..], key);
    }
  }

  // One entry a key, and never more than fit.
  lemma BoundedAndDistinct(capacity: nat, ops: seq<Op>)
    requires capacity > 0
    ensures |Run(capacity, ops).entries| <= capacity && Distinct(Run(capacity, ops).entries)
  {
    HoldsTheMostRecent(capacity, ops);
    DistinctByRecency(Uses(capacity, ops));
  }

  // An entry's vector is the last one put under its key, and no call since that
  // put was for another generation.
  ghost predicate PutLast(ops: seq<Op>, i: nat, generation: string, e: Entry) {
    && i < |ops| && ops[i] == Put(generation, e.key, e.vector)
    && forall j :: i < j < |ops| ==> ops[j].generation == generation && !(ops[j].Put? && ops[j].key == e.key)
  }

  lemma {:induction false} HoldsTheLastVector(capacity: nat, ops: seq<Op>, e: Entry)
    requires capacity > 0 && e in Run(capacity, ops).entries
    ensures exists i: nat :: PutLast(ops, i, Run(capacity, ops).generation, e)
    decreases |ops|
  {
    var front, op := ops[..|ops| - 1], ops[|ops| - 1];
    var before := Run(capacity, front);
    StepOrigin(capacity, before, op, e);
    hide Step;
    if op.Put? && e == Entry(op.key, op.vector) {
      assert PutLast(ops, |ops| - 1, op.generation, e);
    } else {
      HoldsTheLastVector(capacity, front, e);
      var i: nat :| PutLast(front, i, before.generation, e);
      assert PutLast(ops, i, op.generation, e);
    }
  }

  // Where an entry of the new state comes from.
  lemma StepOrigin(capacity: nat, s: State, op: Op, e: Entry)
    requires e in Step(capacity, s, op).entries
    ensures Step(capacity, s, op).generation == op.generation
    ensures (op.Put? && e == Entry(op.key, op.vector))
            || (e in s.entries && s.generation == op.generation && !(op.Put? && op.key == e.key))
  {
    var t := Switch(s, op.generation);
    WithoutIs(t.entries, op.key);
    FoundIsIn(t.entries, op.key);
  }

  lemma {:induction false} FoundIsIn(s: seq<Entry>, key: string)
    ensures Find(s, key).Some? ==> Entry(key, Find(s, key).value) in s
    decreases |s|
  {
    if s != [] {
      FoundIsIn(s[1..], key);
    }
  }

  // ---- the list and the map ----

  // A list element; its value is replaced in place.
  class Element {
    var value: Entry

    constructor (value: Entry)
      ensures this.value == value
    {
      this.value := value;
    }
  }

  ghost function View(order: seq<Element>): (s: seq<Entry>)
    reads order
    ensures |s| == |order| && forall i :: 0 <= i < |s| ==> s[i] == order[i].value
  {
    if order == [] then [] else [order[0].value] + View(order[1..])
  }

  function Unlink(order: seq<Element>, e: Element): seq<Element> {
    if order == [] then [] else if order[0] == e then order[1..] else [order[0]] + Unlink(order[1..], e)
  }

  predicate NoRepeat(order: seq<Element>) {
    order == [] || (order[0] !in order[1..] && NoRepeat(order[1..]))
  }

  // The map names each listed element by its key, and nothing else.
  ghost predicate Mirrors(order: seq<Element>, entries: map<string, Element>)
    reads order
  {
    && (forall e :: e in order ==> e.value.key in entries && entries[e.value.key] == e)
    && (forall k :: k in entries ==> entries[k] in order && entries[k].value.key == k)
  }

  ghost predicate Linked(order: seq<Element>, entries: map<string, Element>)
    reads order
  {
    NoRepeat(order) && Mirrors(order, entries)
  }

  lemma {:induction false} UnlinkIs(order: seq<Element>, e: Element)
    requires NoRepeat(order)
    ensures forall x :: x in Unlink(order, e) <==> x in order && x != e
    ensures NoRepeat(Unlink(order, e))
    ensures |Unlink(order, e)| == if e in order then |order| - 1 else |order|
    decreases |order|
  {
    if order != [] {
      var rest := order[1..];
      assert order == [order[0]] + rest;
      UnlinkIs(rest, e);
      if order[0] != e {
        assert Unlink(order, e)[1..] == Unlink(rest, e);
      }
    }
  }

  lemma {:induction false} LastIsOnce(order: seq<Element>)
    requires NoRepeat(order) && order != []
    ensures NoRepeat(order[..|order| - 1]) && order[|order| - 1] !in order[..|order| - 1]
    decreases |order|
  {
    if |order| > 1 {
      var front := order[..|order| - 1];
      LastIsOnce(order[1..]);
      assert front[1..] == order[1..][..|order| - 2];
      assert front == [order[0]] + front[1..];
    }
  }

  lemma {:induction false} ViewUnlink(order: seq<Element>, e: Element)
    requires NoRepeat(order) && e in order
    requires forall x :: x in order && x.value.key == e.value.key ==> x == e
    ensures View(Unlink(order, e)) == Without(View(order), e.value.key)
    decreases |order|
  {
    var rest := order[1..];
    assert order == [order[0]] + rest;
    if order[0] == e {
      Absent(View(rest), e.value.key);
    } else {
      ViewUnlink(rest, e);
    }
  }

  // A key found in the map is the one found in the list.
  lemma {:induction false} FindInView(order: seq<Element>, e: Element)
    requires e in order && forall x :: x in order && x.value.key == e.value.key ==> x == e
    ensures Find(View(order), e.value.key) == Some(e.value.vector)
    decreases |order|
  {
    if order[0] != e {
      assert order == [order[0]] + order[1..];
      FindInView(order[1..], e);
    }
  }

  lemma {:induction false} NotInView(s: seq<Entry>, key: string)
    requires forall e :: e in s ==> e.key != key
    ensures Find(s, key).None?
    decreases |s|
  {
    if s != [] {
      assert forall e :: e in s[1..] ==> e in s;
      NotInView(s[1..], key);
    }
  }

  // What the map says about a key, it says about the list.
  lemma MapMirrorsList(order: seq<Element>, entries: map<string, Element>, key: string)
    requires Linked(order, entries)
    ensures key in entries ==> Find(View(order), key) == Some(entries[key].value.vector)
    ensures key in entries ==> View(Unlink(order, entries[key])) == Without(View(order), key)
    ensures key !in entries ==> Find(View(order), key).None? && Without(View(order), key) == View(order)
  {
    if key in entries {
      FindInView(order, entries[key]);
      ViewUnlink(order, entries[key]);
    } else {
      forall e | e in View(order) ensures e.key != key {
        var i :| 0 <= i < |order| && View(order)[i] == e;
        assert order[i] in order;
      }
      NotInView(View(order), key);
      Absent(View(order), key);
    }
  }

  lemma MirrorsByMembers(order: seq<Element>, other: seq<Element>, entries: map<string, Element>)
    requires Mirrors(order, entries) && forall x :: x in other <==> x in order
    ensures Mirrors(other, entries)
  {
  }

  lemma PutFirst(order: seq<Element>, e: Element)
    requires NoRepeat(order) && e !in order
    ensures NoRepeat([e] + order) && View([e] + order) == [e.value] + View(order)
  {
    assert ([e] + order)[1..] == order;
  }

  lemma OnlyElementOfKey(order: seq<Element>, entries: map<string, Element>, e: Element)
    requires Mirrors(order, entries) && e in order
    ensures forall x :: x in order && x.value.key == e.value.key ==> x == e
  {
  }

  // Moving an element to the front keeps list and map together.
  lemma FrontLinked(order: seq<Element>, entries: map<string, Element>, e: Element)
    requires Linked(order, entries) && e in order
    ensures Linked([e] + Unlink(order, e), entries) && |[e] + Unlink(order, e)| == |order|
    ensures View([e] + Unlink(order, e)) == ToFront(View(order), e.value)
  {
    hide Unlink, View, NoRepeat, Mirrors, Without;
    UnlinkIs(order, e);
    OnlyElementOfKey(order, entries, e);
    ViewUnlink(order, e);
    PutFirst(Unlink(order, e), e);
    MirrorsByMembers(order, [e] + Unlink(order, e), entries);
  }

  lemma PushLinked(order: seq<Element>, entries: map<string, Element>, e: Element)
    requires Linked(order, entries) && e.value.key !in entries
    ensures Linked([e] + order, entries[e.value.key := e])
    ensures View([e] + order) == ToFront(View(order), e.value)
  {
    MapMirrorsList(order, entries, e.value.key);
    assert ([e] + order)[1..] == order;
    hide View, Without;
  }

  lemma PopLinked(order: seq<Element>, entries: map<string, Element>)
    requires Linked(order, entries) && order != []
    ensures var last := order[|order| - 1]; Linked(order[..|order| - 1], entries - {last.value.key})
    ensures View(order[..|order| - 1]) == View(order)[..|order| - 1]
  {
    LastIsOnce(order);
    MirrorsWithoutLast(order, entries);
    ViewOfFront(order);
    hide NoRepeat, Mirrors, View;
  }

  lemma MirrorsWithoutLast(order: seq<Element>, entries: map<string, Element>)
    requires Mirrors(order, entries) && order != [] && order[|order| - 1] !in order[..|order| - 1]
    ensures Mirrors(order[..|order| - 1], entries - {order[|order| - 1].value.key})
  {
    var front, last := order[..|order| - 1], order[|order| - 1];
    assert forall x :: x in order <==> x in front || x == last by {
      assert order == front + [last];
    }
    var rest := entries - {last.value.key};
    assert forall x :: x in front ==> x.value.key != last.value.key;
    assert forall k :: k in rest ==> rest[k] in front;
  }

  lemma ViewOfFront(order: seq<Element>)
    requires order != []
    ensures View(order[..|order| - 1]) == View(order)[..|order| - 1]
  {
    hide View;
  }

  class QueryVectorCache {
    const capacity: nat
    const hash: string -> string    // of the normalised query text
    const blocked: string -> bool   // blank, or refused by the text policy
    var generation: string
    var order: seq<Element>
    var entries: map<string, Element>

    ghost predicate Valid()
      reads this, order
    {
      0 < capacity && |order| <= capacity && Linked(order, entries)
    }

    ghost function Abstract(): State
      reads this, order
    {
      State(generation, View(order))
    }

    constructor (capacity: int, hash: string -> string, blocked: string -> bool)
      ensures Valid() && Abstract() == Run(this.capacity, [])
      ensures this.capacity == if capacity < 1 then 1 else if capacity > 4096 then 4096 else capacity
      ensures this.hash == hash && this.blocked == blocked
    {
      this.capacity := if capacity < 1 then 1 else if capacity > 4096 then 4096 else capacity;
      this.hash, this.blocked := hash, blocked;
      generation, order, entries := "", [], map[];
    }

    method SwitchGeneration(generation: string)
      requires Valid()
      modifies `generation, `order, `entries
      ensures Valid() && (order == old(order) || order == [])
      ensures Abstract() == Switch(old(Abstract()), generation)
    {
      if this.generation == generation {
        return;
      }
      this.generation := generation;
      order, entries := [], map[];
    }

    // The vector returned is the caller's own copy.
    method Get(generation: string, query: string) returns (vector: Option<array<real>>)
      requires Valid()
      modifies this
      ensures Valid() && Abstract() == Step(capacity, old(Abstract()), Op.Get(generation, hash(query)))
      ensures var held := Find(Switch(old(Abstract()), generation).entries, hash(query));
              vector.Some? == held.Some? && (held.Some? ==> fresh(vector.value) && vector.value[..] == held.value)
    {
      hide Linked, View, Unlink, Find, Without, ToFront;
      SwitchGeneration(generation);
      var key := hash(query);
      MapMirrorsList(order, entries, key);
      if key !in entries {
        return None;
      }
      var element := entries[key];
      Mapped(order, entries, key);
      FrontLinked(order, entries, element);
      order := [element] + Unlink(order, element);
      var copy := Copied(element.value.vector);
      vector := Some(copy);
    }

    // What is kept is a copy of the vector at this moment.
    method Put(generation: string, query: string, vector: array<real>)
      requires Valid()
      modifies this, order
      ensures Valid()
      ensures Abstract() == if blocked(query) then old(Abstract())
                            else Step(capacity, old(Abstract()), Op.Put(generation, hash(query), vector[..]))
    {
      hide Linked, View, Unlink, Find, Without, ToFront, Take;
      if blocked(query) {
        return;
      }
      SwitchGeneration(generation);
      var value := Entry(hash(query), vector[..]);
      if value.key in entries {
        Mapped(order, entries, value.key);
        Refresh(entries[value.key], value);
        return;
      }
      Add(value);
    }

    method Refresh(element: Element, value: Entry)
      requires Valid() && element in order && element.value.key == value.key
      modifies `order, element
      ensures Valid() && View(order) == Take(ToFront(old(View(order)), value), capacity)
    {
      hide View, Without, Unlink, NoRepeat;
      ghost var before := View(order);
      element.value := value;
      ViewRefreshed(order, before, value);
      FrontLinked(order, entries, element);
      order := [element] + Unlink(order, element);
    }

    method Add(value: Entry)
      requires Valid() && value.key !in entries
      modifies `order, `entries
      ensures Valid() && View(order) == Take(ToFront(old(View(order)), value), capacity)
    {
      hide Linked, View, Without, ToFront, Take;
      var element := new Element(value);
      PushLinked(order, entries, element);
      order := [element] + order;
      entries := entries[value.key := element];
      Evict();
    }

    method Evict()
      requires 0 < capacity && Linked(order, entries)
      modifies `order, `entries
      ensures Valid() && View(order) == Take(old(View(order)), capacity)
    {
      hide Linked, View;
      ghost var all := View(order);
      while |order| > capacity
        invariant Linked(order, entries) && |order| <= |all|
        invariant |order| >= capacity || |order| == |all|
        invariant View(order) == all[..|order|]
        decreases |order|
      {
        PopLinked(order, entries);
        var last := order[|order| - 1];
        entries := entries - {last.value.key};
        order := order[..|order| - 1];
      }
    }
  }

  lemma Mapped(order: seq<Element>, entries: map<string, Element>, key: string)
    requires Linked(order, entries) && key in entries
    ensures entries[key] in order && entries[key].value.key == key
  {
  }

  // Replacing one value by another of the same key.
  lemma {:induction false} ViewRefreshed(order: seq<Element>, before: seq<Entry>, value: Entry)
    requires |before| == |order|
    requires forall i :: 0 <= i < |order| ==> order[i].value.key == before[i].key
    requires forall i :: 0 <= i < |order| ==> order[i].value == before[i] || before[i].key == value.key
    ensures Without(View(order), value.key) == Without(before, value.key)
    decreases |order|
  {
    if order != [] {
      ViewRefreshed(order[1..], before[1..], value);
    }
  }

  method Copied(vector: seq<real>) returns (copy: array<real>)
    ensures fresh(copy) && copy[..] == vector
  {
    copy := new real[|vector|];
    for i := 0 to |vector|
      invariant copy[..i] == vector[..i]
    {
      copy[i] := vector[i];
    }
  }
}
