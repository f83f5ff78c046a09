// Resolving overlapping canonical names in a query, longest first.
module Aliases {
  import opened Wrappers
  import opened Quotes
  import opened Sorting

  // The name of a table entry found at [start, end) of the query.
  datatype Occurrence = Occurrence(entry: nat, start: nat, end: nat)

  function Length(o: Occurrence): int {
    o.end - o.start
  }

  predicate Overlap(a: Occurrence, b: Occurrence) {
    a.start < b.end && b.start < a.end
  }

  predicate Longer(a: Occurrence, b: Occurrence) {
    Length(a) > Length(b)
  }

  // The names as matched: lower-cased and trimmed. Only names with CJK text are
  // resolved this way; which those are is left open.
  datatype Table = Table(names: seq<string>, cjk: string -> bool)

  predicate IsOccurrence(table: Table, query: string, o: Occurrence) {
    && o.entry < |table.names| && table.names[o.entry] != "" && table.cjk(table.names[o.entry])
    && OccursAt(query, table.names[o.entry], o.start) && o.end == o.start + |table.names[o.entry]|
  }

  // ---- collecting ----

  method OccurrencesOf(query: string, name: string, entry: nat) returns (found: seq<Occurrence>)
    requires name != ""
    ensures forall o :: o in found <==>
              o.entry == entry && OccursAt(query, name, o.start) && o.end == o.start + |name|
  {
    found := [];
    var offset := 0;
    while offset < |query|
      invariant 0 <= offset <= |query|
      invariant forall o :: o in found <==>
                  o.entry == entry && o.start < offset && OccursAt(query, name, o.start) && o.end == o.start + |name|
    {
      var n := IndexOf(query[offset..], name);
      Shifted(query, name, offset);
      if n.None? {
        forall start: nat ensures offset <= start ==> !OccursAt(query, name, start) {
        }
        return;
      }
      var start := offset + n.value;
      assert OccursAt(query, name, start);
      forall j | offset <= j < start ensures !OccursAt(query, name, j) {
        assert !OccursAt(query[offset..], name, j - offset);
      }
      found := found + [Occurrence(entry, start, start + |name|)];
      offset := start + 1;
    }
  }

  method Collect(table: Table, query: string) returns (all: seq<Occurrence>)
    ensures forall o :: o in all <==> IsOccurrence(table, query, o)
  {
    all := [];
    for i := 0 to |table.names|
      invariant forall o :: o in all <==> o.entry < i && IsOccurrence(table, query, o)
    {
      var name := table.names[i];
      if name == "" || !table.cjk(name) {
        continue;
      }
      var found := OccurrencesOf(query, name, i);
      all := all + found;
    }
  }

  // ---- choosing ----

  predicate Clashes(selected: seq<Occurrence>, o: Occurrence) {
    exists i :: 0 <= i < |selected| && Overlap(selected[i], o)
  }

  // Take each in turn unless it overlaps one already taken.
  function Select(s: seq<Occurrence>): seq<Occurrence> {
    if s == [] then []
    else
      var selected, last := Select(s[..|s| - 1]), s[|s| - 1];
      if Clashes(selected, last) then selected else selected + [last]
  }

  function Entries(s: seq<Occurrence>): set<nat> {
    set o | o in s :: o.entry
  }

  lemma OneMoreEntry(s: seq<Occurrence>, o: Occurrence)
    ensures Entries(s + [o]) == Entries(s) + {o.entry}
  {
  }

  // The entries chosen from the occurrences put longest first.
  method CanonicalMatches(table: Table, query: string) returns (result: set<nat>)
    ensures exists ranked :: Ranked(table, query, ranked) && result == Entries(Select(ranked))
  {
    var occurrences := Collect(table, query);
    SortedMatches(table, query, occurrences);
    result := Choose(Sort(occurrences, Longer));
  }

  method Choose(occurrences: seq<Occurrence>) returns (result: set<nat>)
    ensures result == Entries(Select(occurrences))
  {
    hide Clashes, Entries;
    var selected: seq<Occurrence> := [];
    result := {};
    NoEntries();
    for i := 0 to |occurrences|
      invariant selected == Select(occurrences[..i]) && result == Entries(selected)
    {
      var candidate := occurrences[i];
      assert occurrences[..i + 1][..i] == occurrences[..i];
      var overlap := AnyOverlap(selected, candidate);
      if !overlap {
        OneMoreEntry(selected, candidate);
        selected := selected + [candidate];
        result := result + {candidate.entry};
      }
    }
    assert occurrences[..|occurrences|] == occurrences;
  }

  lemma NoEntries()
    ensures Entries([]) == {}
  {
  }

  method AnyOverlap(selected: seq<Occurrence>, o: Occurrence) returns (overlap: bool)
    ensures overlap <==> Clashes(selected, o)
  {
    overlap := false;
    for i := 0 to |selected|
      invariant !overlap && forall k :: 0 <= k < i ==> !Overlap(selected[k], o)
    {
      if Overlap(o, selected[i]) {
        assert Overlap(selected[i], o);
        return true;
      }
    }
  }

  lemma LongerIsWeak()
    ensures WeakOrder(Longer)
  {
  }

  // The sorted matches are sorted, and still all of them.
  lemma SortedMatches(table: Table, query: string, all: seq<Occurrence>)
    requires forall o :: o in all <==> IsOccurrence(table, query, o)
    ensures Ranked(table, query, Sort(all, Longer))
  {
    LongerIsWeak();
    SortIsSorted(all, Longer);
    var s := Sort(all, Longer);
    forall o ensures o in s <==> o in all {
      assert o in s <==> o in multiset(s);
      assert o in all <==> o in multiset(all);
    }
  }

  // ---- what is chosen ----

  lemma {:induction false} SelectedAreAmong(s: seq<Occurrence>, o: Occurrence)
    requires o in Select(s)
    ensures o in s
    decreases |s|
  {
    var front, last := s[..|s| - 1], s[|s| - 1];
    if o in Select(front) {
      SelectedAreAmong(front, o);
    }
    assert s == front + [last];
  }

  // No two chosen occurrences overlap.
  lemma {:induction false} SelectedAreDisjoint(s: seq<Occurrence>, i: nat, j: nat)
    requires i < j < |Select(s)|
    ensures !Overlap(Select(s)[i], Select(s)[j])
    decreases |s|
  {
    var front := s[..|s| - 1];
    if j < |Select(front)| {
      SelectedAreDisjoint(front, i, j);
    }
  }

  // One that was not chosen lost to a chosen one at least as long.
  lemma {:induction false} RejectedForALonger(s: seq<Occurrence>, o: Occurrence)
    requires SortedBy(s, Longer) && o in s && o !in Select(s)
    ensures exists p :: p in Select(s) && Overlap(p, o) && Length(p) >= Length(o)
    decreases |s|
  {
    var front, last := s[..|s| - 1], s[|s| - 1];
    if o in front {
      RejectedForALonger(front, o);
      var p :| p in Select(front) && Overlap(p, o) && Length(p) >= Length(o);
      assert p in Select(s);
    } else {
      assert s == front + [last];
      var i :| 0 <= i < |Select(front)| && Overlap(Select(front)[i], o);
      var p := Select(front)[i];
      SelectedAreAmong(front, p);
      var k :| 0 <= k < |front| && front[k] == p;
      assert !Longer(s[|s| - 1], s[k]);
      assert p in Select(s);
    }
  }

  // One that overlaps nothing else is always chosen.
  lemma IsolatedIsSelected(s: seq<Occurrence>, o: Occurrence)
    requires SortedBy(s, Longer) && o in s
    requires forall p :: p in s && p != o ==> !Overlap(p, o)
    ensures o in Select(s)
  {
    if o !in Select(s) {
      RejectedForALonger(s, o);
      var p :| p in Select(s) && Overlap(p, o);
      SelectedAreAmong(s, p);
    }
  }

  // ---- the order of the table ----

  datatype Span = Span(start: nat, end: nat)

  function SpanOf(o: Occurrence): Span {
    Span(o.start, o.end)
  }

  // The matches of one table, sorted as they are chosen from.
  ghost predicate Ranked(table: Table, query: string, s: seq<Occurrence>) {
    SortedBy(s, Longer) && forall o :: o in s <==> IsOccurrence(table, query, o)
  }

  // No two overlapping occurrences are of the same length.
  ghost predicate NoTies(s: seq<Occurrence>) {
    forall a, b :: a in s && b in s && a != b && Overlap(a, b) ==> Length(a) != Length(b)
  }

  ghost predicate Chosen(s: seq<Occurrence>, span: Span) {
    exists o :: o in Select(s) && SpanOf(o) == span
  }

  // Without ties, two tables of the same names choose the same places of the
  // query, whatever the order of their entries.
  lemma TableOrderDoesNotMatter(a: Table, b: Table, query: string, s: seq<Occurrence>, t: seq<Occurrence>, span: Span)
    requires a.cjk == b.cjk && (forall name :: name in a.names <==> name in b.names)
    requires Ranked(a, query, s) && Ranked(b, query, t) && NoTies(s) && NoTies(t)
    ensures Chosen(s, span) <==> Chosen(t, span)
  {
    if Chosen(s, span) {
      ChosenByBoth(a, b, query, s, t, span);
    }
    if Chosen(t, span) {
      ChosenByBoth(b, a, query, t, s, span);
    }
  }

  // The same place, under the entry of the other table.
  lemma SamePlace(a: Table, b: Table, query: string, o: Occurrence) returns (p: Occurrence)
    requires a.cjk == b.cjk && (forall name :: name in a.names <==> name in b.names)
    requires IsOccurrence(a, query, o)
    ensures IsOccurrence(b, query, p) && SpanOf(p) == SpanOf(o)
  {
    var name := a.names[o.entry];
    assert name in b.names;
    var i :| 0 <= i < |b.names| && b.names[i] == name;
    p := Occurrence(i, o.start, o.end);
  }

  lemma {:induction false} ChosenByBoth(a: Table, b: Table, query: string, s: seq<Occurrence>, t: seq<Occurrence>, span: Span)
    requires a.cjk == b.cjk && (forall name :: name in a.names <==> name in b.names)
    requires Ranked(a, query, s) && Ranked(b, query, t) && NoTies(s) && NoTies(t)
    requires Chosen(s, span)
    ensures Chosen(t, span)
    decreases |query| - (span.end - span.start)
  {
    var o :| o in Select(s) && SpanOf(o) == span;
    SelectedAreAmong(s, o);
    var o' := SamePlace(a, b, query, o);
    if o' !in Select(t) {
      RejectedForALonger(t, o');
      var p :| p in Select(t) && Overlap(p, o') && Length(p) >= Length(o');
      SelectedAreAmong(t, p);
      assert Length(p) > Length(o');
      assert p.end <= |query|;
      ChosenByBoth(b, a, query, t, s, SpanOf(p));
      var q :| q in Select(s) && SpanOf(q) == SpanOf(p);
      BothSelected(s, q, o);
    }
  }

  lemma BothSelected(s: seq<Occurrence>, q: Occurrence, o: Occurrence)
    requires q in Select(s) && o in Select(s) && q != o
    ensures !Overlap(q, o)
  {
    var i :| 0 <= i < |Select(s)| && Select(s)[i] == q;
    var j :| 0 <= j < |Select(s)| && Select(s)[j] == o;
    if i < j {
      SelectedAreDisjoint(s, i, j);
    } else {
      SelectedAreDisjoint(s, j, i);
    }
  }

  // ---- what overlapping is ----

  predicate Covers(o: Occurrence, p: nat) {
    o.start <= p < o.end
  }

  // Two names overlap when they share a character of the query.
  lemma OverlapIsSharing(a: Occurrence, b: Occurrence)
    requires a.start < a.end && b.start < b.end
    ensures Overlap(a, b) <==> exists p :: Covers(a, p) && Covers(b, p)
  {
    if Overlap(a, b) {
      var p := if a.start < b.start then b.start else a.start;
      assert Covers(a, p) && Covers(b, p);
    }
  }

  // Names that merely touch are both selected: what is left out shares a
  // character with a selected name at least as long.
  lemma LeftOutShares(table: Table, query: string, s: seq<Occurrence>, o: Occurrence)
    requires Ranked(table, query, s) && o in s && o !in Select(s)
    ensures exists q, p :: q in Select(s) && Covers(q, p) && Covers(o, p) && q.end - q.start >= o.end - o.start
  {
    RejectedForALonger(s, o);
    var q :| q in Select(s) && Overlap(q, o) && Length(q) >= Length(o);
    SelectedAreAmong(s, q);
    assert IsOccurrence(table, query, q) && IsOccurrence(table, query, o);
    OverlapIsSharing(q, o);
    var p :| Covers(q, p) && Covers(o, p);
  }

  // Of the selected names no two share a character.
  lemma SelectedShareNothing(table: Table, query: string, s: seq<Occurrence>, i: nat, j: nat, p: nat)
    requires Ranked(table, query, s) && i < j < |Select(s)|
    ensures !(Covers(Select(s)[i], p) && Covers(Select(s)[j], p))
  {
    SelectedAreDisjoint(s, i, j);
    SelectedAreAmong(s, Select(s)[i]);
    SelectedAreAmong(s, Select(s)[j]);
  }
}
