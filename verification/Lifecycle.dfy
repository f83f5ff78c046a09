// The commit state machine: what holds of every memory in every well-formed
// journal, and so in every store CommitMutation can produce.
module Lifecycle {
  import opened Memory
  import opened Replay

  // How many events changed this memory after its birth.
  function Changes(events: seq<MutationEvent>, id: string): nat {
    if events == [] then 0
    else Changes(events[..|events| - 1], id) + if events[|events| - 1].targetMemoryId == id then 1 else 0
  }

  lemma {:induction false} UnbornIsUntouched(events: seq<MutationEvent>, id: string)
    requires WellFormed(events) && id !in Memories(events) && id != ""
    ensures Changes(events, id) == 0
    decreases |events|
  {
    if events != [] {
      hide ApplyMemories, Governed, WellFormed;
      var front, e := events[..|events| - 1], events[|events| - 1];
      assert WellFormed(front) && Governed(Memories(front), e) by { LastStep(events); }
      MemoriesKeyed(front);
      GovernedStep(Memories(front), e);
      UnbornIsUntouched(front, id);
    }
  }

  lemma LastStep(events: seq<MutationEvent>)
    requires WellFormed(events) && events != []
    ensures WellFormed(events[..|events| - 1])
    ensures Governed(Memories(events[..|events| - 1]), events[|events| - 1])
    ensures KeyedById(Memories(events[..|events| - 1]))
    ensures Memories(events) == ApplyMemories(Memories(events[..|events| - 1]), events[|events| - 1])
  {
    MemoriesKeyed(events[..|events| - 1]);
  }

  // StateVersion starts at one and rises by exactly one per governed change.
  lemma {:induction false} VersionCountsChanges(events: seq<MutationEvent>, id: string)
    requires WellFormed(events) && id in Memories(events)
    ensures Memories(events)[id].stateVersion == 1 + Changes(events, id)
    decreases |events|
  {
    if events != [] {
      LastStep(events);
      var front, e := events[..|events| - 1], events[|events| - 1];
      hide ApplyMemories, Governed, WellFormed;
      if id !in Memories(front) {
        BirthVersion(Memories(front), e, id);
      }
      GovernedStep(Memories(front), e);
      if id in Memories(front) {
        VersionCountsChanges(front, id);
      } else {
        UnbornIsUntouched(front, id);
      }
    }
  }

  lemma BirthVersion(m: map<string, MemoryRow>, e: MutationEvent, id: string)
    requires KeyedById(m) && Governed(m, e)
    requires id !in m && id in ApplyMemories(m, e)
    ensures id != "" && id != e.targetMemoryId
    ensures var row := ApplyMemories(m, e)[id];
            && row.stateVersion == 1 && row.lifecycle == ACTIVE
            && (row.supersedes == "" || (row.supersedes == e.targetMemoryId && row.supersedes in m
                                         && ApplyMemories(m, e)[row.supersedes].lifecycle == SUPERSEDED))
  {
  }

  // A memory that has left ACTIVE is never changed again.
  lemma {:induction false} InactiveIsFinal(events: seq<MutationEvent>, n: nat, id: string)
    requires WellFormed(events) && n <= |events|
    requires id in Memories(events[..n]) && Memories(events[..n])[id].lifecycle != ACTIVE
    ensures id in Memories(events) && Memories(events)[id] == Memories(events[..n])[id]
    decreases |events|
  {
    if n < |events| {
      hide ApplyMemories, Governed, WellFormed, ReplayMemories;
      var front := events[..|events| - 1];
      assert front[..n] == events[..n];
      LastStep(events);
      InactiveIsFinal(front, n, id);
      GovernedStep(Memories(front), events[|events| - 1]);
    } else {
      assert events[..n] == events;
    }
  }

  // An event that ends a memory leaves its row as it found it, but for the
  // lifecycle it names, its own time and the next version; and so it stays.
  lemma EndsAsItSays(events: seq<MutationEvent>, k: nat)
    requires WellFormed(events) && k < |events| && events[k].targetLifecycle != ""
    ensures var e, before := events[k], Memories(events[..k]);
            && e.targetMemoryId in before && e.targetMemoryId in Memories(events)
            && Memories(events)[e.targetMemoryId] == before[e.targetMemoryId].(
                 lifecycle := e.targetLifecycle, updatedAt := e.createdAt, stateVersion := before[e.targetMemoryId].stateVersion + 1)
            && (e.targetLifecycle == "FORGOTTEN" || e.targetLifecycle == "SUPERSEDED")
  {
    hide ApplyMemories, ReplayMemories, WellFormed;
    var e, before := events[k], Memories(events[..k]);
    WellFormedPrefix(events, k + 1);
    assert events[..k + 1][..k] == events[..k] && events[..k + 1][k] == e;
    LastStep(events[..k + 1]);
    GovernedStep(before, e);
    InactiveIsFinal(events, k + 1, e.targetMemoryId);
  }

  // Every event contributes its own continuity row, in order.
  lemma {:induction false} ContinuityFollowsJournal(events: seq<MutationEvent>)
    requires WellFormed(events)
    ensures Continuity(events) == ContinuityRows(events)
    decreases |events|
  {
    hide Governed, CarriesProposal, ReplayMemories;
    if events != [] {
      var front, e := events[..|events| - 1], events[|events| - 1];
      ContinuityFollowsJournal(front);
      NotYetLogged(front, e);
      assert Continuity(events) == ApplyContinuity(Continuity(front), e);
    }
  }

  function ContinuityRows(events: seq<MutationEvent>): seq<ContinuityRow> {
    seq(|events|, i requires 0 <= i < |events| => events[i].continuity)
  }

  lemma NotYetLogged(events: seq<MutationEvent>, e: MutationEvent)
    requires Extends(events, e)
    ensures !Logged(ContinuityRows(events), e.continuity.eventId)
  {
    hide Governed, CarriesProposal, ReplayMemories;
  }

  // Revision numbers are 1..n without a gap, one per event.
  lemma {:induction false} RevisionsAreConsecutive(events: seq<MutationEvent>)
    requires WellFormed(events)
    ensures |Continuity(events)| == |events|
    ensures forall i :: 0 <= i < |events| ==> Continuity(events)[i].revision == i + 1
    decreases |events|
  {
    hide Governed, CarriesProposal, ReplayMemories, ReplayContinuity;
    ContinuityFollowsJournal(events);
    if events != [] {
      var front := events[..|events| - 1];
      RevisionsAreConsecutive(front);
      ContinuityFollowsJournal(front);
      assert forall i :: 0 <= i < |front| ==> ContinuityRows(events)[i] == ContinuityRows(front)[i];
    }
  }

  // What is superseded exists and is no longer active.
  lemma {:induction false} SupersededIsInactive(events: seq<MutationEvent>, id: string)
    requires WellFormed(events) && id in Memories(events) && Memories(events)[id].supersedes != ""
    ensures var m := Memories(events); m[id].supersedes in m && m[m[id].supersedes].lifecycle != ACTIVE
    decreases |events|
  {
    if events != [] {
      LastStep(events);
      var front, e := events[..|events| - 1], events[|events| - 1];
      var m := Memories(front);
      BirthOrBefore(m, e, id);
      hide ApplyMemories, Governed, WellFormed;
      GovernedStep(m, e);
      if id in m {
        SupersededIsInactive(front, id);
      }
    }
  }

  lemma BirthOrBefore(m: map<string, MemoryRow>, e: MutationEvent, id: string)
    requires KeyedById(m) && Governed(m, e) && id in ApplyMemories(m, e)
    ensures id in m ==> ApplyMemories(m, e)[id].supersedes == m[id].supersedes
    ensures id !in m && ApplyMemories(m, e)[id].supersedes != "" ==>
              && ApplyMemories(m, e)[id].supersedes in m
              && m[ApplyMemories(m, e)[id].supersedes].lifecycle == ACTIVE
              && ApplyMemories(m, e)[ApplyMemories(m, e)[id].supersedes].lifecycle != ACTIVE
  {
  }

  lemma OnlyOneBirth(m: map<string, MemoryRow>, e: MutationEvent, a: string, b: string)
    requires KeyedById(m) && Governed(m, e)
    requires a in ApplyMemories(m, e) && b in ApplyMemories(m, e) && a !in m && b !in m
    ensures a == b
  {
  }

  // Each memory has at most one successor.
  lemma {:induction false} OneSuccessor(events: seq<MutationEvent>, a: string, b: string)
    requires WellFormed(events) && a in Memories(events) && b in Memories(events)
    requires Memories(events)[a].supersedes == Memories(events)[b].supersedes != ""
    ensures a == b
    decreases |events|
  {
    if events != [] {
      LastStep(events);
      var front, e := events[..|events| - 1], events[|events| - 1];
      var m := Memories(front);
      BirthOrBefore(m, e, a);
      BirthOrBefore(m, e, b);
      if a !in m && b !in m {
        OnlyOneBirth(m, e, a, b);
      }
      hide ApplyMemories, Governed, WellFormed;
      if a in m && m[a].supersedes != "" {
        SupersededIsInactive(front, a);
      }
      if b in m && m[b].supersedes != "" {
        SupersededIsInactive(front, b);
      }
      if a in m && b in m {
        OneSuccessor(front, a, b);
      }
    }
  }

  // The position of the event a memory was born in.
  function Birth(events: seq<MutationEvent>, id: string): nat
    requires id in Memories(events)
  {
    if id in Memories(events[..|events| - 1]) then Birth(events[..|events| - 1], id) else |events|
  }

  lemma {:induction false} SupersedesIsOlder(events: seq<MutationEvent>, id: string)
    requires WellFormed(events) && id in Memories(events) && Memories(events)[id].supersedes != ""
    ensures Memories(events)[id].supersedes in Memories(events)
    ensures Birth(events, Memories(events)[id].supersedes) < Birth(events, id) <= |events|
    decreases |events|
  {
    if events != [] {
      LastStep(events);
      var front, e := events[..|events| - 1], events[|events| - 1];
      var m := Memories(front);
      BirthOrBefore(m, e, id);
      hide ApplyMemories, Governed, WellFormed, ReplayMemories;
      GovernedStep(m, e);
      if id in m {
        SupersedesIsOlder(front, id);
      } else {
        BirthBound(front, Memories(events)[id].supersedes);
      }
    }
  }

  lemma {:induction false} BirthBound(events: seq<MutationEvent>, id: string)
    requires id in Memories(events)
    ensures 0 < Birth(events, id) <= |events|
    decreases |events|
  {
    if id in Memories(events[..|events| - 1]) {
      BirthBound(events[..|events| - 1], id);
    }
  }

  // k steps back along SupersedesMemoryID; "" past the first version.
  function Predecessor(m: map<string, MemoryRow>, id: string, k: nat): string
    decreases k
  {
    if k == 0 || id !in m then id else Predecessor(m, m[id].supersedes, k - 1)
  }

  lemma {:induction false} PredecessorsAreOlder(events: seq<MutationEvent>, id: string, k: nat)
    requires WellFormed(events) && id in Memories(events) && k > 0
    ensures var p := Predecessor(Memories(events), id, k);
            p !in Memories(events) || Birth(events, p) < Birth(events, id)
    decreases k
  {
    hide WellFormed, ReplayMemories, Birth;
    var m := Memories(events);
    var previous := m[id].supersedes;
    if previous != "" {
      SupersedesIsOlder(events, id);
      if k > 1 {
        PredecessorsAreOlder(events, previous, k - 1);
      }
    } else {
      NoEmptyKey(events);
    }
  }

  lemma NoEmptyKey(events: seq<MutationEvent>)
    requires WellFormed(events)
    ensures "" !in Memories(events)
  {
    MemoriesKeyed(events);
  }

  // The supersession graph is acyclic.
  lemma SupersessionIsAcyclic(events: seq<MutationEvent>, id: string, k: nat)
    requires WellFormed(events) && id in Memories(events) && k > 0
    ensures Predecessor(Memories(events), id, k) != id
  {
    PredecessorsAreOlder(events, id, k);
  }
}
