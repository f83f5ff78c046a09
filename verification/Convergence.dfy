// Replay over stale projections. Each projection file may lag the journal at
// its own earlier prefix; replaying the whole journal brings them all level.
module Convergence {
  import opened Wrappers
  import opened Memory
  import opened Replay
  import opened Lifecycle

  // ---- memories ----

  // Same governed version, judged by the five fields the loader compares.
  predicate SameVersion(projected: MemoryRow, replayed: MemoryRow) {
    && projected.memoryId == replayed.memoryId
    && projected.stateVersion == replayed.stateVersion
    && projected.contentHash == replayed.contentHash
    && projected.lifecycle == replayed.lifecycle
    && projected.updatedAt == replayed.updatedAt
  }

  function MergeRow(authoritative: MemoryRow, projected: MemoryRow): MemoryRow {
    authoritative.(runtime := projected.runtime)
  }

  function MergeRuntime(replayed: map<string, MemoryRow>, projected: map<string, MemoryRow>): map<string, MemoryRow> {
    map id | id in replayed ::
      if id in projected && SameVersion(projected[id], replayed[id]) then MergeRow(replayed[id], projected[id]) else replayed[id]
  }

  // loadMutationEvents' effect on the memories read from disk.
  function LoadMemories(projected: map<string, MemoryRow>, events: seq<MutationEvent>): map<string, MemoryRow> {
    if events == [] then projected else MergeRuntime(ReplayMemories(projected, events), projected)
  }

  // Whatever the file held, a row takes back its runtime fields, and those alone,
  // when the file's row of that id is at the same version, content and lifecycle.
  lemma MergedRow(replayed: map<string, MemoryRow>, projected: map<string, MemoryRow>, id: string)
    requires id in replayed
    ensures id in MergeRuntime(replayed, projected)
    ensures id !in projected ==> MergeRuntime(replayed, projected)[id] == replayed[id]
    ensures id in projected ==>
              var merged, row, was := MergeRuntime(replayed, projected)[id], replayed[id], projected[id];
              && merged.(runtime := row.runtime) == row
              && merged.runtime == if was.memoryId == row.memoryId && was.stateVersion == row.stateVersion
                                      && was.contentHash == row.contentHash && was.lifecycle == row.lifecycle
                                      && was.updatedAt == row.updatedAt then was.runtime else row.runtime
  {
  }

  ghost predicate AgreesWith(replayed: map<string, MemoryRow>, live: map<string, MemoryRow>) {
    forall id :: id in live ==> id in replayed && replayed[id] == live[id]
  }

  // Whatever rows a projection starts from, the journal overwrites all it knows.
  lemma {:induction false} ReplayForgets(projected: map<string, MemoryRow>, events: seq<MutationEvent>)
    requires WellFormed(events)
    ensures AgreesWith(ReplayMemories(projected, events), Memories(events))
    ensures ReplayMemories(projected, events).Keys == projected.Keys + Memories(events).Keys
    decreases |events|
  {
    if events != [] {
      hide ApplyMemories, Governed;
      var front := events[..|events| - 1];
      LastStep(events);
      ReplayForgets(projected, front);
      ReplayForgetsStep(ReplayMemories(projected, front), Memories(front), events[|events| - 1]);
    }
  }

  lemma ReplayForgetsStep(replayed: map<string, MemoryRow>, live: map<string, MemoryRow>, e: MutationEvent)
    requires KeyedById(live) && Governed(live, e) && AgreesWith(replayed, live)
    ensures AgreesWith(ApplyMemories(replayed, e), ApplyMemories(live, e))
    ensures ApplyMemories(replayed, e).Keys == replayed.Keys + ApplyMemories(live, e).Keys
  {
  }

  lemma {:induction false} KeysGrow(events: seq<MutationEvent>, n: nat)
    requires WellFormed(events) && n <= |events|
    ensures Memories(events[..n]).Keys <= Memories(events).Keys
    ensures forall id :: id in Memories(events[..n]) ==>
              Memories(events[..n])[id].stateVersion <= Memories(events)[id].stateVersion
    ensures forall id :: id in Memories(events[..n]) ==>
              (Memories(events[..n])[id].stateVersion == Memories(events)[id].stateVersion
               ==> Memories(events)[id] == Memories(events[..n])[id])
    decreases |events|
  {
    hide ApplyMemories, Governed, WellFormed, ReplayMemories;
    if n < |events| {
      var front := events[..|events| - 1];
      assert front[..n] == events[..n];
      LastStep(events);
      KeysGrow(front, n);
      GovernedStep(Memories(front), events[|events| - 1]);
    } else {
      assert events[..n] == events;
    }
  }

  // The loaded memories are the live ones in every governed field. A runtime
  // field is the persisted one exactly when the row on disk is at the current
  // governed version, and the journal's own snapshot otherwise.
  lemma MemoriesConverge(projected: map<string, MemoryRow>, events: seq<MutationEvent>, n: nat)
    requires WellFormed(events) && n <= |events|
    requires AllSameGoverned(projected, Memories(events[..n]))
    ensures var loaded, live := LoadMemories(projected, events), Memories(events);
            && AllSameGoverned(loaded, live)
            && forall id :: id in live ==>
                 loaded[id].runtime ==
                 (if id in projected && projected[id].stateVersion == live[id].stateVersion then projected[id].runtime
                  else live[id].runtime)
  {
    hide ReplayMemories, WellFormed, MergeRuntime;
    ReplayForgets(projected, events);
    KeysGrow(events, n);
    NoEvents(projected, events);
    var before, live, replayed := Memories(events[..n]), Memories(events), ReplayMemories(projected, events);
    assert projected.Keys <= live.Keys && replayed.Keys == live.Keys;
    assert replayed == live;
    if events != [] {
      MergeKeepsCurrent(projected, before, live);
    }
  }

  // A row on disk is at the current version exactly when it matches in all five
  // fields the loader compares.
  lemma RowIsCurrent(projected: MemoryRow, before: MemoryRow, live: MemoryRow)
    requires SameGoverned(projected, before)
    requires before.stateVersion == live.stateVersion ==> live == before
    ensures SameVersion(projected, live) <==> projected.stateVersion == live.stateVersion
    ensures SameGoverned(MergeRow(live, projected), live) && MergeRow(live, projected).runtime == projected.runtime
  {
  }

  lemma MergeKeepsCurrent(projected: map<string, MemoryRow>, before: map<string, MemoryRow>, live: map<string, MemoryRow>)
    requires AllSameGoverned(projected, before) && before.Keys <= live.Keys
    requires forall id :: id in before && before[id].stateVersion == live[id].stateVersion ==> live[id] == before[id]
    ensures var merged := MergeRuntime(live, projected);
            && AllSameGoverned(merged, live)
            && forall id :: id in live ==>
                 merged[id].runtime ==
                 (if id in projected && projected[id].stateVersion == live[id].stateVersion then projected[id].runtime
                  else live[id].runtime)
  {
    hide SameVersion, MergeRow, SameGoverned;
    forall id | id in projected
      ensures SameVersion(projected[id], live[id]) <==> projected[id].stateVersion == live[id].stateVersion
      ensures SameGoverned(MergeRow(live[id], projected[id]), live[id])
      ensures MergeRow(live[id], projected[id]).runtime == projected[id].runtime
    {
      RowIsCurrent(projected[id], before[id], live[id]);
    }
    forall id | id in live ensures SameGoverned(live[id], live[id]) {
      GovernedItself(live[id]);
    }
  }

  lemma GovernedItself(row: MemoryRow)
    ensures SameGoverned(row, row)
  {
  }

  lemma NoEvents(projected: map<string, MemoryRow>, events: seq<MutationEvent>)
    ensures events == [] ==> ReplayMemories(projected, events) == projected && Memories(events) == map[]
  {
  }

  // Loading what a load wrote back changes nothing.
  lemma LoadIsStable(projected: map<string, MemoryRow>, events: seq<MutationEvent>)
    requires WellFormed(events)
    requires AllSameGoverned(projected, Memories(events))
    ensures LoadMemories(projected, events) == projected
  {
    assert events[..|events|] == events;
    MemoriesConverge(projected, events, |events|);
    hide ReplayMemories, WellFormed, LoadMemories;
    var loaded := LoadMemories(projected, events);
    forall id | id in projected ensures loaded[id] == projected[id] {
      assert SameGoverned(loaded[id], Memories(events)[id]) && SameGoverned(projected[id], Memories(events)[id]);
    }
  }

  // ---- evidence ----

  lemma {:induction false} EvidenceIsRecorded(events: seq<MutationEvent>, k: nat)
    requires k < |events|
    ensures events[k].evidence.memoryId == ""
            || Recorded(EvidenceOf(Evidence(events), events[k].evidence.memoryId), events[k].evidence)
    decreases |events|
  {
    var front, e := events[..|events| - 1], events[|events| - 1];
    if k < |front| {
      EvidenceIsRecorded(front, k);
      if front[k].evidence.memoryId != "" {
        RecordedStays(Evidence(front), e, front[k].evidence);
      }
    } else {
      RecordedNow(Evidence(front), e);
    }
  }

  lemma RecordedNow(evidence: map<string, seq<EvidenceRow>>, e: MutationEvent)
    ensures e.evidence.memoryId == "" || Recorded(EvidenceOf(ApplyEvidence(evidence, e), e.evidence.memoryId), e.evidence)
  {
    var rows := EvidenceOf(evidence, e.evidence.memoryId);
    assert (rows + [e.evidence])[|rows|] == e.evidence;
  }

  lemma RecordedStays(evidence: map<string, seq<EvidenceRow>>, e: MutationEvent, row: EvidenceRow)
    requires Recorded(EvidenceOf(evidence, row.memoryId), row)
    ensures Recorded(EvidenceOf(ApplyEvidence(evidence, e), row.memoryId), row)
  {
    var rows := EvidenceOf(evidence, row.memoryId);
    var i :| 0 <= i < |rows| && SameEvidence(rows[i], row);
    assert EvidenceOf(ApplyEvidence(evidence, e), row.memoryId)[i] == rows[i];
  }

  // Replaying j events over the evidence of n leaves the evidence of the longer.
  lemma {:induction false} EvidenceCatchesUp(events: seq<MutationEvent>, n: nat, j: nat)
    requires n <= |events| && j <= |events|
    ensures ReplayEvidence(Evidence(events[..n]), events[..j]) == Evidence(events[..if j < n then n else j])
    decreases j
  {
    if j > 0 {
      var done := events[..j];
      assert done[..j - 1] == events[..j - 1];
      EvidenceCatchesUp(events, n, j - 1);
      if j <= n {
        EvidenceIsRecorded(events[..n], j - 1);
      } else {
        assert events[..j][..j - 1] == events[..j - 1];
      }
    }
  }

  // No two rows of one memory say the same.
  ghost predicate NoDuplicates(evidence: map<string, seq<EvidenceRow>>) {
    forall id :: id in evidence ==> NoTwins(evidence[id])
  }

  ghost predicate NoTwins(rows: seq<EvidenceRow>) {
    forall i, j :: 0 <= i < j < |rows| ==>
      rows[i].messageId != rows[j].messageId || rows[i].quoteHash != rows[j].quoteHash || rows[i].relation != rows[j].relation
  }

  // Whatever duplicates the file held, replay adds none.
  lemma {:induction false} ReplayAddsNoDuplicates(evidence: map<string, seq<EvidenceRow>>, events: seq<MutationEvent>)
    requires NoDuplicates(evidence)
    ensures NoDuplicates(ReplayEvidence(evidence, events))
    decreases |events|
  {
    if events != [] {
      ReplayAddsNoDuplicates(evidence, events[..|events| - 1]);
    }
  }

  lemma EvidenceConverges(events: seq<MutationEvent>, n: nat)
    requires n <= |events|
    ensures ReplayEvidence(Evidence(events[..n]), events) == Evidence(events)
    ensures NoDuplicates(Evidence(events))
  {
    ReplayAddsNoDuplicates(map[], events);
    EvidenceCatchesUp(events, n, |events|);
    assert events[..|events|] == events;
  }

  // ---- continuity ----

  lemma {:induction false} EventIsLogged(events: seq<MutationEvent>, k: nat)
    requires k < |events|
    ensures Logged(Continuity(events), events[k].continuity.eventId)
    decreases |events|
  {
    var front, e := events[..|events| - 1], events[|events| - 1];
    var rows := Continuity(front);
    assert (rows + [e.continuity])[|rows|] == e.continuity;
    if k < |front| {
      EventIsLogged(front, k);
      var i :| 0 <= i < |rows| && rows[i].eventId == front[k].continuity.eventId;
      assert Continuity(events)[i] == rows[i];
    }
  }

  lemma {:induction false} ContinuityCatchesUp(events: seq<MutationEvent>, n: nat, j: nat)
    requires n <= |events| && j <= |events|
    ensures ReplayContinuity(Continuity(events[..n]), events[..j]) == Continuity(events[..if j < n then n else j])
    decreases j
  {
    if j > 0 {
      var done := events[..j];
      assert done[..j - 1] == events[..j - 1];
      ContinuityCatchesUp(events, n, j - 1);
      if j <= n {
        EventIsLogged(events[..n], j - 1);
      } else {
        assert events[..j][..j - 1] == events[..j - 1];
      }
    }
  }

  lemma ContinuityConverges(events: seq<MutationEvent>, n: nat)
    requires n <= |events|
    ensures ReplayContinuity(Continuity(events[..n]), events) == Continuity(events)
  {
    ContinuityCatchesUp(events, n, |events|);
    assert events[..|events|] == events;
  }

  // ---- proposals ----

  // Equal but for the fields a resolution writes.
  predicate SameProposal(a: Proposal, b: Proposal) {
    a.(status := b.status, reasonCode := b.reasonCode, appliedMemoryId := b.appliedMemoryId, resolvedAt := b.resolvedAt) == b
  }

  // A proposals file from any earlier moment: whatever it says of a journaled
  // proposal, it is about the same proposal.
  ghost predicate ProposalsLag(proposals: map<string, Proposal>, events: seq<MutationEvent>) {
    forall k :: 0 <= k < |events| && events[k].proposalId != "" && events[k].proposalId in proposals ==>
      events[k].proposal.Some? && SameProposal(proposals[events[k].proposalId], events[k].proposal.value)
  }

  ghost predicate Journaled(events: seq<MutationEvent>, id: string) {
    exists k :: 0 <= k < |events| && events[k].proposalId == id
  }

  ghost predicate ResolvedBy(proposals: map<string, Proposal>, e: MutationEvent) {
    e.proposalId != "" ==>
      e.proposal.Some? && e.proposalId in proposals && proposals[e.proposalId] == Resolve(e.proposal.value, e)
  }

  // Every journaled proposal comes back resolved by its event; no other one
  // changes.
  lemma {:induction false} ProposalsConverge(proposals: map<string, Proposal>, events: seq<MutationEvent>)
    requires WellFormed(events) && ProposalsLag(proposals, events)
    requires "" !in proposals
    ensures var loaded := ReplayProposals(proposals, events);
            && "" !in loaded
            && (forall k :: 0 <= k < |events| ==> ResolvedBy(loaded, events[k]))
            && (forall id :: !Journaled(events, id) ==> (id in loaded <==> id in proposals))
            && (forall id :: !Journaled(events, id) && id in proposals ==> loaded[id] == proposals[id])
    decreases |events|
  {
    hide Governed, ReplayMemories, ApplyProposals, ResolvedBy;
    if events != [] {
      var front, e := events[..|events| - 1], events[|events| - 1];
      assert forall k :: 0 <= k < |front| ==> events[k] == front[k];
      ProposalsConverge(proposals, front);
      var before := ReplayProposals(proposals, front);
      forall id ensures Journaled(events, id) <==> Journaled(front, id) || id == e.proposalId {
        assert events[|events| - 1].proposalId == e.proposalId;
      }
      assert e.proposalId != "" ==> !Journaled(front, e.proposalId);
      assert e.proposalId in before && e.proposalId != "" ==> before[e.proposalId] == proposals[e.proposalId];
      ProposalsStep(before, e);
      forall k | 0 <= k < |events| ensures ResolvedBy(ApplyProposals(before, e), events[k]) {
        if k < |front| {
          assert ResolvedBy(before, front[k]);
          OthersKept(before, e, front[k]);
        }
      }
    }
  }

  lemma ProposalsStep(proposals: map<string, Proposal>, e: MutationEvent)
    requires "" !in proposals && CarriesProposal(e)
    requires e.proposalId in proposals && e.proposalId != "" ==> SameProposal(proposals[e.proposalId], e.proposal.value)
    ensures var after := ApplyProposals(proposals, e);
            && "" !in after
            && ResolvedBy(after, e)
            && (forall id :: id != e.proposalId ==> (id in after <==> id in proposals))
            && (forall id :: id != e.proposalId && id in proposals ==> after[id] == proposals[id])
  {
  }

  lemma OthersKept(proposals: map<string, Proposal>, e: MutationEvent, other: MutationEvent)
    requires "" !in proposals && CarriesProposal(e)
    requires ResolvedBy(proposals, other) && (other.proposalId != e.proposalId || other.proposalId == "")
    ensures ResolvedBy(ApplyProposals(proposals, e), other)
  {
  }
}
