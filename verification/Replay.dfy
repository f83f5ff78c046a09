// What the mutation journal means: the state an event produces, the journals
// the commit rules allow, and what replaying one over stale projections gives.
module Replay {
  import opened Wrappers
  import opened Memory

  // ---- one event ----

  function WithNew(m: map<string, MemoryRow>, row: Option<MemoryRow>): map<string, MemoryRow> {
    if row.Some? then m[row.value.memoryId := row.value] else m
  }

  function Retarget(row: MemoryRow, e: MutationEvent): MemoryRow {
    row.(lifecycle := e.targetLifecycle, stateVersion := e.expectedTargetVersion + 1, updatedAt := e.createdAt)
  }

  function ApplyMemories(m: map<string, MemoryRow>, e: MutationEvent): map<string, MemoryRow> {
    var m' := WithNew(WithNew(m, e.newMemory), e.updatedMemory);
    if e.targetMemoryId != "" && e.targetLifecycle != "" && e.targetMemoryId in m'
    then m'[m'[e.targetMemoryId].memoryId := Retarget(m'[e.targetMemoryId], e)]
    else m'
  }

  predicate SameEvidence(a: EvidenceRow, b: EvidenceRow) {
    a.messageId == b.messageId && a.quoteHash == b.quoteHash && a.relation == b.relation
  }

  function EvidenceOf(evidence: map<string, seq<EvidenceRow>>, id: string): seq<EvidenceRow> {
    if id in evidence then evidence[id] else []
  }

  predicate Recorded(rows: seq<EvidenceRow>, row: EvidenceRow) {
    exists i :: 0 <= i < |rows| && SameEvidence(rows[i], row)
  }

  function ApplyEvidence(evidence: map<string, seq<EvidenceRow>>, e: MutationEvent): map<string, seq<EvidenceRow>> {
    var rows := EvidenceOf(evidence, e.evidence.memoryId);
    if e.evidence.memoryId == "" || Recorded(rows, e.evidence) then evidence
    else evidence[e.evidence.memoryId := rows + [e.evidence]]
  }

  predicate Logged(rows: seq<ContinuityRow>, eventId: string) {
    exists i :: 0 <= i < |rows| && rows[i].eventId == eventId
  }

  function ApplyContinuity(rows: seq<ContinuityRow>, e: MutationEvent): seq<ContinuityRow> {
    if Logged(rows, e.continuity.eventId) then rows else rows + [e.continuity]
  }

  function Resolve(p: Proposal, e: MutationEvent): Proposal {
    p.(status := Applied, reasonCode := e.resolutionReason, appliedMemoryId := EventMemoryId(e), resolvedAt := Some(e.createdAt))
  }

  function ApplyProposals(proposals: map<string, Proposal>, e: MutationEvent): map<string, Proposal> {
    var ps := if e.proposal.Some? && e.proposal.value.id !in proposals
              then proposals[e.proposal.value.id := e.proposal.value] else proposals;
    if e.proposalId in ps then ps[e.proposalId := Resolve(ps[e.proposalId], e)] else ps
  }

  function ApplyHashes(hashes: map<string, string>, proposals: map<string, Proposal>, e: MutationEvent): map<string, string> {
    if e.proposal.Some? && e.proposal.value.id !in proposals && e.proposal.value.requestHash != ""
    then hashes[e.proposal.value.requestHash := e.proposal.value.id] else hashes
  }

  // ---- a whole journal ----

  function ReplayMemories(m: map<string, MemoryRow>, events: seq<MutationEvent>): map<string, MemoryRow> {
    if events == [] then m else ApplyMemories(ReplayMemories(m, events[..|events| - 1]), events[|events| - 1])
  }

  // The governed memories a journal stands for.
  function Memories(events: seq<MutationEvent>): map<string, MemoryRow> {
    ReplayMemories(map[], events)
  }

  function ReplayEvidence(evidence: map<string, seq<EvidenceRow>>, events: seq<MutationEvent>): map<string, seq<EvidenceRow>> {
    if events == [] then evidence
    else ApplyEvidence(ReplayEvidence(evidence, events[..|events| - 1]), events[|events| - 1])
  }

  function Evidence(events: seq<MutationEvent>): map<string, seq<EvidenceRow>> {
    ReplayEvidence(map[], events)
  }

  function ReplayContinuity(rows: seq<ContinuityRow>, events: seq<MutationEvent>): seq<ContinuityRow> {
    if events == [] then rows
    else ApplyContinuity(ReplayContinuity(rows, events[..|events| - 1]), events[|events| - 1])
  }

  function Continuity(events: seq<MutationEvent>): seq<ContinuityRow> {
    ReplayContinuity([], events)
  }

  function ReplayProposals(proposals: map<string, Proposal>, events: seq<MutationEvent>): map<string, Proposal> {
    if events == [] then proposals
    else ApplyProposals(ReplayProposals(proposals, events[..|events| - 1]), events[|events| - 1])
  }

  // ---- the journals the commit rules allow ----

  // The target is there, active, and at the version the caller read.
  predicate TargetCurrent(m: map<string, MemoryRow>, id: string, version: int) {
    id in m && m[id].lifecycle == ACTIVE && m[id].stateVersion == version
  }

  predicate BirthOk(m: map<string, MemoryRow>, row: MemoryRow) {
    row.memoryId != "" && row.memoryId !in m && row.stateVersion == 1 && row.lifecycle == ACTIVE
  }

  // The five shapes of governed change: remember, reinforce a duplicate,
  // correct, forget, retire.
  predicate Remembers(m: map<string, MemoryRow>, e: MutationEvent) {
    && e.newMemory.Some? && BirthOk(m, e.newMemory.value) && e.newMemory.value.supersedes == ""
    && e.updatedMemory.None? && e.targetMemoryId == "" && e.targetLifecycle == ""
  }

  // A reinforced row keeps its text, scope and lineage; only its weight and
  // counters move.
  predicate Reinforced(before: MemoryRow, after: MemoryRow) {
    after.(importance := before.importance, repeatCount := before.repeatCount, stateVersion := before.stateVersion,
           updatedAt := before.updatedAt, runtime := before.runtime) == before
  }

  predicate Reinforces(m: map<string, MemoryRow>, e: MutationEvent) {
    && e.newMemory.None? && e.updatedMemory.Some? && e.targetLifecycle == ""
    && TargetCurrent(m, e.targetMemoryId, e.expectedTargetVersion)
    && Reinforced(m[e.targetMemoryId], e.updatedMemory.value)
    && e.updatedMemory.value.stateVersion == e.expectedTargetVersion + 1
  }

  predicate Corrects(m: map<string, MemoryRow>, e: MutationEvent) {
    && e.newMemory.Some? && BirthOk(m, e.newMemory.value) && e.newMemory.value.supersedes == e.targetMemoryId
    && e.updatedMemory.None? && e.targetLifecycle == SUPERSEDED && e.targetMemoryId != ""
    && TargetCurrent(m, e.targetMemoryId, e.expectedTargetVersion)
  }

  predicate Ends(m: map<string, MemoryRow>, e: MutationEvent) {
    && e.newMemory.None? && e.updatedMemory.None?
    && (e.targetLifecycle == FORGOTTEN || e.targetLifecycle == SUPERSEDED) && e.targetMemoryId != ""
    && TargetCurrent(m, e.targetMemoryId, e.expectedTargetVersion)
  }

  predicate Governed(m: map<string, MemoryRow>, e: MutationEvent) {
    Remembers(m, e) || Reinforces(m, e) || Corrects(m, e) || Ends(m, e)
  }

  // Proposals an event may resolve: each once, and carried in the event.
  predicate CarriesProposal(e: MutationEvent) {
    if e.proposalId == "" then e.proposal.None?
    else e.proposal.Some? && e.proposal.value.id == e.proposalId
         && e.proposal.value.requestHash == e.requestHash && e.proposal.value.status == Pending
  }

  ghost predicate Extends(events: seq<MutationEvent>, e: MutationEvent) {
    && Governed(Memories(events), e)
    && CarriesProposal(e)
    && e.continuity.revision == |events| + 1
    && (forall i :: 0 <= i < |events| ==> events[i].continuity.eventId != e.continuity.eventId)
    && (forall i :: 0 <= i < |events| ==> events[i].requestHash != e.requestHash)
    && (e.proposalId != "" ==> forall i :: 0 <= i < |events| ==> events[i].proposalId != e.proposalId)
  }

  ghost predicate WellFormed(events: seq<MutationEvent>) {
    events == [] || (WellFormed(events[..|events| - 1]) && Extends(events[..|events| - 1], events[|events| - 1]))
  }

  lemma WellFormedSnoc(events: seq<MutationEvent>, e: MutationEvent)
    ensures WellFormed(events + [e]) <==> WellFormed(events) && Extends(events, e)
    ensures Memories(events + [e]) == ApplyMemories(Memories(events), e)
    ensures Evidence(events + [e]) == ApplyEvidence(Evidence(events), e)
    ensures Continuity(events + [e]) == ApplyContinuity(Continuity(events), e)
  {
    assert (events + [e])[..|events|] == events;
  }

  lemma {:induction false} WellFormedPrefix(events: seq<MutationEvent>, n: nat)
    requires n <= |events| && WellFormed(events)
    ensures WellFormed(events[..n])
    decreases |events|
  {
    if n < |events| {
      WellFormedPrefix(events[..|events| - 1], n);
      assert events[..|events| - 1][..n] == events[..n];
    } else {
      assert events[..n] == events;
    }
  }

  // ---- what one governed event does ----

  predicate KeyedById(m: map<string, MemoryRow>) {
    "" !in m && forall id :: id in m ==> m[id].memoryId == id
  }

  // The only rows it touches, and how.
  lemma GovernedStep(m: map<string, MemoryRow>, e: MutationEvent)
    requires KeyedById(m) && Governed(m, e)
    ensures var m' := ApplyMemories(m, e);
            && KeyedById(m')
            && m.Keys <= m'.Keys
            && (forall id :: id in m && id != e.targetMemoryId ==> m'[id] == m[id])
            && (forall id :: id in m' && id !in m ==> e.newMemory == Some(m'[id]))
            && (e.targetMemoryId in m ==> m[e.targetMemoryId].lifecycle == ACTIVE)
            && (e.targetMemoryId in m ==> m'[e.targetMemoryId].stateVersion == m[e.targetMemoryId].stateVersion + 1)
            && (e.targetMemoryId in m ==> m'[e.targetMemoryId].supersedes == m[e.targetMemoryId].supersedes)
            && (e.targetMemoryId == "" || e.targetMemoryId in m)
            && (Reinforces(m, e) ==> m'[e.targetMemoryId] == e.updatedMemory.value)
            && (e.newMemory.Some? ==> e.newMemory.value.memoryId in m' && m'[e.newMemory.value.memoryId] == e.newMemory.value)
            && (e.targetLifecycle != "" ==>
                  e.targetMemoryId in m && m'[e.targetMemoryId] == m[e.targetMemoryId].(
                    lifecycle := e.targetLifecycle, updatedAt := e.createdAt, stateVersion := m[e.targetMemoryId].stateVersion + 1))
  {
  }

  lemma {:induction false} MemoriesKeyed(events: seq<MutationEvent>)
    requires WellFormed(events)
    ensures KeyedById(Memories(events))
    decreases |events|
  {
    if events != [] {
      MemoriesKeyed(events[..|events| - 1]);
      hide ApplyMemories, Governed;
      GovernedStep(Memories(events[..|events| - 1]), events[|events| - 1]);
    }
  }
}
