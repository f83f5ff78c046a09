// What every run of the governed proposal protocol keeps.
module GovernanceProof {
  import opened Wrappers
  import opened Memory
  import opened Replay
  import opened Lifecycle
  import opened Convergence
  import opened ProposalRecords
  import opened Quotes
  import opened Gate
  import opened Governance

  // SHA-256 as far as it matters: digests are not empty, no request digest is a
  // retirement digest, and retirement digests do not collide. Module Digests
  // derives all of it from a digest without collisions.
  ghost predicate SoundDigests(env: Env) {
    && (forall t :: env.sha256(t) != "")
    && (forall i :: env.requestHash(i) != "")
    && (forall id, v :: env.retireHash(id, v) != "")
    && (forall i, id, v :: InRange(id, v) ==> env.requestHash(i) != env.retireHash(id, v))
    && (forall a, v, b, w :: env.retireHash(a, v) == env.retireHash(b, w) ==> a == b && v == w)
  }

  // ---- the invariant ----

  // The range names the only place of its text in an archived user message.
  ghost predicate Cites(env: Env, archive: map<string, Message>, messageId: string, hash: string, from: int, to: int) {
    && messageId in archive && archive[messageId].role == USER
    && 0 <= from < to <= |archive[messageId].content|
    && hash == env.sha256(archive[messageId].content[from..to])
    && OccursOnlyAt(archive[messageId].content, archive[messageId].content[from..to], from)
  }

  ghost predicate IdentityOk(env: Env, archive: map<string, Message>, i: Identity) {
    i.evidence.Some? ==>
      Bound(i) && Cites(env, archive, i.messageId, i.evidence.value.hash, i.evidence.value.startByte, i.evidence.value.endByte)
  }

  ghost predicate ProposalOk(env: Env, archive: map<string, Message>, id: string, p: Proposal) {
    && id != "" && p.id == id && p.requestHash != ""
    && IdentityOk(env, archive, p.identity)
    && (p.identity.evidence.Some? ==> p.requestHash == env.requestHash(p.identity))
  }

  ghost predicate DistinctRequests(ps: map<string, Proposal>) {
    forall a, b :: a in ps && b in ps && ps[a].requestHash == ps[b].requestHash ==> a == b
  }

  ghost predicate ProposalsOk(env: Env, archive: map<string, Message>, ps: map<string, Proposal>) {
    (forall id :: id in ps ==> ProposalOk(env, archive, id, ps[id])) && DistinctRequests(ps)
  }

  ghost predicate EvidenceOk(env: Env, archive: map<string, Message>, row: EvidenceRow) {
    row.memoryId != "" ==> Cites(env, archive, row.messageId, row.quoteHash, row.quoteStart, row.quoteEnd)
  }

  // A remembered text is, byte for byte, the cited slice of the user's message.
  ghost predicate QuotedVerbatim(archive: map<string, Message>, row: MemoryRow, evidence: EvidenceRow) {
    && evidence.memoryId == row.memoryId && evidence.messageId in archive
    && 0 <= evidence.quoteStart < evidence.quoteEnd <= |archive[evidence.messageId].content|
    && row.content == archive[evidence.messageId].content[evidence.quoteStart..evidence.quoteEnd]
  }

  predicate RetirementOk(env: Env, requestHash: string, targetId: string, version: int) {
    requestHash == env.retireHash(targetId, version) && targetId != "" && InRange(targetId, version)
  }

  ghost predicate EventOk(env: Env, archive: map<string, Message>, e: MutationEvent) {
    && EvidenceOk(env, archive, e.evidence)
    && (e.mutation == Remember && e.newMemory.Some? ==> QuotedVerbatim(archive, e.newMemory.value, e.evidence))
    && (if e.proposalId == "" then RetirementOk(env, e.requestHash, e.targetMemoryId, e.expectedTargetVersion)
        else e.proposal.Some? && ProposalOk(env, archive, e.proposalId, e.proposal.value)
             && e.proposal.value.identity.evidence.Some?)
  }

  ghost predicate JournalOk(env: Env, archive: map<string, Message>, journal: seq<MutationEvent>) {
    WellFormed(journal) && forall k :: 0 <= k < |journal| ==> EventOk(env, archive, journal[k])
  }

  ghost predicate LiveOk(live: Live, journal: seq<MutationEvent>) {
    && AllSameGoverned(live.memories, Memories(journal))
    && live.evidence == Evidence(journal)
    && live.continuity == Continuity(journal)
  }

  // Each projection file is the state after some prefix of the journal.
  ghost predicate DiskOk(disk: Files, journal: seq<MutationEvent>) {
    && (exists n :: 0 <= n <= |journal| && AllSameGoverned(disk.memories, Memories(journal[..n])))
    && (exists n :: 0 <= n <= |journal| && disk.evidence == Evidence(journal[..n]))
    && (exists n :: 0 <= n <= |journal| && disk.continuity == Continuity(journal[..n]))
  }

  ghost predicate ResolvedInMemory(ps: map<string, Proposal>, e: MutationEvent) {
    e.proposalId != "" ==>
      e.proposal.Some? && e.proposalId in ps && ps[e.proposalId].status != Pending
      && SameProposal(ps[e.proposalId], e.proposal.value)
  }

  // No proposal an event resolved is ever pending again.
  ghost predicate ResolvedOk(ps: map<string, Proposal>, journal: seq<MutationEvent>) {
    forall k :: 0 <= k < |journal| ==> ResolvedInMemory(ps, journal[k])
  }

  ghost predicate RecordsOk(records: map<string, Record>, ps: map<string, Proposal>) {
    records.Keys == ps.Keys && forall id :: id in ps ==> SameProposal(ToProposal(records[id]), Reload(ps[id]))
  }

  // A commit under way has one of the governed shapes.
  ghost predicate CommitShape(m: map<string, MemoryRow>, c: Commit) {
    || (c.newMemory.Some? && c.updatedMemory.None? && c.targetMemoryId == "" && c.targetLifecycle == ""
        && c.newMemory.value.supersedes == "" && NewbornRow(c.newMemory.value))
    || (c.newMemory.None? && c.updatedMemory.Some? && c.targetLifecycle == "" && c.targetMemoryId in m
        && Reinforced(m[c.targetMemoryId], c.updatedMemory.value) && c.updatedMemory.value.stateVersion == c.expectedTargetVersion + 1)
    || (c.newMemory.Some? && c.updatedMemory.None? && c.targetMemoryId != "" && c.targetLifecycle == SUPERSEDED
        && c.newMemory.value.supersedes == c.targetMemoryId && NewbornRow(c.newMemory.value))
    || (c.newMemory.None? && c.updatedMemory.None? && c.targetMemoryId != ""
        && (c.targetLifecycle == FORGOTTEN || c.targetLifecycle == SUPERSEDED))
  }

  predicate NewbornRow(row: MemoryRow) {
    row.memoryId != "" && row.stateVersion == 0 && row.lifecycle == ACTIVE
  }

  ghost predicate CommitOk(
    env: Env, archive: map<string, Message>, ps: map<string, Proposal>, m: map<string, MemoryRow>, c: Commit)
  {
    && CommitShape(m, c)
    && EvidenceOk(env, archive, c.evidence)
    && (c.mutation == Remember && c.newMemory.Some? ==> QuotedVerbatim(archive, c.newMemory.value, c.evidence))
    && (if c.proposalId == "" then RetirementOk(env, c.requestHash, c.targetMemoryId, c.expectedTargetVersion)
        else c.proposalId in ps && ps[c.proposalId].identity.evidence.Some?)
  }

  ghost predicate PhaseOk(
    env: Env, archive: map<string, Message>, ps: map<string, Proposal>, journal: seq<MutationEvent>, phase: Phase)
  {
    phase.Committing? ==>
      CommitOk(env, archive, ps, Memories(journal), phase.commit)
      && (phase.rejectOnFailure ==> phase.commit.proposalId in ps && ps[phase.commit.proposalId].status != Applied)
  }

  ghost predicate Inv(env: Env, s: Sys) {
    && JournalOk(env, s.archive, s.journal)
    && LiveOk(s.live, s.journal)
    && DiskOk(s.disk, s.journal)
    && ProposalsOk(env, s.archive, s.live.proposals)
    && ResolvedOk(s.live.proposals, s.journal)
    && RecordsOk(s.disk.proposals, s.live.proposals)
    && PhaseOk(env, s.archive, s.live.proposals, s.journal, s.phase)
  }

  // ---- small facts ----

  lemma ReloadSame(a: Proposal, b: Proposal)
    requires SameProposal(a, b)
    ensures SameProposal(Reload(a), Reload(b))
  {
  }

  // Writing and reading back settles after once.
  lemma ReloadTwice(p: Proposal)
    requires p.identity.evidence.Some? ==> Bound(p.identity)
    ensures Reload(Reload(p)) == Reload(p)
  {
  }

  lemma ReloadOk(env: Env, archive: map<string, Message>, id: string, p: Proposal)
    requires ProposalOk(env, archive, id, p)
    ensures ProposalOk(env, archive, id, Reload(p)) && Reload(p).requestHash == p.requestHash
    ensures p.identity.evidence.Some? ==> Reload(p) == p
  {
  }

  lemma SameOk(env: Env, archive: map<string, Message>, id: string, p: Proposal, q: Proposal)
    requires ProposalOk(env, archive, id, p) && SameProposal(q, p)
    ensures ProposalOk(env, archive, id, q) && q.requestHash == p.requestHash && q.identity == p.identity
  {
  }

  // Archived messages never change, so what cites them stays true.
  ghost predicate ArchiveGrows(a: map<string, Message>, b: map<string, Message>) {
    forall id :: id in a ==> id in b && b[id] == a[id]
  }

  lemma ArchiveKeeps(env: Env, s: Sys, archive: map<string, Message>)
    requires Inv(env, s) && ArchiveGrows(s.archive, archive)
    ensures Inv(env, s.(archive := archive))
  {
    hide WellFormed, LiveOk, DiskOk, ResolvedOk, RecordsOk, OccursOnlyAt;
    forall k | 0 <= k < |s.journal| ensures EventOk(env, archive, s.journal[k]) {
      assert EventOk(env, s.archive, s.journal[k]);
    }
    forall id | id in s.live.proposals ensures ProposalOk(env, archive, id, s.live.proposals[id]) {
      assert ProposalOk(env, s.archive, id, s.live.proposals[id]);
    }
  }

  // A file that mirrors memory is at the end of the journal.
  lemma Flushed(disk: Files, live: Live, journal: seq<MutationEvent>)
    requires LiveOk(live, journal) && DiskOk(disk, journal)
    ensures DiskOk(disk.(memories := live.memories), journal)
    ensures DiskOk(disk.(evidence := live.evidence), journal)
    ensures DiskOk(disk.(continuity := live.continuity), journal)
  {
    hide AllSameGoverned, ReplayMemories, ReplayEvidence, ReplayContinuity;
    assert journal[..|journal|] == journal;
  }

  lemma FlushedProposals(ps: map<string, Proposal>)
    ensures RecordsOk(Records(ps), ps)
  {
  }

  lemma Touched(live: Live, journal: seq<MutationEvent>, id: string, runtime: Runtime)
    requires LiveOk(live, journal) && id in live.memories
    ensures LiveOk(live.(memories := live.memories[id := live.memories[id].(runtime := runtime)]), journal)
  {
    hide ReplayMemories, ReplayEvidence, ReplayContinuity;
  }

  // Replacing a proposal by itself in another, non-pending status.
  lemma SettleProposal(env: Env, archive: map<string, Message>, ps: map<string, Proposal>, journal: seq<MutationEvent>, q: Proposal)
    requires ProposalsOk(env, archive, ps) && ResolvedOk(ps, journal)
    requires q.id in ps && SameProposal(q, ps[q.id]) && q.status != Pending
    ensures ProposalsOk(env, archive, ps[q.id := q]) && ResolvedOk(ps[q.id := q], journal)
  {
    hide IdentityOk;
    forall k | 0 <= k < |journal| ensures ResolvedInMemory(ps[q.id := q], journal[k]) {
      assert ResolvedInMemory(ps, journal[k]);
    }
    forall id | id in ps ensures ProposalOk(env, archive, id, ps[q.id := q][id]) {
      assert ProposalOk(env, archive, id, ps[id]);
    }
  }

  // Adding a proposal with an unused id and an unused request hash.
  lemma AddProposal(env: Env, archive: map<string, Message>, ps: map<string, Proposal>, journal: seq<MutationEvent>, q: Proposal)
    requires ProposalsOk(env, archive, ps) && ResolvedOk(ps, journal)
    requires ProposalOk(env, archive, q.id, q) && q.id !in ps && !HashTaken(ps, q.requestHash)
    ensures ProposalsOk(env, archive, ps[q.id := q]) && ResolvedOk(ps[q.id := q], journal)
  {
    hide IdentityOk;
    forall k | 0 <= k < |journal| ensures ResolvedInMemory(ps[q.id := q], journal[k]) {
      assert ResolvedInMemory(ps, journal[k]);
    }
    var after := ps[q.id := q];
    forall id | id in after ensures ProposalOk(env, archive, id, after[id]) {
      assert id in ps ==> ProposalOk(env, archive, id, ps[id]);
    }
  }

  lemma OnlyProposalsChanged(s: Sys, after: Sys)
    requires LiveOk(s.live, s.journal) && DiskOk(s.disk, s.journal)
    requires after.journal == s.journal
    requires after.live == s.live.(proposals := after.live.proposals) && after.disk == s.disk.(proposals := after.disk.proposals)
    ensures LiveOk(after.live, s.journal) && DiskOk(after.disk, s.journal)
  {
  }

  lemma PhaseSurvives(env: Env, s: Sys, q: Proposal)
    requires PhaseOk(env, s.archive, s.live.proposals, s.journal, s.phase)
    requires q.id in s.live.proposals && q.identity == s.live.proposals[q.id].identity && q.status != Applied
    ensures PhaseOk(env, s.archive, s.live.proposals[q.id := q], s.journal, s.phase)
  {
    hide CommitShape, EvidenceOk, QuotedVerbatim;
  }

  // Rejecting rewrites a status; the proposal stays the same proposal.
  lemma RejectKeeps(env: Env, s: Sys, id: string, reason: string, now: int)
    requires Inv(env, s)
    ensures Inv(env, RejectProposal(s, id, reason, now))
  {
    hide JournalOk, LiveOk, DiskOk, ResolvedOk, PhaseOk, IdentityOk, RecordsOk, Records;
    if id in s.live.proposals {
      assert ProposalOk(env, s.archive, id, s.live.proposals[id]);
      var q := s.live.proposals[id].(status := Rejected, reasonCode := reason, resolvedAt := Some(now));
      var after := RejectProposal(s, id, reason, now);
      SettleProposal(env, s.archive, s.live.proposals, s.journal, q);
      FlushedProposals(after.live.proposals);
      OnlyProposalsChanged(s, after);
      PhaseSurvives(env, s, q);
    }
  }

  lemma StageKeeps(env: Env, s: Sys, p: Proposal, reason: string, now: int)
    requires Inv(env, s) && s.phase.Idle?
    requires ProposalOk(env, s.archive, p.id, p)
    requires p.id !in s.live.proposals && !HashTaken(s.live.proposals, p.requestHash)
    ensures Inv(env, StageProposal(s, p, reason, now))
    ensures StageProposal(s, p, reason, now).phase.Idle?
  {
    hide JournalOk, LiveOk, DiskOk, ResolvedOk, IdentityOk, RecordsOk, Records, ProposalsOk, HashTaken;
    var q := p.(status := Pending, reasonCode := reason, createdAt := now);
    var after := StageProposal(s, p, reason, now);
    AddProposal(env, s.archive, s.live.proposals, s.journal, q);
    FlushedProposals(after.live.proposals);
    OnlyProposalsChanged(s, after);
  }

  // ---- committing ----

  lemma LiveIsKeyed(live: Live, journal: seq<MutationEvent>)
    requires LiveOk(live, journal) && WellFormed(journal)
    ensures KeyedById(live.memories) && KeyedById(Memories(journal))
  {
    MemoriesKeyed(journal);
    hide WellFormed, ReplayMemories;
  }

  lemma CommitIsGoverned(env: Env, live: Live, m: map<string, MemoryRow>, c: Commit, eventId: string, now: int)
    requires AllSameGoverned(live.memories, m) && KeyedById(m)
    requires CommitShape(m, c) && Committable(live, c)
    ensures Governed(m, EventFor(live, c, eventId, now))
  {
  }

  lemma GovernedCongruence(m: map<string, MemoryRow>, n: map<string, MemoryRow>, e: MutationEvent)
    requires AllSameGoverned(m, n) && KeyedById(n) && Governed(n, e)
    ensures AllSameGoverned(ApplyMemories(m, e), ApplyMemories(n, e))
  {
  }

  // Once an event has changed its target, the version it expected is past.
  lemma TargetMovesOn(events: seq<MutationEvent>, k: nat)
    requires WellFormed(events) && k < |events| && events[k].targetMemoryId != ""
    ensures events[k].targetMemoryId in Memories(events)
    ensures Memories(events)[events[k].targetMemoryId].stateVersion > events[k].expectedTargetVersion
  {
    hide ReplayMemories, WellFormed;
    var before, e := events[..k], events[k];
    WellFormedPrefix(events, k + 1);
    assert events[..k + 1][..k] == before && events[..k + 1][k] == e;
    LastStep(events[..k + 1]);
    GovernedTarget(Memories(before), e);
    KeysGrow(events, k + 1);
  }

  lemma GovernedTarget(m: map<string, MemoryRow>, e: MutationEvent)
    requires KeyedById(m) && Governed(m, e) && e.targetMemoryId != ""
    ensures e.targetMemoryId in ApplyMemories(m, e)
    ensures ApplyMemories(m, e)[e.targetMemoryId].stateVersion == e.expectedTargetVersion + 1
  {
  }

  // The request hash of a commit that passes the checks is on no event yet.
  lemma RequestIsNew(env: Env, s: Sys, c: Commit, k: nat)
    requires SoundDigests(env) && Inv(env, s) && k < |s.journal|
    requires CommitOk(env, s.archive, s.live.proposals, Memories(s.journal), c) && Committable(s.live, c)
    ensures s.journal[k].requestHash != c.requestHash
    ensures c.proposalId != "" ==> s.journal[k].proposalId != c.proposalId
  {
    hide DiskOk, RecordsOk, PhaseOk, CommitShape, EvidenceOk, QuotedVerbatim, ReplayMemories, Governed, IdentityOk, WellFormed;
    var e := s.journal[k];
    assert EventOk(env, s.archive, e) && ResolvedInMemory(s.live.proposals, e);
    CarriedHash(s.journal, k);
    if c.proposalId != "" {
      assert ProposalOk(env, s.archive, c.proposalId, s.live.proposals[c.proposalId]);
    } else if e.proposalId == "" {
      TargetMovesOn(s.journal, k);
      hide SoundDigests;
      RetireHashDetermines(env, e.targetMemoryId, e.expectedTargetVersion, c.targetMemoryId, c.expectedTargetVersion);
    }
  }

  lemma RetireHashDetermines(env: Env, a: string, v: int, b: string, w: int)
    requires SoundDigests(env)
    ensures env.retireHash(a, v) == env.retireHash(b, w) ==> a == b && v == w
  {
  }

  lemma CarriedHash(events: seq<MutationEvent>, k: nat)
    requires WellFormed(events) && k < |events|
    ensures CarriesProposal(events[k])
  {
    WellFormedPrefix(events, k + 1);
    assert events[..k + 1][k] == events[k];
    hide Governed;
  }

  lemma CommitExtends(env: Env, s: Sys, c: Commit, eventId: string, now: int)
    requires SoundDigests(env) && Inv(env, s)
    requires CommitOk(env, s.archive, s.live.proposals, Memories(s.journal), c) && Committable(s.live, c)
    requires !Logged(s.live.continuity, eventId)
    ensures var e := EventFor(s.live, c, eventId, now);
            Extends(s.journal, e) && EventOk(env, s.archive, e)
  {
    hide SoundDigests, DiskOk, RecordsOk, PhaseOk, ReplayMemories, WellFormed, CommitShape, Governed, ReplayContinuity,
         ResolvedOk, IdentityOk, Cites;
    var e := EventFor(s.live, c, eventId, now);
    MemoriesKeyed(s.journal);
    CommitIsGoverned(env, s.live, Memories(s.journal), c, eventId, now);
    RevisionsAreConsecutive(s.journal);
    ContinuityFollowsJournal(s.journal);
    forall i | 0 <= i < |s.journal|
      ensures s.journal[i].requestHash != e.requestHash
      ensures s.journal[i].continuity.eventId != eventId
      ensures e.proposalId != "" ==> s.journal[i].proposalId != e.proposalId
    {
      RequestIsNew(env, s, c, i);
      assert ContinuityRows(s.journal)[i] == s.journal[i].continuity;
    }
    if c.proposalId != "" {
      assert ProposalOk(env, s.archive, c.proposalId, s.live.proposals[c.proposalId]);
    }
  }

  lemma JournalSnoc(env: Env, archive: map<string, Message>, journal: seq<MutationEvent>, e: MutationEvent)
    requires JournalOk(env, archive, journal) && Extends(journal, e) && EventOk(env, archive, e)
    ensures JournalOk(env, archive, journal + [e])
  {
    hide EventOk;
    WellFormedSnoc(journal, e);
  }

  lemma LiveSnoc(live: Live, journal: seq<MutationEvent>, e: MutationEvent)
    requires LiveOk(live, journal) && WellFormed(journal) && Extends(journal, e)
    ensures LiveOk(ApplyEvent(live, e), journal + [e])
  {
    hide ReplayMemories, ReplayEvidence, ReplayContinuity, ApplyMemories, ApplyEvidence, ApplyContinuity, Governed,
         AllSameGoverned, WellFormed;
    MemoriesKeyed(journal);
    WellFormedSnoc(journal, e);
    GovernedCongruence(live.memories, Memories(journal), e);
  }

  lemma DiskSnoc(disk: Files, journal: seq<MutationEvent>, e: MutationEvent)
    requires DiskOk(disk, journal)
    ensures DiskOk(disk, journal + [e])
  {
    hide AllSameGoverned, ReplayMemories, ReplayEvidence, ReplayContinuity;
    var more := journal + [e];
    forall n | 0 <= n <= |journal| ensures more[..n] == journal[..n] {
    }
    var a :| 0 <= a <= |journal| && AllSameGoverned(disk.memories, Memories(journal[..a]));
    assert AllSameGoverned(disk.memories, Memories(more[..a]));
    var b :| 0 <= b <= |journal| && disk.evidence == Evidence(journal[..b]);
    assert disk.evidence == Evidence(more[..b]);
    var d :| 0 <= d <= |journal| && disk.continuity == Continuity(journal[..d]);
    assert disk.continuity == Continuity(more[..d]);
  }

  lemma ProposalsSnoc(env: Env, archive: map<string, Message>, ps: map<string, Proposal>, records: map<string, Record>,
                      journal: seq<MutationEvent>, e: MutationEvent)
    requires ProposalsOk(env, archive, ps) && ResolvedOk(ps, journal) && RecordsOk(records, ps)
    requires CarriesProposal(e)
    requires e.proposalId != "" ==> e.proposalId in ps && e.proposal.value == ps[e.proposalId]
    ensures ProposalsOk(env, archive, ApplyProposals(ps, e))
    ensures ResolvedOk(ApplyProposals(ps, e), journal + [e])
    ensures RecordsOk(records, ApplyProposals(ps, e))
  {
    hide IdentityOk, SameProposal, ProposalsOk, ResolvedOk, RecordsOk, ApplyProposals, Resolve;
    if e.proposalId == "" {
      NothingResolved(env, archive, ps, journal, e);
    } else {
      ProposalResolved(env, archive, ps, e);
      var q := Resolve(ps[e.proposalId], e);
      SettleProposal(env, archive, ps, journal, q);
      RecordsSettle(records, ps, q);
      ResolvedMore(ApplyProposals(ps, e), journal, e);
    }
  }

  lemma NothingResolved(env: Env, archive: map<string, Message>, ps: map<string, Proposal>, journal: seq<MutationEvent>, e: MutationEvent)
    requires ProposalsOk(env, archive, ps) && ResolvedOk(ps, journal) && CarriesProposal(e) && e.proposalId == ""
    ensures ApplyProposals(ps, e) == ps && ResolvedOk(ps, journal + [e])
  {
    hide IdentityOk;
    assert forall id :: id in ps ==> id != "";
    ResolvedMore(ps, journal, e);
  }

  lemma ResolvedMore(ps: map<string, Proposal>, journal: seq<MutationEvent>, e: MutationEvent)
    requires ResolvedOk(ps, journal) && ResolvedInMemory(ps, e)
    ensures ResolvedOk(ps, journal + [e])
  {
    hide ResolvedInMemory;
  }

  lemma ProposalResolved(env: Env, archive: map<string, Message>, ps: map<string, Proposal>, e: MutationEvent)
    requires ProposalsOk(env, archive, ps) && CarriesProposal(e)
    requires e.proposalId != "" && e.proposalId in ps && e.proposal.value == ps[e.proposalId]
    ensures var q := Resolve(ps[e.proposalId], e);
            && q.id == e.proposalId && SameProposal(q, ps[q.id]) && q.status != Pending
            && ApplyProposals(ps, e) == ps[q.id := q] && ResolvedInMemory(ApplyProposals(ps, e), e)
  {
    hide IdentityOk;
    assert ProposalOk(env, archive, e.proposalId, ps[e.proposalId]);
  }

  lemma RecordsSettle(records: map<string, Record>, ps: map<string, Proposal>, q: Proposal)
    requires RecordsOk(records, ps) && q.id in ps && SameProposal(q, ps[q.id])
    ensures RecordsOk(records, ps[q.id := q])
  {
    ReloadSame(q, ps[q.id]);
  }

  lemma FinishKeeps(env: Env, s: Sys, eventId: string, now: int)
    requires SoundDigests(env) && Inv(env, s) && !Logged(s.live.continuity, eventId)
    ensures Inv(env, Finish(s, eventId, now))
  {
    hide SoundDigests, JournalOk, LiveOk, DiskOk, ProposalsOk, ResolvedOk, RecordsOk, Committable, CommitOk, Extends,
         EventOk, ApplyProposals, ApplyMemories, ApplyEvidence, ApplyContinuity, Logged;
    match s.phase
    case Idle =>
    case Committing(c, rejectOnFailure) =>
      var idle := s.(phase := Idle);
      if Committable(s.live, c) {
        var e := EventFor(s.live, c, eventId, now);
        CommitExtends(env, s, c, eventId, now);
        JournalWellFormed(env, s);
        JournalSnoc(env, s.archive, s.journal, e);
        LiveSnoc(s.live, s.journal, e);
        DiskSnoc(s.disk, s.journal, e);
        ExtendsCarries(s.live, s.journal, c, e, eventId, now);
        ProposalsSnoc(env, s.archive, s.live.proposals, s.disk.proposals, s.journal, e);
      } else if rejectOnFailure {
        RejectKeeps(env, idle, c.proposalId, "COMMIT_FAILED_PRE_EVENT", now);
      }
  }

  lemma JournalWellFormed(env: Env, s: Sys)
    requires JournalOk(env, s.archive, s.journal)
    ensures WellFormed(s.journal)
  {
  }

  lemma ExtendsCarries(live: Live, journal: seq<MutationEvent>, c: Commit, e: MutationEvent, eventId: string, now: int)
    requires e == EventFor(live, c, eventId, now) && Extends(journal, e) && Committable(live, c)
    ensures CarriesProposal(e)
    ensures e.proposalId != "" ==> e.proposalId in live.proposals && e.proposal.value == live.proposals[e.proposalId]
  {
    hide Governed;
  }

  // ---- starting a commit ----

  // Approving and retiring start a commit and change nothing else.
  lemma ReviewTouchesOnlyThePhase(env: Env, s: Sys, proposalId: string, memoryId: string, traceId: string)
    ensures Approve(env, s, proposalId, memoryId, traceId).(phase := s.phase) == s
    ensures Retire(env, s, memoryId, traceId).(phase := s.phase) == s
  {
    hide Verify, MutationTarget, BuildCommit, RetireCommit;
  }

  lemma TargetGiven(memories: map<string, MemoryRow>, request: Request)
    requires MutationTarget(memories, request).Some?
    ensures request.mutation != Remember ==> MutationTarget(memories, request).value.Some?
  {
  }

  lemma BuildCommitOk(
    env: Env, archive: map<string, Message>, ps: map<string, Proposal>, m: map<string, MemoryRow>, request: Request,
    proposalId: string, identity: Identity, target: Option<MemoryRow>, reason: string, memoryId: string, traceId: string)
    requires identity.evidence.Some? && IdentityOk(env, archive, identity)
    requires proposalId != "" && proposalId in ps && ps[proposalId].identity.evidence.Some?
    requires request.quote == archive[identity.messageId].content[identity.evidence.value.startByte..identity.evidence.value.endByte]
    requires memoryId != ""
    requires request.mutation != Remember ==> target.Some? && target.value.memoryId in m && target.value.memoryId != ""
    ensures CommitOk(env, archive, ps, m,
                     BuildCommit(env, request, proposalId, identity, target, archive[identity.messageId], reason, memoryId, traceId))
  {
    hide OccursOnlyAt;
  }

  lemma PromoteCommitOk(
    env: Env, archive: map<string, Message>, ps: map<string, Proposal>, m: map<string, MemoryRow>,
    proposalId: string, hash: string, identity: Identity, row: MemoryRow, now: int, traceId: string)
    requires identity.evidence.Some? && IdentityOk(env, archive, identity)
    requires proposalId != "" && proposalId in ps && ps[proposalId].identity.evidence.Some?
    requires row.memoryId in m && SameGoverned(row, m[row.memoryId])
    ensures CommitOk(env, archive, ps, m, PromoteCommit(proposalId, hash, identity, row, now, traceId))
  {
    hide OccursOnlyAt;
  }

  lemma BoundIdentityOk(env: Env, archive: map<string, Message>, clientKey: string, projectKey: string, request: Request)
    requires SoundDigests(env)
    requires request.messageId in archive && archive[request.messageId].role == USER
    ensures var evidence := archive[request.messageId];
            var binding := Bind(env.sha256, evidence.content, request.quote);
            var identity := IdentityFor(env, clientKey, projectKey, request, evidence, binding);
            && IdentityOk(env, archive, identity)
            && (binding.BoundAt? ==>
                  0 <= binding.startByte < binding.endByte <= |evidence.content|
                  && request.quote == evidence.content[identity.evidence.value.startByte..identity.evidence.value.endByte])
  {
    var evidence := archive[request.messageId];
    BindsIffUnique(env.sha256, evidence.content, request.quote, 0);
    assert env.sha256(request.quote) != "";
    hide Bind, FindFrom, SoundDigests;
  }

  lemma TargetIsLive(memories: map<string, MemoryRow>, m: map<string, MemoryRow>, request: Request)
    requires KeyedById(memories) && AllSameGoverned(memories, m)
    ensures var t := MutationTarget(memories, request);
            t.Some? && request.mutation != Remember ==>
              t.value.Some? && t.value.value.memoryId in m && t.value.value.memoryId != ""
  {
  }

  lemma SubmitKeeps(env: Env, s: Sys, request: Request, a: Answers)
    requires SoundDigests(env) && Inv(env, s) && s.phase.Idle? && FreshIds(s, SubmitStep(request, a))
    ensures Inv(env, Submit(env, s, request, a))
  {
    hide SoundDigests, JournalOk, LiveOk, DiskOk, ProposalsOk, ResolvedOk, RecordsOk, CommitOk, Cites,
         Bind, Verify, HashTaken, MutationTarget, IdentityOk, AllSameGoverned, KeyedById, SameGoverned;
    if request.messageId in s.archive && s.archive[request.messageId].role == USER {
      var evidence := s.archive[request.messageId];
      var binding := Bind(env.sha256, evidence.content, request.quote);
      BoundIdentityOk(env, s.archive, a.clientKey, a.projectKey, request);
      LiveRows(env, s);
      var target := MutationTarget(s.live.memories, request);
      TargetIsLive(s.live.memories, Memories(s.journal), request);
      var identity := IdentityFor(env, a.clientKey, a.projectKey, request, evidence, binding);
      var proposal := Proposal(a.proposalId, env.requestHash(identity), "", "", GateNone, identity, Pending, 0, None);
      if target.Some? && !HashTaken(s.live.proposals, proposal.requestHash) {
        HashNotEmpty(env, identity);
        StageAnyGate(env, s, proposal, a.now);
        if binding.BoundAt? {
          StartedCommitOk(env, s, request, a, proposal, target.value);
        }
      }
    }
  }

  // The two commits a verified request can start.
  lemma StartedCommitOk(env: Env, s: Sys, request: Request, a: Answers, p: Proposal, target: Option<MemoryRow>)
    requires KeyedById(s.live.memories) && AllSameGoverned(s.live.memories, Memories(s.journal))
    requires p.id == a.proposalId != "" && p.identity.evidence.Some? && IdentityOk(env, s.archive, p.identity)
    requires p.identity.messageId in s.archive && a.memoryId != ""
    requires var q, content := p.identity.evidence.value, s.archive[p.identity.messageId].content;
             0 <= q.startByte < q.endByte <= |content| && request.quote == content[q.startByte..q.endByte]
    requires request.mutation != Remember ==>
               target.Some? && target.value.memoryId in Memories(s.journal) && target.value.memoryId != ""
    ensures var staged := StageProposal(s, p, "", a.now);
            && CommitOk(env, s.archive, staged.live.proposals, Memories(s.journal),
                        BuildCommit(env, request, p.id, p.identity, target, s.archive[p.identity.messageId],
                                    "CURRENT_USER_EVIDENCE_VERIFIED", a.memoryId, a.traceId))
            && (a.duplicate in s.live.memories ==>
                  CommitOk(env, s.archive, staged.live.proposals, Memories(s.journal),
                           PromoteCommit(p.id, p.requestHash, p.identity, s.live.memories[a.duplicate], a.now, a.traceId)))
  {
    hide IdentityOk, CommitOk, BuildCommit, PromoteCommit, KeyedById, AllSameGoverned, SameGoverned;
    var staged := StageProposal(s, p, "", a.now);
    BuildCommitOk(env, s.archive, staged.live.proposals, Memories(s.journal), request, p.id, p.identity, target,
                  "CURRENT_USER_EVIDENCE_VERIFIED", a.memoryId, a.traceId);
    if a.duplicate in s.live.memories {
      RowIsGoverned(s.live.memories, Memories(s.journal), a.duplicate);
      PromoteCommitOk(env, s.archive, staged.live.proposals, Memories(s.journal), p.id, p.requestHash, p.identity,
                      s.live.memories[a.duplicate], a.now, a.traceId);
    }
  }

  lemma HashNotEmpty(env: Env, identity: Identity)
    requires SoundDigests(env)
    ensures env.requestHash(identity) != ""
  {
  }

  lemma LiveRows(env: Env, s: Sys)
    requires Inv(env, s)
    ensures KeyedById(s.live.memories) && AllSameGoverned(s.live.memories, Memories(s.journal))
  {
    LiveIsKeyed(s.live, s.journal);
  }

  lemma RowIsGoverned(memories: map<string, MemoryRow>, m: map<string, MemoryRow>, id: string)
    requires KeyedById(memories) && AllSameGoverned(memories, m) && id in memories
    ensures memories[id].memoryId == id && id != "" && id in m && SameGoverned(memories[id], m[id])
  {
  }

  // Whatever gate holds a proposal back, staging it keeps the invariant.
  lemma StageAnyGate(env: Env, s: Sys, p: Proposal, now: int)
    requires Inv(env, s) && s.phase.Idle?
    requires p.id != "" && p.requestHash == env.requestHash(p.identity) != "" && IdentityOk(env, s.archive, p.identity)
    requires p.id !in s.live.proposals && !HashTaken(s.live.proposals, p.requestHash) && p.status == Pending
    ensures forall gate, reason :: Inv(env, StageProposal(s, p.(gateClass := gate), reason, now))
    ensures forall reason :: Inv(env, StageProposal(s, p, reason, now))
    ensures forall gate, reason :: StageProposal(s, p.(gateClass := gate), reason, now).phase.Idle?
  {
    hide Inv, IdentityOk, HashTaken, StageProposal;
    forall gate, reason
      ensures Inv(env, StageProposal(s, p.(gateClass := gate), reason, now))
      ensures StageProposal(s, p.(gateClass := gate), reason, now).phase.Idle?
    {
      StageKeeps(env, s, p.(gateClass := gate), reason, now);
    }
    assert p.(gateClass := p.gateClass) == p;
  }

  lemma ApproveKeeps(env: Env, s: Sys, proposalId: string, memoryId: string, traceId: string)
    requires Inv(env, s) && s.phase.Idle? && memoryId != ""
    ensures Inv(env, Approve(env, s, proposalId, memoryId, traceId))
  {
    hide JournalOk, LiveOk, DiskOk, ResolvedOk, RecordsOk, CommitOk, Cites, Verify, MutationTarget, AllSameGoverned, KeyedById;
    if proposalId in s.live.proposals {
      var p := s.live.proposals[proposalId];
      assert ProposalOk(env, s.archive, proposalId, p);
      if p.identity.messageId in s.archive && p.identity.evidence.Some? {
        var evidence, ref := s.archive[p.identity.messageId], p.identity.evidence.value;
        if 0 <= ref.startByte < ref.endByte <= |evidence.content| {
          var request := RequestOf(p.identity, evidence.content[ref.startByte..ref.endByte]);
          var target := MutationTarget(s.live.memories, request);
          LiveRows(env, s);
          TargetIsLive(s.live.memories, Memories(s.journal), request);
          if target.Some? {
            BuildCommitOk(env, s.archive, s.live.proposals, Memories(s.journal), request, proposalId, p.identity,
                          target.value, REVIEWER_APPROVED, memoryId, traceId);
          }
        }
      }
    }
  }

  lemma RetireKeeps(env: Env, s: Sys, memoryId: string, traceId: string)
    requires Inv(env, s) && s.phase.Idle?
    requires memoryId in s.live.memories ==> InRange(memoryId, s.live.memories[memoryId].stateVersion)
    ensures Inv(env, Retire(env, s, memoryId, traceId))
  {
    hide JournalOk, LiveOk, DiskOk, ProposalsOk, ResolvedOk, RecordsOk, AllSameGoverned, KeyedById, Cites, SameGoverned;
    LiveRows(env, s);
    if memoryId in s.live.memories {
      RowIsGoverned(s.live.memories, Memories(s.journal), memoryId);
    }
  }

  // ---- restarting ----

  // What a restart makes of one proposal: itself, as it survives its file.
  ghost predicate Restored(env: Env, archive: map<string, Message>, id: string, before: Proposal, loaded: Proposal) {
    SameProposal(loaded, Reload(before)) && ProposalOk(env, archive, id, loaded) && loaded.requestHash == before.requestHash
  }

  lemma RecordRestored(env: Env, archive: map<string, Message>, id: string, p: Proposal, r: Record)
    requires ProposalOk(env, archive, id, p) && SameProposal(ToProposal(r), Reload(p))
    ensures Restored(env, archive, id, p, ToProposal(r))
  {
    hide IdentityOk, Reload, ToProposal, SameProposal;
    ReloadOk(env, archive, id, p);
    SameOk(env, archive, id, Reload(p), ToProposal(r));
  }

  lemma EventRestored(env: Env, archive: map<string, Message>, p: Proposal, e: MutationEvent)
    requires EventOk(env, archive, e) && e.proposalId != ""
    requires ProposalOk(env, archive, e.proposalId, p) && SameProposal(p, e.proposal.value)
    ensures SameProposal(Reload(p), e.proposal.value)
    ensures Restored(env, archive, e.proposalId, p, Resolve(e.proposal.value, e))
  {
    hide IdentityOk;
    ReloadSame(p, e.proposal.value);
    ReloadOk(env, archive, e.proposalId, e.proposal.value);
    SameOk(env, archive, e.proposalId, e.proposal.value, Resolve(e.proposal.value, e));
  }

  lemma RecordsLag(env: Env, archive: map<string, Message>, ps: map<string, Proposal>, records: map<string, Record>,
                   journal: seq<MutationEvent>)
    requires JournalOk(env, archive, journal) && ProposalsOk(env, archive, ps) && ResolvedOk(ps, journal) && RecordsOk(records, ps)
    ensures ProposalsLag(Reloaded(records), journal) && "" !in Reloaded(records)
  {
    hide WellFormed, IdentityOk, EventOk, ProposalOk, Resolve, ToProposal, Reload;
    forall k | 0 <= k < |journal| && journal[k].proposalId != "" && journal[k].proposalId in records
      ensures journal[k].proposal.Some? && SameProposal(ToProposal(records[journal[k].proposalId]), journal[k].proposal.value)
    {
      var e := journal[k];
      assert EventOk(env, archive, e) && ResolvedInMemory(ps, e);
      assert ProposalOk(env, archive, e.proposalId, ps[e.proposalId]);
      EventRestored(env, archive, ps[e.proposalId], e);
    }
    forall id | id in ps ensures id != "" {
      assert ProposalOk(env, archive, id, ps[id]);
      OkHasId(env, archive, id, ps[id]);
    }
  }

  lemma OkHasId(env: Env, archive: map<string, Message>, id: string, p: Proposal)
    requires ProposalOk(env, archive, id, p)
    ensures id != "" && p.requestHash != ""
  {
  }

  lemma LoadedProposals(env: Env, archive: map<string, Message>, ps: map<string, Proposal>, records: map<string, Record>,
                        journal: seq<MutationEvent>)
    requires JournalOk(env, archive, journal) && ProposalsOk(env, archive, ps) && ResolvedOk(ps, journal) && RecordsOk(records, ps)
    ensures var loaded := ReplayProposals(Reloaded(records), journal);
            && loaded.Keys == ps.Keys
            && (forall id :: id in ps ==> Restored(env, archive, id, ps[id], loaded[id]))
            && (forall k :: 0 <= k < |journal| ==> ResolvedBy(loaded, journal[k]))
            && (forall id :: id in ps && !Journaled(journal, id) ==> loaded[id] == ToProposal(records[id]))
  {
    hide WellFormed, IdentityOk, EventOk, ProposalOk, Resolve, ToProposal, Reload, Restored, ReplayProposals, SameProposal,
         ProposalsLag, CarriesProposal;
    RecordsLag(env, archive, ps, records, journal);
    ProposalsConverge(Reloaded(records), journal);
    var loaded := ReplayProposals(Reloaded(records), journal);
    forall id
      ensures id in loaded <==> id in ps
      ensures id in ps ==> Restored(env, archive, id, ps[id], loaded[id])
    {
      if Journaled(journal, id) && id != "" {
        var k :| 0 <= k < |journal| && journal[k].proposalId == id;
        assert EventOk(env, archive, journal[k]) && ResolvedInMemory(ps, journal[k]) && ResolvedBy(loaded, journal[k]);
        assert ProposalOk(env, archive, id, ps[id]);
        EventRestored(env, archive, ps[id], journal[k]);
      } else if id == "" {
        NoEmptyId(env, archive, ps);
      } else if id in ps {
        RecordRestored(env, archive, id, ps[id], records[id]);
      }
    }
  }

  lemma NoEmptyId(env: Env, archive: map<string, Message>, ps: map<string, Proposal>)
    requires ProposalsOk(env, archive, ps)
    ensures "" !in ps
  {
    hide IdentityOk;
    assert forall id :: id in ps ==> id != "";
  }

  // The three proposal clauses of the invariant after a load.
  lemma LoadedProposalsOk(env: Env, archive: map<string, Message>, ps: map<string, Proposal>, records: map<string, Record>,
                          journal: seq<MutationEvent>)
    requires JournalOk(env, archive, journal) && ProposalsOk(env, archive, ps) && ResolvedOk(ps, journal) && RecordsOk(records, ps)
    ensures var loaded := ReplayProposals(Reloaded(records), journal);
            ProposalsOk(env, archive, loaded) && ResolvedOk(loaded, journal) && RecordsOk(records, loaded)
  {
    hide WellFormed, IdentityOk, ReplayProposals, EventOk, ToProposal, Reload;
    LoadedProposals(env, archive, ps, records, journal);
    var loaded := ReplayProposals(Reloaded(records), journal);
    forall k | 0 <= k < |journal| ensures ResolvedInMemory(loaded, journal[k]) {
      assert ResolvedBy(loaded, journal[k]);
    }
    forall id | id in loaded ensures SameProposal(ToProposal(records[id]), Reload(loaded[id])) {
      assert ProposalOk(env, archive, id, ps[id]) && Restored(env, archive, id, ps[id], loaded[id]);
      RestoredReloads(env, archive, id, ps[id], loaded[id]);
    }
    forall a, b | a in loaded && b in loaded && loaded[a].requestHash == loaded[b].requestHash ensures a == b {
      assert Restored(env, archive, a, ps[a], loaded[a]) && Restored(env, archive, b, ps[b], loaded[b]);
    }
  }

  lemma RestoredReloads(env: Env, archive: map<string, Message>, id: string, p: Proposal, loaded: Proposal)
    requires ProposalOk(env, archive, id, p) && Restored(env, archive, id, p, loaded)
    ensures SameProposal(Reload(loaded), Reload(p))
  {
    hide Cites;
    ReloadSame(loaded, Reload(p));
    ReloadTwice(p);
  }

  lemma LoadedLive(disk: Files, journal: seq<MutationEvent>)
    requires WellFormed(journal) && DiskOk(disk, journal)
    ensures LiveOk(Load(disk, journal), journal)
  {
    hide AllSameGoverned, ReplayMemories, ReplayEvidence, ReplayContinuity, LoadMemories, WellFormed;
    var a :| 0 <= a <= |journal| && AllSameGoverned(disk.memories, Memories(journal[..a]));
    MemoriesConverge(disk.memories, journal, a);
    var b :| 0 <= b <= |journal| && disk.evidence == Evidence(journal[..b]);
    EvidenceConverges(journal, b);
    var d :| 0 <= d <= |journal| && disk.continuity == Continuity(journal[..d]);
    ContinuityConverges(journal, d);
  }

  lemma RestartKeeps(env: Env, s: Sys)
    requires Inv(env, s)
    ensures Inv(env, s.(live := Load(s.disk, s.journal), phase := Idle, rejecting := {}))
  {
    LoadedProposalsOk(env, s.archive, s.live.proposals, s.disk.proposals, s.journal);
    JournalWellFormed(env, s);
    LoadedLive(s.disk, s.journal);
    hide JournalOk, LiveOk, DiskOk, ProposalsOk, ResolvedOk, RecordsOk, Reloaded, ReplayProposals;
  }

  // ---- every run ----

  lemma FlushKeeps(env: Env, s: Sys)
    requires Inv(env, s)
    ensures Inv(env, s.(disk := s.disk.(memories := s.live.memories)))
    ensures Inv(env, s.(disk := s.disk.(evidence := s.live.evidence)))
    ensures Inv(env, s.(disk := s.disk.(continuity := s.live.continuity)))
    ensures Inv(env, s.(disk := s.disk.(proposals := Records(s.live.proposals))))
  {
    Flushed(s.disk, s.live, s.journal);
    FlushedProposals(s.live.proposals);
    OnlyProposalsChanged(s, s.(disk := s.disk.(proposals := Records(s.live.proposals))));
    hide JournalOk, LiveOk, DiskOk, ProposalsOk, ResolvedOk, RecordsOk, Records, PhaseOk;
  }

  lemma TouchKeeps(env: Env, s: Sys, id: string, runtime: Runtime)
    requires Inv(env, s) && id in s.live.memories
    ensures Inv(env, s.(live := s.live.(memories := s.live.memories[id := s.live.memories[id].(runtime := runtime)])))
  {
    Touched(s.live, s.journal, id, runtime);
    hide JournalOk, LiveOk, DiskOk, ProposalsOk, ResolvedOk, RecordsOk, PhaseOk;
  }

  lemma RejectingIsFree(env: Env, s: Sys, rejecting: set<string>)
    requires Inv(env, s)
    ensures Inv(env, s.(rejecting := rejecting))
  {
    hide JournalOk, LiveOk, DiskOk, ProposalsOk, ResolvedOk, RecordsOk, PhaseOk;
  }

  lemma StepKeeps(env: Env, s: Sys, a: Action)
    requires SoundDigests(env) && Inv(env, s)
    ensures Inv(env, Step(env, s, a))
  {
    hide Inv, SoundDigests, Submit, Approve, Retire, Finish, RejectProposal, Load, Records;
    if FreshIds(s, a) && LockFree(s, a) && Sized(s, a) {
      match a
      case Archive(id, message) => ArchiveKeeps(env, s, s.archive[id := message]);
      case SubmitStep(request, answers) => SubmitKeeps(env, s, request, answers);
      case ApproveStep(proposalId, newId, traceId) => ApproveKeeps(env, s, proposalId, newId, traceId);
      case RetireStep(memoryId, traceId) => RetireKeeps(env, s, memoryId, traceId);
      case FinishStep(eventId, now) => FinishKeeps(env, s, eventId, now);
      case RejectCheck(id) => RejectingIsFree(env, s, s.rejecting + {id});
      case RejectWrite(id, reason, at) =>
        RejectingIsFree(env, s, s.rejecting - {id});
        RejectKeeps(env, s.(rejecting := s.rejecting - {id}), id, reason, at);
      case Touch(id, runtime) => if id in s.live.memories { TouchKeeps(env, s, id, runtime); }
      case FlushMemories => FlushKeeps(env, s);
      case FlushEvidence => FlushKeeps(env, s);
      case FlushProposals => FlushKeeps(env, s);
      case FlushContinuity => FlushKeeps(env, s);
      case Restart => RestartKeeps(env, s);
    }
  }

  lemma InitOk(env: Env)
    ensures Inv(env, Init())
  {
    var none: seq<MutationEvent> := [];
    assert none[..0] == none;
    assert Memories(none) == map[] && Evidence(none) == map[] && Continuity(none) == [];
  }

  // The invariant holds after every interleaving of handlers, flushes and
  // restarts.
  lemma {:induction false} RunKeeps(env: Env, actions: seq<Action>)
    requires SoundDigests(env)
    ensures Inv(env, Run(env, actions))
    decreases |actions|
  {
    hide Inv, SoundDigests, Step;
    if actions == [] {
      InitOk(env);
    } else {
      RunKeeps(env, actions[..|actions| - 1]);
      StepKeeps(env, Run(env, actions[..|actions| - 1]), actions[|actions| - 1]);
    }
  }
}
