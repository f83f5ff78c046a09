// The governed proposal protocol as one machine: every critical section is a
// step, and steps of different handlers interleave freely.
module Governance {
  import opened Wrappers
  import opened Memory
  import opened Replay
  import opened Convergence
  import opened ProposalRecords
  import opened Quotes
  import opened Gate

  const REVIEWER_APPROVED := "REVIEWER_APPROVED"
  const ADMIN_RETIRE := "ADMIN_RETIRE"
  const ADMIN_INTENT_REVIEW := "ADMIN_INTENT_REVIEW"

  // Hashes, word lists and the importance heuristic.
  datatype Env = Env(
    requestHash: Identity -> string, retireHash: (string, int) -> string, sha256: string -> string,
    policy: Policy, importance: string -> real, inherit: (string, string) -> string)

  datatype Commit = Commit(
    mutation: MutationKind, proposalId: string, requestHash: string, resolutionReason: string,
    reviewAuthorization: string, newMemory: Option<MemoryRow>, updatedMemory: Option<MemoryRow>,
    targetMemoryId: string, expectedTargetVersion: int, targetLifecycle: string, evidence: EvidenceRow,
    changeKind: string, relatedId: string, projectKey: string, sensitivity: string, traceId: string)

  datatype Live = Live(
    memories: map<string, MemoryRow>, evidence: map<string, seq<EvidenceRow>>,
    proposals: map<string, Proposal>, continuity: seq<ContinuityRow>)

  // The projection files, each as last renamed into place.
  datatype Files = Files(
    memories: map<string, MemoryRow>, evidence: map<string, seq<EvidenceRow>>,
    proposals: map<string, Record>, continuity: seq<ContinuityRow>)

  // Where the holder of the mutation lock stands.
  datatype Phase = Idle | Committing(commit: Commit, rejectOnFailure: bool)

  datatype Sys = Sys(
    archive: map<string, Message>, journal: seq<MutationEvent>, live: Live, disk: Files,
    phase: Phase, rejecting: set<string>)

  const NoEvidence := EvidenceRow("", "", "", 0, 0, "", 0)
  const NewRuntime := Runtime(0, None, 1.0, 1.0, false, 0)

  function Init(): Sys {
    Sys(map[], [], Live(map[], map[], map[], []), Files(map[], map[], map[], []), Idle, {})
  }

  // ---- the store's critical sections ----

  predicate HashTaken(proposals: map<string, Proposal>, hash: string) {
    exists id :: id in proposals && proposals[id].requestHash == hash
  }

  function WithProposal(live: Live, p: Proposal): Live {
    live.(proposals := live.proposals[p.id := p])
  }

  function Records(proposals: map<string, Proposal>): map<string, Record> {
    map id | id in proposals :: FromProposal(proposals[id])
  }

  // StageProposal: record it pending and flush the proposals file.
  function StageProposal(s: Sys, p: Proposal, reason: string, now: int): Sys {
    var live := WithProposal(s.live, p.(status := Pending, reasonCode := reason, createdAt := now));
    s.(live := live, disk := s.disk.(proposals := Records(live.proposals)))
  }

  // RejectProposal: it looks at nothing but the id.
  function RejectProposal(s: Sys, id: string, reason: string, now: int): Sys {
    if id !in s.live.proposals then s
    else
      var rejected := s.live.proposals[id].(status := Rejected, reasonCode := reason, resolvedAt := Some(now));
      var live := s.live.(proposals := s.live.proposals[id := rejected]);
      s.(live := live, disk := s.disk.(proposals := Records(live.proposals)))
  }

  function WithDefaults(row: MemoryRow, now: int): MemoryRow {
    row.(stateVersion := if row.stateVersion <= 0 then 1 else row.stateVersion,
         createdAt := if row.createdAt == 0 then now else row.createdAt,
         updatedAt := if row.updatedAt == 0 then now else row.updatedAt)
  }

  function CommitMemoryId(c: Commit): string {
    if c.newMemory.Some? then c.newMemory.value.memoryId
    else if c.updatedMemory.Some? then c.updatedMemory.value.memoryId
    else c.targetMemoryId
  }

  // The checks CommitMutation makes before it writes anything.
  predicate Committable(live: Live, c: Commit) {
    && (if c.proposalId != ""
        then c.proposalId in live.proposals && live.proposals[c.proposalId].status == Pending
             && live.proposals[c.proposalId].requestHash == c.requestHash
        else c.reviewAuthorization == ADMIN_RETIRE && c.requestHash != "")
    && (c.newMemory.Some? ==> c.newMemory.value.memoryId !in live.memories)
    && (c.updatedMemory.Some? ==> c.targetMemoryId != "" && c.updatedMemory.value.memoryId == c.targetMemoryId)
    && (c.targetMemoryId != "" ==> TargetCurrent(live.memories, c.targetMemoryId, c.expectedTargetVersion))
  }

  function NextRevision(rows: seq<ContinuityRow>): int {
    if rows == [] then 1 else rows[|rows| - 1].revision + 1
  }

  // The event CommitMutation appends.
  function EventFor(live: Live, c: Commit, eventId: string, now: int): MutationEvent {
    var proposal := if c.proposalId != "" && c.proposalId in live.proposals then Some(live.proposals[c.proposalId]) else None;
    var newMemory := if c.newMemory.Some? then Some(WithDefaults(c.newMemory.value, now)) else None;
    MutationEvent(
      c.requestHash, c.mutation, c.proposalId, proposal, c.resolutionReason, c.reviewAuthorization,
      newMemory, c.updatedMemory, c.targetMemoryId, c.expectedTargetVersion, c.targetLifecycle,
      c.evidence.(createdAt := if c.evidence.createdAt == 0 then now else c.evidence.createdAt),
      ContinuityRow(NextRevision(live.continuity), eventId, c.changeKind, CommitMemoryId(c), c.relatedId,
                    c.projectKey, c.sensitivity, c.traceId, now),
      now)
  }

  // applyMutationEventLocked on the whole in-memory state.
  function ApplyEvent(live: Live, e: MutationEvent): Live {
    Live(ApplyMemories(live.memories, e), ApplyEvidence(live.evidence, e),
         ApplyProposals(live.proposals, e), ApplyContinuity(live.continuity, e))
  }

  function AppendAndApply(s: Sys, e: MutationEvent): Sys {
    s.(journal := s.journal + [e], live := ApplyEvent(s.live, e))
  }

  function Reloaded(records: map<string, Record>): map<string, Proposal> {
    map id | id in records :: ToProposal(records[id])
  }

  // Everything a restart reads back.
  function Load(disk: Files, journal: seq<MutationEvent>): Live {
    Live(LoadMemories(disk.memories, journal), ReplayEvidence(disk.evidence, journal),
         ReplayProposals(Reloaded(disk.proposals), journal), ReplayContinuity(disk.continuity, journal))
  }

  // ---- the flows under the mutation lock ----

  function NewRow(id: string, kind: string, subject: string, content: string, env: Env, quote: string,
                  sensitivity: string, secretLike: bool, instructionLike: bool, scope: string, projectKey: string,
                  supersedes: string): MemoryRow
  {
    MemoryRow(id, kind, subject, content, env.sha256(content), ACTIVE, env.importance(quote), sensitivity,
              secretLike, instructionLike, 0, supersedes, 0, 0, scope, projectKey, 0, NewRuntime)
  }

  function EvidenceFor(memoryId: string, identity: Identity, relation: string): EvidenceRow
    requires identity.evidence.Some?
  {
    var q := identity.evidence.value;
    EvidenceRow(memoryId, identity.messageId, q.hash, q.startByte, q.endByte, relation, 0)
  }

  // Server.apply: the commit of a verified request.
  function BuildCommit(
    env: Env, request: Request, proposalId: string, identity: Identity, target: Option<MemoryRow>,
    evidence: Message, reason: string, memoryId: string, traceId: string): Commit
    requires identity.evidence.Some?
    requires request.mutation != Remember ==> target.Some?
  {
    var authorization := if reason == REVIEWER_APPROVED then ADMIN_INTENT_REVIEW else "";
    var hash := env.requestHash(identity);
    match request.mutation
    case Remember =>
      var row := NewRow(memoryId, request.memoryKind, request.subject, request.quote, env, request.quote,
                        evidence.sensitivity, evidence.secretLike, evidence.instructionLike, request.scope,
                        identity.projectKey, "");
      Commit(Remember, proposalId, hash, reason, authorization, Some(row), None, "", 0, "",
             EvidenceFor(memoryId, identity, "ASSERTS"), "MEMORY_CREATED", "", identity.projectKey,
             evidence.sensitivity, traceId)
    case Correct =>
      var t := target.value;
      var sensitivity := env.inherit(t.sensitivity, evidence.sensitivity);
      var row := NewRow(memoryId, t.kind, t.subject, t.subject + ": " + request.replacement, env, request.quote,
                        sensitivity, evidence.secretLike || t.secretLike, evidence.instructionLike || t.instructionLike,
                        t.scopeType, t.projectKey, t.memoryId);
      Commit(Correct, proposalId, hash, reason, authorization, Some(row), None, t.memoryId, t.stateVersion, SUPERSEDED,
             EvidenceFor(memoryId, identity, "CORRECTS"), "MEMORY_CORRECTED", t.memoryId, t.projectKey, sensitivity, traceId)
    case Forget =>
      var t := target.value;
      Commit(Forget, proposalId, hash, reason, authorization, None, None, t.memoryId, t.stateVersion, FORGOTTEN,
             EvidenceFor(t.memoryId, identity, "FORGETS"), "MEMORY_FORGOTTEN", "", t.projectKey,
             env.inherit(t.sensitivity, evidence.sensitivity), traceId)
  }

  // One step up the five declared grades, capped at the top.
  function PromoteImportance(importance: real): real {
    if importance >= 0.8 then 1.0 else if importance >= 0.6 then 0.8 else if importance >= 0.4 then 0.6 else 0.4
  }

  // The commit that reinforces an existing memory instead of duplicating it.
  function PromoteCommit(proposalId: string, hash: string, identity: Identity, row: MemoryRow, now: int, traceId: string): Commit
    requires identity.evidence.Some?
  {
    var duplicate := row.(importance := PromoteImportance(row.importance), repeatCount := row.repeatCount + 1,
                          runtime := row.runtime.(activation := 1.0), stateVersion := row.stateVersion + 1, updatedAt := now);
    Commit(Remember, proposalId, hash, "DUPLICATE_PROMOTED", "", None, Some(duplicate), row.memoryId, row.stateVersion, "",
           EvidenceFor(row.memoryId, identity, "REASSERTS"), "MEMORY_REINFORCED", "", row.projectKey, row.sensitivity, traceId)
  }

  function RetireCommit(env: Env, row: MemoryRow, traceId: string): Commit {
    Commit(Forget, "", env.retireHash(row.memoryId, row.stateVersion), "REVIEWER_RETIRED", ADMIN_RETIRE, None, None,
           row.memoryId, row.stateVersion, SUPERSEDED, NoEvidence, "MEMORY_SUPERSEDED", "", row.projectKey, row.sensitivity, traceId)
  }

  // mutationTarget: None is an error, Some(None) is a request without a target.
  function MutationTarget(memories: map<string, MemoryRow>, request: Request): Option<Option<MemoryRow>> {
    if request.mutation == Remember then Some(None)
    else if request.targetMemoryId !in memories then None
    else if memories[request.targetMemoryId].lifecycle != ACTIVE || memories[request.targetMemoryId].sensitivity != NORMAL then None
    else Some(Some(memories[request.targetMemoryId]))
  }

  function IdentityFor(env: Env, clientKey: string, projectKey: string, request: Request, evidence: Message, binding: Binding): Identity {
    Identity(clientKey, request.sessionId, request.messageId, request.mutation, request.targetMemoryId, request.memoryKind,
             request.scope, if request.mutation == Remember && request.scope == PROJECT then projectKey else "",
             request.subject, request.replacement, env.sha256(request.quote), env.sha256(evidence.content),
             if binding.BoundAt? then Some(Quote(binding.hash, binding.startByte, binding.endByte)) else None)
  }

  // What the surroundings answer while a request is served: who is calling, from
  // which project, whether the message is the latest user turn, which active
  // memory (if any) has a near-identical subject, fresh identifiers, the time.
  datatype Answers = Answers(
    clientKey: string, projectKey: string, allowOld: bool, currentTurn: bool, duplicate: string,
    proposalId: string, memoryId: string, traceId: string, now: int)

  // applyMutationInternal up to its CommitMutation call.
  function Submit(env: Env, s: Sys, request: Request, a: Answers): Sys {
    if request.messageId !in s.archive || s.archive[request.messageId].sessionId != request.sessionId then s
    else
      var evidence := s.archive[request.messageId];
      if evidence.role != USER || (!a.allowOld && !a.currentTurn) then s
      else
        var binding := Bind(env.sha256, evidence.content, request.quote);
        var target := MutationTarget(s.live.memories, request);
        if target.None? then s
        else
          var identity := IdentityFor(env, a.clientKey, a.projectKey, request, evidence, binding);
          var hash := env.requestHash(identity);
          if HashTaken(s.live.proposals, hash) then s
          else
            var proposal := Proposal(a.proposalId, hash, "", "", GateNone, identity, Pending, 0, None);
            if binding.NotBound? then
              StageProposal(s, proposal.(gateClass := GateStructural), binding.reason, a.now)
            else
              var decision := Verify(env.policy, request, evidence, a.currentTurn, target.value, false);
              if decision.Stage? then
                StageProposal(s, proposal.(gateClass := decision.gate), decision.reason, a.now)
              else
                var staged := StageProposal(s, proposal, "", a.now);
                if request.mutation == Remember && a.duplicate in s.live.memories
                   && s.live.memories[a.duplicate].lifecycle == ACTIVE then
                  staged.(phase := Committing(
                    PromoteCommit(a.proposalId, hash, identity, s.live.memories[a.duplicate], a.now, a.traceId), false))
                else
                  staged.(phase := Committing(
                    BuildCommit(env, request, a.proposalId, identity, target.value, evidence,
                                "CURRENT_USER_EVIDENCE_VERIFIED", a.memoryId, a.traceId), true))
  }

  function RequestOf(identity: Identity, quote: string): Request {
    Request(identity.sessionId, identity.messageId, identity.mutation, identity.proposedKind, identity.scope,
            identity.subject, quote, identity.targetMemoryId, identity.replacement)
  }

  // adminApproveProposal up to its CommitMutation call.
  function Approve(env: Env, s: Sys, proposalId: string, memoryId: string, traceId: string): Sys {
    if proposalId !in s.live.proposals then s
    else
      var p := s.live.proposals[proposalId];
      if p.status != Pending || p.gateClass != GateIntent || p.reasonCode != INTENT_UNVERIFIED then s
      else if p.identity.messageId !in s.archive || s.archive[p.identity.messageId].sessionId != p.identity.sessionId
              || p.identity.evidence.None? then s
      else
        var evidence, ref := s.archive[p.identity.messageId], p.identity.evidence.value;
        if p.identity.evidenceContentHash == "" || env.sha256(evidence.content) != p.identity.evidenceContentHash then s
        else if ref.startByte < 0 || ref.endByte > |evidence.content| || ref.startByte >= ref.endByte then s
        else
          var quote := evidence.content[ref.startByte..ref.endByte];
          if !env.policy.validText(quote) || env.sha256(quote) != ref.hash || ref.hash != p.identity.requestEvidenceHash then s
          else
            var request := RequestOf(p.identity, quote);
            var target := MutationTarget(s.live.memories, request);
            if target.None? then s
            else if Verify(env.policy, request, evidence, true, target.value, true) != Apply then s
            else
              s.(phase := Committing(
                BuildCommit(env, request, proposalId, p.identity, target.value, evidence, REVIEWER_APPROVED, memoryId, traceId),
                false))
  }

  // adminRetireMemory up to its CommitMutation call.
  function Retire(env: Env, s: Sys, memoryId: string, traceId: string): Sys {
    if memoryId == "" || memoryId !in s.live.memories || s.live.memories[memoryId].lifecycle != ACTIVE then s
    else s.(phase := Committing(RetireCommit(env, s.live.memories[memoryId], traceId), false))
  }

  // CommitMutation, and the rejection that follows when an apply fails.
  function Finish(s: Sys, eventId: string, now: int): Sys {
    match s.phase
    case Idle => s
    case Committing(c, rejectOnFailure) =>
      var idle := s.(phase := Idle);
      if Committable(s.live, c) then AppendAndApply(idle, EventFor(s.live, c, eventId, now))
      else if rejectOnFailure then RejectProposal(idle, c.proposalId, "COMMIT_FAILED_PRE_EVENT", now)
      else idle
  }

  // ---- steps ----

  datatype Action =
    | Archive(messageId: string, message: Message)
    | SubmitStep(request: Request, answers: Answers)
    | ApproveStep(proposalId: string, newId: string, traceId: string)
    | RetireStep(memoryId: string, traceId: string)
    | FinishStep(eventId: string, now: int)
    | RejectCheck(rejectId: string)                      // adminRejectProposal reads the status ...
    | RejectWrite(rejectedId: string, reason: string, at: int)  // ... and writes it in a second critical section
    | Touch(touched: string, runtime: Runtime)           // RecordAccess, ApplyFeedback, access bumps
    | FlushMemories
    | FlushEvidence
    | FlushProposals
    | FlushContinuity
    | Restart                                            // a crash or a shutdown, then a load

  // newID returns identifiers never seen before.
  predicate FreshIds(s: Sys, a: Action) {
    match a
    case Archive(id, _) => id !in s.archive
    case SubmitStep(_, answers) =>
      answers.proposalId != "" && answers.proposalId !in s.live.proposals
      && answers.memoryId != "" && answers.memoryId !in s.live.memories
    case ApproveStep(_, newId, _) => newId != "" && newId !in s.live.memories
    case FinishStep(eventId, _) => !Logged(s.live.continuity, eventId)
    case _ => true
  }

  // The mutation lock admits one flow at a time.
  predicate LockFree(s: Sys, a: Action) {
    a.SubmitStep? || a.ApproveStep? || a.RetireStep? ==> s.phase.Idle?
  }

  // Identifiers arrive in a request line and versions are 64-bit integers, so
  // the text a retirement hashes is short.
  predicate InRange(id: string, version: int) {
    |id| <= 0x1_0000_0000 && -0x8000_0000_0000_0000 <= version < 0x8000_0000_0000_0000
  }

  predicate Sized(s: Sys, a: Action) {
    a.RetireStep? && a.memoryId in s.live.memories ==> InRange(a.memoryId, s.live.memories[a.memoryId].stateVersion)
  }

  function Step(env: Env, s: Sys, a: Action): Sys {
    if !FreshIds(s, a) || !LockFree(s, a) || !Sized(s, a) then s
    else
      match a
      case Archive(id, message) => s.(archive := s.archive[id := message])
      case SubmitStep(request, answers) => Submit(env, s, request, answers)
      case ApproveStep(proposalId, newId, traceId) => Approve(env, s, proposalId, newId, traceId)
      case RetireStep(memoryId, traceId) => Retire(env, s, memoryId, traceId)
      case FinishStep(eventId, now) => Finish(s, eventId, now)
      case RejectCheck(id) =>
        if id in s.live.proposals && s.live.proposals[id].status == Pending then s.(rejecting := s.rejecting + {id}) else s
      case RejectWrite(id, reason, at) =>
        if id in s.rejecting then RejectProposal(s.(rejecting := s.rejecting - {id}), id, reason, at) else s
      case Touch(id, runtime) =>
        if id in s.live.memories
        then s.(live := s.live.(memories := s.live.memories[id := s.live.memories[id].(runtime := runtime)])) else s
      case FlushMemories => s.(disk := s.disk.(memories := s.live.memories))
      case FlushEvidence => s.(disk := s.disk.(evidence := s.live.evidence))
      case FlushProposals => s.(disk := s.disk.(proposals := Records(s.live.proposals)))
      case FlushContinuity => s.(disk := s.disk.(continuity := s.live.continuity))
      case Restart => s.(live := Load(s.disk, s.journal), phase := Idle, rejecting := {})
  }

  function Run(env: Env, actions: seq<Action>): Sys {
    if actions == [] then Init() else Step(env, Run(env, actions[..|actions| - 1]), actions[|actions| - 1])
  }
}
