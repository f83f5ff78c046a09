// The records of governed memory.
module Memory {
  import opened Wrappers

  const ACTIVE := "ACTIVE"
  const SUPERSEDED := "SUPERSEDED"
  const FORGOTTEN := "FORGOTTEN"

  datatype MutationKind = Remember | Correct | Forget

  datatype ProposalStatus = Pending | Applied | Rejected

  datatype GateClass = GateNone | GateSecurity | GateStructural | GateIntent

  // The fields retrieval and feedback change without a mutation event.
  datatype Runtime = Runtime(
    accessCount: int, lastAccessedAt: Option<int>, activation: real, confidence: real, disputed: bool, lastUsedSeq: int)

  // A memory row: everything but runtime is governed by the journal. "" is an
  // absent reference.
  datatype MemoryRow = MemoryRow(
    memoryId: string, kind: string, subject: string, content: string, contentHash: string,
    lifecycle: string, importance: real, sensitivity: string, secretLike: bool, instructionLike: bool,
    stateVersion: int, supersedes: string, createdAt: int, updatedAt: int,
    scopeType: string, projectKey: string, repeatCount: int, runtime: Runtime)

  datatype EvidenceRow = EvidenceRow(
    memoryId: string, messageId: string, quoteHash: string, quoteStart: int, quoteEnd: int,
    relation: string, createdAt: int)

  datatype ContinuityRow = ContinuityRow(
    revision: int, eventId: string, changeKind: string, targetId: string, relatedId: string,
    projectKey: string, sensitivity: string, traceId: string, createdAt: int)

  datatype Quote = Quote(hash: string, startByte: int, endByte: int)

  datatype Identity = Identity(
    clientKey: string, sessionId: string, messageId: string, mutation: MutationKind, targetMemoryId: string,
    proposedKind: string, scope: string, projectKey: string, subject: string, replacement: string,
    requestEvidenceHash: string, evidenceContentHash: string, evidence: Option<Quote>)

  datatype Proposal = Proposal(
    id: string, requestHash: string, reasonCode: string, appliedMemoryId: string, gateClass: GateClass,
    identity: Identity, status: ProposalStatus, createdAt: int, resolvedAt: Option<int>)

  datatype MutationEvent = MutationEvent(
    requestHash: string, mutation: MutationKind, proposalId: string, proposal: Option<Proposal>,
    resolutionReason: string, reviewAuthorization: string,
    newMemory: Option<MemoryRow>, updatedMemory: Option<MemoryRow>,
    targetMemoryId: string, expectedTargetVersion: int, targetLifecycle: string,
    evidence: EvidenceRow, continuity: ContinuityRow, createdAt: int)

  function EventMemoryId(e: MutationEvent): string {
    if e.newMemory.Some? then e.newMemory.value.memoryId
    else if e.updatedMemory.Some? then e.updatedMemory.value.memoryId
    else e.targetMemoryId
  }

  // Equal in every governed field.
  predicate SameGoverned(a: MemoryRow, b: MemoryRow) {
    a.(runtime := b.runtime) == b
  }

  ghost predicate AllSameGoverned(m: map<string, MemoryRow>, n: map<string, MemoryRow>) {
    m.Keys == n.Keys && forall id :: id in m ==> SameGoverned(m[id], n[id])
  }
}
