// What every event in the journal of every run says, and what it rests on: the
// law of the journal, stated on the records alone.
module Chronicle {
  import opened Wrappers
  import opened Memory
  import opened Replay
  import opened Lifecycle
  import opened Convergence
  import opened ProposalRecords
  import opened Quotes
  import opened Gate
  import opened Governance
  import opened GovernanceProof

  // ---- the law ----

  // The message a proposal cites: a user's, of its own session, harmless, and
  // quoted at the place named.
  ghost predicate Grounded(env: Env, archive: map<string, Message>, i: Identity) {
    && i.evidence.Some? && i.messageId in archive
    && var said, q := archive[i.messageId], i.evidence.value;
       && said.role == USER && said.sessionId == i.sessionId
       && said.sensitivity == NORMAL && !said.secretLike && !said.instructionLike
       && 0 <= q.startByte < q.endByte <= |said.content|
       && q.hash == i.requestEvidenceHash == env.sha256(said.content[q.startByte..q.endByte])
       && i.evidenceContentHash == env.sha256(said.content)
  }

  // The words quoted.
  function Words(archive: map<string, Message>, i: Identity): string {
    if i.evidence.Some? && i.messageId in archive
       && 0 <= i.evidence.value.startByte <= i.evidence.value.endByte <= |archive[i.messageId].content|
    then archive[i.messageId].content[i.evidence.value.startByte..i.evidence.value.endByte] else ""
  }

  // Either the words carry the cue, or a reviewer supplied it for a proposal that
  // was held back for nothing else.
  ghost predicate Authorized(policy: Policy, words: string, p: Proposal, authorization: string, reason: string) {
    || (authorization == "" && reason != REVIEWER_APPROVED && policy.hasCue(p.identity.mutation, words)
        && p.gateClass == GateNone && (p.status == Pending ==> p.reasonCode == ""))
    || (authorization == ADMIN_INTENT_REVIEW && reason == REVIEWER_APPROVED
        && p.gateClass == GateIntent && (p.status == Pending ==> p.reasonCode == "EXPLICIT_INTENT_NOT_VERIFIED"))
  }

  // A new row says this, at this version and time.
  predicate Made(row: MemoryRow, kind: string, subject: string, content: string, sensitivity: string, supersedes: string,
                 scope: string, projectKey: string, version: int, at: int)
  {
    && row.kind == kind && row.subject == subject && row.content == content && row.sensitivity == sensitivity
    && row.supersedes == supersedes && row.scopeType == scope && row.projectKey == projectKey
    && row.lifecycle == "ACTIVE" && row.stateVersion == version && row.createdAt == row.updatedAt == at
    && row.repeatCount == 0 && row.runtime == Runtime(0, None, 1.0, 1.0, false, 0)
  }

  // REMEMBER stores the user's words under the subject they name.
  ghost predicate RemembersWords(env: Env, words: string, i: Identity, row: MemoryRow, version: int, at: int) {
    && i.targetMemoryId == "" && env.policy.overlaps(i.subject, words)
    && Made(row, i.proposedKind, i.subject, words, "NORMAL", "", i.scope, i.projectKey, version, at)
    && row.contentHash == env.sha256(words) && row.importance == env.importance(words)
    && !row.secretLike && !row.instructionLike
  }

  // CORRECT stores the replacement, which the user's words contain, under the
  // subject of the memory it replaces.
  ghost predicate CorrectsWords(env: Env, words: string, i: Identity, t: MemoryRow, row: MemoryRow, version: int, at: int) {
    && env.policy.supported(i.replacement, words)
    && Made(row, t.kind, t.subject, t.subject + ": " + i.replacement, env.inherit(t.sensitivity, "NORMAL"), t.memoryId,
            t.scopeType, t.projectKey, version, at)
    && row.contentHash == env.sha256(row.content) && row.importance == env.importance(words)
    && row.secretLike == t.secretLike && row.instructionLike == t.instructionLike
  }

  // A memory changed on request is the one named, active and harmless, and what
  // the words are about.
  ghost predicate MayChange(policy: Policy, words: string, i: Identity, t: MemoryRow) {
    && i.targetMemoryId == t.memoryId && t.lifecycle == "ACTIVE" && t.sensitivity == "NORMAL" && policy.validKind(t.kind)
    && !policy.blocked(t.subject + "\n" + t.content) && policy.overlaps(t.subject + " " + t.content, words)
  }

  // Reinforcing moves a memory one grade up and counts the repetition.
  predicate Strengthens(before: MemoryRow, after: MemoryRow) {
    && after.(importance := before.importance, repeatCount := before.repeatCount, stateVersion := before.stateVersion,
              updatedAt := before.updatedAt, runtime := before.runtime) == before
    && after.repeatCount == before.repeatCount + 1 && after.stateVersion == before.stateVersion + 1
    && NextGrade(before.importance, after.importance) && after.runtime.activation == 1.0
  }

  // The grades are 0.4, 0.6, 0.8 and 1.0 above the lowest; the next one is the
  // least above, and the highest stays.
  predicate NextGrade(before: real, after: real) {
    && (after == 0.4 || after == 0.6 || after == 0.8 || after == 1.0)
    && (before < 1.0 ==> before < after) && (before >= 1.0 ==> after == 1.0)
    && (after > 0.4 && before < 1.0 ==> before >= after - 0.2)
  }

  // Evidence and log name the memory.
  predicate About(e: MutationEvent, id: string) {
    e.evidence.memoryId == id && e.continuity.targetId == id
  }

  // What an event with a proposal changes, given the rows it found.
  ghost predicate Changes(env: Env, words: string, i: Identity, m: map<string, MemoryRow>, e: MutationEvent) {
    match i.mutation
    case Remember =>
      if e.newMemory.Some? then
        && RemembersWords(env, words, i, e.newMemory.value, 1, e.createdAt) && About(e, e.newMemory.value.memoryId)
        && e.updatedMemory.None? && e.targetMemoryId == "" && e.targetLifecycle == ""
        && e.evidence.relation == "ASSERTS" && e.continuity.changeKind == "MEMORY_CREATED" && e.continuity.relatedId == ""
        && e.continuity.projectKey == i.projectKey && e.continuity.sensitivity == "NORMAL"
      else
        && i.targetMemoryId == "" && env.policy.overlaps(i.subject, words)
        && e.targetMemoryId in m && m[e.targetMemoryId].lifecycle == "ACTIVE" && e.targetLifecycle == ""
        && About(e, e.targetMemoryId)
        && e.updatedMemory.Some? && Strengthens(m[e.targetMemoryId], e.updatedMemory.value)
        && e.evidence.relation == "REASSERTS" && e.continuity.changeKind == "MEMORY_REINFORCED" && e.continuity.relatedId == ""
        && e.continuity.projectKey == m[e.targetMemoryId].projectKey && e.continuity.sensitivity == m[e.targetMemoryId].sensitivity
        && e.resolutionReason == "DUPLICATE_PROMOTED"
    case Correct =>
      && e.targetMemoryId in m && e.newMemory.Some? && e.updatedMemory.None?
      && var t := m[e.targetMemoryId];
         && MayChange(env.policy, words, i, t) && CorrectsWords(env, words, i, t, e.newMemory.value, 1, e.createdAt)
         && About(e, e.newMemory.value.memoryId)
         && e.targetLifecycle == "SUPERSEDED"
         && e.evidence.relation == "CORRECTS" && e.continuity.changeKind == "MEMORY_CORRECTED"
         && e.continuity.relatedId == t.memoryId && e.continuity.projectKey == t.projectKey
         && e.continuity.sensitivity == env.inherit(t.sensitivity, "NORMAL")
    case Forget =>
      && e.targetMemoryId in m && e.newMemory.None? && e.updatedMemory.None?
      && var t := m[e.targetMemoryId];
         && MayChange(env.policy, words, i, t) && e.targetLifecycle == "FORGOTTEN" && About(e, e.targetMemoryId)
         && e.evidence.relation == "FORGETS" && e.continuity.changeKind == "MEMORY_FORGOTTEN"
         && e.continuity.relatedId == "" && e.continuity.projectKey == t.projectKey
         && e.continuity.sensitivity == env.inherit(t.sensitivity, "NORMAL")
  }

  // An event a user asked for by proposal p: cited, worded, authorized, and
  // changing what the request was about and nothing else.
  ghost predicate Asked(env: Env, archive: map<string, Message>, m: map<string, MemoryRow>, p: Proposal, e: MutationEvent) {
    var i := p.identity;
    && e.mutation == i.mutation && e.requestHash == p.requestHash == env.requestHash(i)
    && Grounded(env, archive, i)
    && !env.policy.blocked(i.subject + "\n" + i.replacement)
    && Authorized(env.policy, Words(archive, i), p, e.reviewAuthorization, e.resolutionReason)
    && Changes(env, Words(archive, i), i, m, e)
    && e.evidence == EvidenceRow(e.evidence.memoryId, i.messageId, i.evidence.value.hash, i.evidence.value.startByte,
                                 i.evidence.value.endByte, e.evidence.relation, e.createdAt)
  }

  // An event without a proposal: a reviewer retired an active memory.
  ghost predicate Retired(env: Env, m: map<string, MemoryRow>, e: MutationEvent) {
    && e.mutation == Forget && e.reviewAuthorization == "ADMIN_RETIRE" && e.resolutionReason == "REVIEWER_RETIRED"
    && e.newMemory.None? && e.updatedMemory.None? && e.targetLifecycle == "SUPERSEDED"
    && e.targetMemoryId in m && m[e.targetMemoryId].lifecycle == "ACTIVE"
    && e.requestHash == env.retireHash(e.targetMemoryId, e.expectedTargetVersion)
    && e.evidence.memoryId == "" && e.evidence.messageId == "" && e.continuity.targetId == e.targetMemoryId
    && e.continuity.changeKind == "MEMORY_SUPERSEDED" && e.continuity.relatedId == ""
    && e.continuity.projectKey == m[e.targetMemoryId].projectKey && e.continuity.sensitivity == m[e.targetMemoryId].sensitivity
  }

  ghost predicate Told(env: Env, archive: map<string, Message>, m: map<string, MemoryRow>, e: MutationEvent) {
    && (if e.proposalId == "" then e.proposal.None? && Retired(env, m, e)
        else e.proposal.Some? && e.proposal.value.id == e.proposalId && e.proposal.value.status == Pending
             && Asked(env, archive, m, e.proposal.value, e))
    && (e.targetMemoryId != "" ==> e.targetMemoryId in m && e.expectedTargetVersion == m[e.targetMemoryId].stateVersion)
    && e.continuity.createdAt == e.createdAt
  }

  ghost predicate AllTold(env: Env, archive: map<string, Message>, journal: seq<MutationEvent>) {
    forall k :: 0 <= k < |journal| ==> Told(env, archive, Memories(journal[..k]), journal[k])
  }

  // ---- a commit under way ----

  // The event a commit would be, but for its numbers.
  function Draft(c: Commit, now: int): MutationEvent {
    EventFor(Live(map[], map[], map[], []), c, "", now)
  }

  ghost predicate Drafted(
    env: Env, archive: map<string, Message>, ps: map<string, Proposal>, m: map<string, MemoryRow>, c: Commit, now: int)
  {
    var e := Draft(c, now);
    && (c.targetMemoryId != "" ==> c.targetMemoryId in m && c.expectedTargetVersion == m[c.targetMemoryId].stateVersion)
    && if c.proposalId == "" then Retired(env, m, e) else c.proposalId in ps && Asked(env, archive, m, ps[c.proposalId], e)
  }

  ghost predicate PhaseTold(env: Env, s: Sys) {
    s.phase.Committing? ==>
      forall now :: Drafted(env, s.archive, s.live.proposals, Memories(s.journal), s.phase.commit, now)
  }

  ghost predicate Story(env: Env, s: Sys) {
    AllTold(env, s.archive, s.journal) && PhaseTold(env, s)
  }

  // ---- the event of a commit ----

  lemma DraftIsEvent(env: Env, archive: map<string, Message>, m: map<string, MemoryRow>, p: Proposal, live: Live, c: Commit,
                     eventId: string, now: int)
    ensures var d, e := Draft(c, now), EventFor(live, c, eventId, now);
            && (Asked(env, archive, m, p, d) ==> Asked(env, archive, m, p, e))
            && (Retired(env, m, d) ==> Retired(env, m, e))
            && e.continuity.createdAt == e.createdAt
  {
    hide Grounded, Authorized, Words, RemembersWords, CorrectsWords, MayChange, Strengthens;
  }

  lemma FinishTold(env: Env, s: Sys, eventId: string, now: int)
    requires Inv(env, s) && Story(env, s)
    ensures Story(env, Finish(s, eventId, now))
  {
    hide Inv, AllTold, Asked, Retired, Drafted, EventFor, Memories, ApplyEvent;
    if s.phase.Committing? && Committable(s.live, s.phase.commit) {
      var c := s.phase.commit;
      var e := EventFor(s.live, c, eventId, now);
      assert Drafted(env, s.archive, s.live.proposals, Memories(s.journal), c, now);
      ProposalIds(env, s, c.proposalId);
      CommittedTold(env, s.archive, s.live, Memories(s.journal), c, eventId, now);
      ToldSnoc(env, s.archive, s.journal, e);
    }
  }

  lemma CommittedTold(env: Env, archive: map<string, Message>, live: Live, m: map<string, MemoryRow>, c: Commit, eventId: string, now: int)
    requires Drafted(env, archive, live.proposals, m, c, now) && Committable(live, c)
    requires c.proposalId in live.proposals ==> live.proposals[c.proposalId].id == c.proposalId
    ensures Told(env, archive, m, EventFor(live, c, eventId, now))
  {
    hide Asked, Retired;
    var p := if c.proposalId in live.proposals then live.proposals[c.proposalId] else Proposal("", "", "", "", GateNone, NoIdentity, Pending, 0, None);
    DraftIsEvent(env, archive, m, p, live, c, eventId, now);
  }

  const NoIdentity := Identity("", "", "", Remember, "", "", "", "", "", "", "", "", None)

  lemma ToldSnoc(env: Env, archive: map<string, Message>, journal: seq<MutationEvent>, e: MutationEvent)
    requires AllTold(env, archive, journal) && Told(env, archive, Memories(journal), e)
    ensures AllTold(env, archive, journal + [e])
  {
    hide Told;
    var more := journal + [e];
    forall k | 0 <= k < |more| ensures Told(env, archive, Memories(more[..k]), more[k]) {
      assert more[..k] == if k < |journal| then journal[..k] else journal;
    }
  }

  lemma ProposalIds(env: Env, s: Sys, id: string)
    requires Inv(env, s)
    ensures id in s.live.proposals ==> s.live.proposals[id].id == id && id != ""
  {
    hide JournalOk, LiveOk, DiskOk, ResolvedOk, RecordsOk, PhaseOk, IdentityOk;
    if id in s.live.proposals {
      assert ProposalOk(env, s.archive, id, s.live.proposals[id]);
    }
  }

  // ---- what later messages and rejections leave alone ----

  lemma StillGrounded(env: Env, archive: map<string, Message>, more: map<string, Message>, i: Identity)
    requires ArchiveGrows(archive, more) && Grounded(env, archive, i)
    ensures Grounded(env, more, i) && Words(more, i) == Words(archive, i)
  {
  }

  lemma StillAsked(env: Env, archive: map<string, Message>, more: map<string, Message>, m: map<string, MemoryRow>, p: Proposal, e: MutationEvent)
    requires ArchiveGrows(archive, more) && Asked(env, archive, m, p, e)
    ensures Asked(env, more, m, p, e)
  {
    StillGrounded(env, archive, more, p.identity);
    hide Grounded, Authorized, Words, Changes, ArchiveGrows;
  }

  lemma ArchiveTold(env: Env, s: Sys, archive: map<string, Message>)
    requires Story(env, s) && ArchiveGrows(s.archive, archive)
    ensures Story(env, s.(archive := archive))
  {
    hide Asked, Retired, ArchiveGrows, EventFor;
    forall k | 0 <= k < |s.journal| ensures Told(env, archive, Memories(s.journal[..k]), s.journal[k]) {
      var m, e := Memories(s.journal[..k]), s.journal[k];
      assert Told(env, s.archive, m, e);
      if e.proposalId != "" {
        StillAsked(env, s.archive, archive, m, e.proposal.value, e);
      }
    }
    if s.phase.Committing? {
      var c, ps, m := s.phase.commit, s.live.proposals, Memories(s.journal);
      forall now ensures Drafted(env, archive, ps, m, c, now) {
        assert Drafted(env, s.archive, ps, m, c, now);
        if c.proposalId != "" {
          StillAsked(env, s.archive, archive, m, ps[c.proposalId], Draft(c, now));
        }
      }
    }
  }

  // A proposal may be settled while its commit is under way; the commit then
  // fails its checks.
  predicate Settled(before: Proposal, after: Proposal) {
    && after.identity == before.identity && after.gateClass == before.gateClass && after.requestHash == before.requestHash
    && after.status != Pending
  }

  lemma SettledTold(env: Env, s: Sys, q: Proposal)
    requires Story(env, s) && q.id in s.live.proposals && Settled(s.live.proposals[q.id], q)
    ensures Story(env, s.(live := s.live.(proposals := s.live.proposals[q.id := q])))
  {
    hide AllTold, Grounded, Words, Changes, EventFor, Retired;
    if s.phase.Committing? {
      var c, ps, m := s.phase.commit, s.live.proposals, Memories(s.journal);
      var settled := ps[q.id := q];
      forall now ensures Drafted(env, s.archive, settled, m, c, now) {
        assert Drafted(env, s.archive, ps, m, c, now);
      }
    }
  }

  lemma RejectTold(env: Env, s: Sys, id: string, reason: string, now: int)
    requires Inv(env, s) && Story(env, s)
    ensures Story(env, RejectProposal(s, id, reason, now))
  {
    hide Inv, AllTold, Drafted;
    if id in s.live.proposals {
      ProposalIds(env, s, id);
      var q := s.live.proposals[id].(status := Rejected, reasonCode := reason, resolvedAt := Some(now));
      SettledTold(env, s, q);
      var after := RejectProposal(s, id, reason, now);
      assert after.live.proposals == s.live.proposals[id := q];
    }
  }

  // ---- starting a commit ----

  // What was verified of a request, in terms of its identity.
  ghost predicate Verified(env: Env, archive: map<string, Message>, i: Identity, request: Request, target: Option<MemoryRow>) {
    && Grounded(env, archive, i) && Words(archive, i) == request.quote
    && Worded(env.policy, request, target)
    && i.mutation == request.mutation && i.targetMemoryId == request.targetMemoryId && i.subject == request.subject
    && i.replacement == request.replacement && i.proposedKind == request.memoryKind && i.scope == request.scope
    && i.messageId == request.messageId
  }

  lemma BuiltTold(env: Env, archive: map<string, Message>, m: map<string, MemoryRow>, p: Proposal, request: Request,
                  target: Option<MemoryRow>, reason: string, memoryId: string, traceId: string, now: int)
    requires Verified(env, archive, p.identity, request, target)
    requires request.mutation != Remember ==> target.Some? && target.value.memoryId in m && SameGoverned(target.value, m[target.value.memoryId])
    requires p.requestHash == env.requestHash(p.identity)
    requires Authorized(env.policy, request.quote, p, if reason == REVIEWER_APPROVED then ADMIN_INTENT_REVIEW else "", reason)
    ensures var c := BuildCommit(env, request, p.id, p.identity, target, archive[p.identity.messageId], reason, memoryId, traceId);
            && c.proposalId == p.id && Asked(env, archive, m, p, Draft(c, now))
            && (c.targetMemoryId != "" ==> c.targetMemoryId in m && c.expectedTargetVersion == m[c.targetMemoryId].stateVersion)
  {
    hide Authorized, Words;
  }

  lemma PromotedTold(env: Env, archive: map<string, Message>, m: map<string, MemoryRow>, p: Proposal, request: Request,
                     row: MemoryRow, at: int, traceId: string, now: int)
    requires Verified(env, archive, p.identity, request, None) && request.mutation == Remember
    requires row.memoryId in m && SameGoverned(row, m[row.memoryId]) && row.lifecycle == ACTIVE && row.memoryId != ""
    requires p.requestHash == env.requestHash(p.identity)
    requires Authorized(env.policy, request.quote, p, "", "DUPLICATE_PROMOTED")
    ensures var c := PromoteCommit(p.id, p.requestHash, p.identity, row, at, traceId);
            && c.proposalId == p.id && Asked(env, archive, m, p, Draft(c, now))
            && c.targetMemoryId in m && c.expectedTargetVersion == m[c.targetMemoryId].stateVersion
  {
    hide Authorized, Words;
  }

  // A quote that binds is the words cited.
  lemma BoundIsGrounded(env: Env, archive: map<string, Message>, clientKey: string, projectKey: string, request: Request)
    requires request.messageId in archive && Speaks(request, archive[request.messageId])
    requires var said := archive[request.messageId]; Bind(env.sha256, said.content, request.quote).BoundAt?
    ensures var said := archive[request.messageId];
            var i := IdentityFor(env, clientKey, projectKey, request, said, Bind(env.sha256, said.content, request.quote));
            Grounded(env, archive, i) && Words(archive, i) == request.quote
  {
    var said := archive[request.messageId];
    BindsIffUnique(env.sha256, said.content, request.quote, 0);
    hide Bind, FindFrom, Contains;
  }

  lemma SubmitTold(env: Env, s: Sys, request: Request, a: Answers)
    requires Inv(env, s) && Story(env, s) && s.phase.Idle? && FreshIds(s, SubmitStep(request, a))
    ensures Story(env, Submit(env, s, request, a))
  {
    hide Inv, AllTold, Drafted, Bind, Verify, HashTaken, MutationTarget, BuildCommit, PromoteCommit, Records, Memories;
    var after := Submit(env, s, request, a);
    assert after.journal == s.journal && after.archive == s.archive;
    if after.phase.Committing? {
      var said := s.archive[request.messageId];
      var binding := Bind(env.sha256, said.content, request.quote);
      var target := MutationTarget(s.live.memories, request).value;
      var identity := IdentityFor(env, a.clientKey, a.projectKey, request, said, binding);
      var p := Proposal(a.proposalId, env.requestHash(identity), "", "", GateNone, identity, Pending, a.now, None);
      assert after.live.proposals == s.live.proposals[p.id := p];
      AppliesIff(env.policy, request, said, a.currentTurn, target, false);
      BoundIsGrounded(env, s.archive, a.clientKey, a.projectKey, request);
      forall now ensures Drafted(env, s.archive, after.live.proposals, Memories(s.journal), after.phase.commit, now) {
        StartedTold(env, s, request, a, p, target, now);
      }
    }
  }

  lemma StartedTold(env: Env, s: Sys, request: Request, a: Answers, p: Proposal, target: Option<MemoryRow>, now: int)
    requires Inv(env, s) && p.id != "" && p.status == Pending && p.reasonCode == "" && p.gateClass == GateNone
    requires Verified(env, s.archive, p.identity, request, target) && env.policy.hasCue(request.mutation, request.quote)
    requires MutationTarget(s.live.memories, request) == Some(target) && p.requestHash == env.requestHash(p.identity)
    ensures var ps, m := s.live.proposals[p.id := p], Memories(s.journal);
            && Drafted(env, s.archive, ps, m,
                       BuildCommit(env, request, p.id, p.identity, target, s.archive[p.identity.messageId],
                                   "CURRENT_USER_EVIDENCE_VERIFIED", a.memoryId, a.traceId), now)
            && (request.mutation == Remember && a.duplicate in s.live.memories && s.live.memories[a.duplicate].lifecycle == ACTIVE ==>
                  Drafted(env, s.archive, ps, m,
                          PromoteCommit(p.id, p.requestHash, p.identity, s.live.memories[a.duplicate], a.now, a.traceId), now))
  {
    LiveRows(env, s);
    var ps, m := s.live.proposals[p.id := p], Memories(s.journal);
    TargetRow(s.live.memories, m, request);
    hide Inv, Asked, Memories, AllSameGoverned, KeyedById, MutationTarget, Grounded, Words, Worded, BuildCommit, PromoteCommit, Draft,
      SameGoverned, Drafted;
    CueAuthorizes(env.policy, request, p);
    BuiltTold(env, s.archive, m, p, request, target, "CURRENT_USER_EVIDENCE_VERIFIED", a.memoryId, a.traceId, now);
    AskedIsDrafted(env, s.archive, ps, m, p, BuildCommit(env, request, p.id, p.identity, target, s.archive[p.identity.messageId],
                                                         "CURRENT_USER_EVIDENCE_VERIFIED", a.memoryId, a.traceId), now);
    if request.mutation == Remember && a.duplicate in s.live.memories && s.live.memories[a.duplicate].lifecycle == ACTIVE {
      RowIsGoverned(s.live.memories, m, a.duplicate);
      PromotedTold(env, s.archive, m, p, request, s.live.memories[a.duplicate], a.now, a.traceId, now);
      AskedIsDrafted(env, s.archive, ps, m, p,
                     PromoteCommit(p.id, p.requestHash, p.identity, s.live.memories[a.duplicate], a.now, a.traceId), now);
    }
  }

  lemma CueAuthorizes(policy: Policy, request: Request, p: Proposal)
    requires p.gateClass == GateNone && p.reasonCode == "" && p.identity.mutation == request.mutation
    requires policy.hasCue(request.mutation, request.quote)
    ensures Authorized(policy, request.quote, p, "", "CURRENT_USER_EVIDENCE_VERIFIED")
    ensures Authorized(policy, request.quote, p, "", "DUPLICATE_PROMOTED")
  {
  }

  lemma AskedIsDrafted(env: Env, archive: map<string, Message>, ps: map<string, Proposal>, m: map<string, MemoryRow>, p: Proposal,
                       c: Commit, now: int)
    requires c.proposalId == p.id != "" && p.id in ps && ps[p.id] == p && Asked(env, archive, m, p, Draft(c, now))
    requires c.targetMemoryId != "" ==> c.targetMemoryId in m && c.expectedTargetVersion == m[c.targetMemoryId].stateVersion
    ensures Drafted(env, archive, ps, m, c, now)
  {
    hide Asked, Draft;
  }

  lemma TargetRow(memories: map<string, MemoryRow>, m: map<string, MemoryRow>, request: Request)
    requires KeyedById(memories) && AllSameGoverned(memories, m) && MutationTarget(memories, request).Some?
    ensures var t := MutationTarget(memories, request).value;
            if request.mutation == Remember then t.None?
            else t.Some? && t.value.memoryId in m && SameGoverned(t.value, m[t.value.memoryId])
  {
  }

  lemma ApproveTold(env: Env, s: Sys, proposalId: string, memoryId: string, traceId: string)
    requires Inv(env, s) && Story(env, s) && s.phase.Idle?
    ensures Story(env, Approve(env, s, proposalId, memoryId, traceId))
  {
    hide Inv, AllTold, Asked, Draft, Verify, MutationTarget, BuildCommit, Memories;
    var after := Approve(env, s, proposalId, memoryId, traceId);
    assert after.journal == s.journal && after.archive == s.archive && after.live == s.live;
    if after.phase.Committing? {
      var p := s.live.proposals[proposalId];
      var said, q := s.archive[p.identity.messageId], p.identity.evidence.value;
      var request := RequestOf(p.identity, said.content[q.startByte..q.endByte]);
      var target := MutationTarget(s.live.memories, request).value;
      AppliesIff(env.policy, request, said, true, target, true);
      ApprovedProposal(env, s, proposalId);
      LiveRows(env, s);
      TargetRow(s.live.memories, Memories(s.journal), request);
      forall now ensures Drafted(env, s.archive, s.live.proposals, Memories(s.journal), after.phase.commit, now) {
        BuiltTold(env, s.archive, Memories(s.journal), p, request, target, REVIEWER_APPROVED, memoryId, traceId, now);
      }
    }
  }

  lemma ApprovedProposal(env: Env, s: Sys, id: string)
    requires Inv(env, s) && id in s.live.proposals
    ensures var p := s.live.proposals[id];
            p.id == id != "" && (p.identity.evidence.Some? ==> p.requestHash == env.requestHash(p.identity))
  {
    hide JournalOk, LiveOk, DiskOk, ResolvedOk, RecordsOk, PhaseOk, IdentityOk;
    assert ProposalOk(env, s.archive, id, s.live.proposals[id]);
  }

  lemma RetireTold(env: Env, s: Sys, memoryId: string, traceId: string)
    requires Inv(env, s) && Story(env, s) && s.phase.Idle?
    ensures Story(env, Retire(env, s, memoryId, traceId))
  {
    hide Inv, AllTold, Memories, KeyedById, AllSameGoverned;
    LiveRows(env, s);
    if memoryId in s.live.memories {
      RowIsGoverned(s.live.memories, Memories(s.journal), memoryId);
    }
  }

  // ---- every run ----

  // Steps that leave archive, journal, proposals and phase alone.
  lemma QuietTold(env: Env, s: Sys, after: Sys)
    requires Story(env, s)
    requires after.archive == s.archive && after.journal == s.journal
    requires after.phase.Idle? || (after.phase == s.phase && after.live.proposals == s.live.proposals)
    ensures Story(env, after)
  {
  }

  lemma StepTold(env: Env, s: Sys, a: Action)
    requires SoundDigests(env) && Inv(env, s) && Story(env, s)
    ensures Story(env, Step(env, s, a))
  {
    hide Inv, Story, SoundDigests, Submit, Approve, Retire, Finish, RejectProposal, Load, Records;
    if FreshIds(s, a) && LockFree(s, a) && Sized(s, a) {
      match a
      case Archive(id, message) => ArchiveTold(env, s, s.archive[id := message]);
      case SubmitStep(request, answers) => SubmitTold(env, s, request, answers);
      case ApproveStep(proposalId, newId, traceId) => ApproveTold(env, s, proposalId, newId, traceId);
      case RetireStep(memoryId, traceId) => RetireTold(env, s, memoryId, traceId);
      case FinishStep(eventId, now) => FinishTold(env, s, eventId, now);
      case RejectWrite(id, reason, at) =>
        RejectingIsFree(env, s, s.rejecting - {id});
        QuietTold(env, s, s.(rejecting := s.rejecting - {id}));
        RejectTold(env, s.(rejecting := s.rejecting - {id}), id, reason, at);
      case _ => QuietTold(env, s, Step(env, s, a));
    }
  }

  lemma {:induction false} RunTold(env: Env, actions: seq<Action>)
    requires SoundDigests(env)
    ensures Story(env, Run(env, actions))
    decreases |actions|
  {
    hide Inv, SoundDigests, Step;
    if actions != [] {
      hide Story;
      RunKeeps(env, actions[..|actions| - 1]);
      RunTold(env, actions[..|actions| - 1]);
      StepTold(env, Run(env, actions[..|actions| - 1]), actions[|actions| - 1]);
    }
  }

  // In every run, whatever interleaves, crashes or restarts, each event keeps the
  // law with respect to the rows it found and the messages archived.
  lemma EveryEventIsTold(env: Env, actions: seq<Action>, k: nat)
    requires SoundDigests(env) && k < |Run(env, actions).journal|
    ensures var s := Run(env, actions);
            Told(env, s.archive, Memories(s.journal[..k]), s.journal[k])
  {
    hide SoundDigests, Run, Told;
    RunTold(env, actions);
  }

  // A memory that a run's event ended stands in the live store as the event left
  // it: forgotten when its user asked for that, superseded when it was corrected
  // or retired.
  lemma EndedMemories(env: Env, actions: seq<Action>, k: nat)
    requires SoundDigests(env) && k < |Run(env, actions).journal| && Run(env, actions).journal[k].targetLifecycle != ""
    ensures var s := Run(env, actions); var e := s.journal[k];
            && e.targetMemoryId in s.live.memories
            && var row := s.live.memories[e.targetMemoryId];
               && row.lifecycle == (if e.proposalId != "" && e.mutation == Forget then "FORGOTTEN" else "SUPERSEDED")
               && row.updatedAt == e.createdAt && row.stateVersion == e.expectedTargetVersion + 1
               && (e.proposalId != "" && e.mutation == Correct ==> e.newMemory.Some? && e.newMemory.value.supersedes == e.targetMemoryId)
  {
    hide SoundDigests, Run, JournalOk, DiskOk, ProposalsOk, ResolvedOk, RecordsOk, PhaseOk, ReplayMemories, WellFormed,
      Grounded, Authorized, Words, MayChange, RemembersWords, Strengthens;
    EveryEventIsTold(env, actions, k);
    RunKeeps(env, actions);
    var s := Run(env, actions);
    var e := s.journal[k];
    JournalWellFormed(env, s);
    EndsAsItSays(s.journal, k);
    MemoriesKeyed(s.journal);
    var m := Memories(s.journal[..k]);
    WellFormedPrefix(s.journal, k);
    MemoriesKeyed(s.journal[..k]);
    assert SameGoverned(s.live.memories[e.targetMemoryId], Memories(s.journal)[e.targetMemoryId]);
  }

  // The evidence of every event stands in the live store under its memory.
  lemma EvidenceIsKept(env: Env, actions: seq<Action>, k: nat)
    requires SoundDigests(env) && k < |Run(env, actions).journal| && Run(env, actions).journal[k].evidence.memoryId != ""
    ensures var s := Run(env, actions); var e := s.journal[k].evidence;
            && e.memoryId in s.live.evidence
            && exists i :: 0 <= i < |s.live.evidence[e.memoryId]| && StandsFor(s.live.evidence[e.memoryId][i], e)
  {
    hide SoundDigests, Run, JournalOk, DiskOk, ProposalsOk, ResolvedOk, RecordsOk, PhaseOk, ReplayEvidence;
    RunKeeps(env, actions);
    var s := Run(env, actions);
    EvidenceIsRecorded(s.journal, k);
    var rows := EvidenceOf(Evidence(s.journal), s.journal[k].evidence.memoryId);
    var i :| 0 <= i < |rows| && SameEvidence(rows[i], s.journal[k].evidence);
    assert StandsFor(rows[i], s.journal[k].evidence);
  }

  predicate StandsFor(row: EvidenceRow, e: EvidenceRow) {
    row.messageId == e.messageId && row.quoteHash == e.quoteHash && row.relation == e.relation
  }
}
