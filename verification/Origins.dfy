// Where every proposal of every run comes from, and what becomes of a submission.
module Origins {
  import opened Wrappers
  import opened Memory
  import opened Replay
  import opened Convergence
  import opened ProposalRecords
  import opened Quotes
  import opened Gate
  import opened Governance
  import opened GovernanceProof
  import GovernanceTheorems
  import Chronicle

  // ---- every proposal was submitted ----

  // p is what this submission asked for. Only a proposal made without reserve, or
  // held back for its missing cue, is certain to be of the current turn.
  ghost predicate SubmittedAs(env: Env, a: Action, p: Proposal) {
    && a.SubmitStep?
    && var r, i := a.request, p.identity;
       && p.id == a.answers.proposalId && p.createdAt == a.answers.now
       && i.clientKey == a.answers.clientKey && i.sessionId == r.sessionId && i.messageId == r.messageId
       && i.mutation == r.mutation && i.targetMemoryId == r.targetMemoryId && i.proposedKind == r.memoryKind
       && i.scope == r.scope && i.subject == r.subject && i.replacement == r.replacement
       && i.projectKey == (if r.mutation == Remember && r.scope == "PROJECT" then a.answers.projectKey else "")
       && (i.evidence.Some? ==> i.requestEvidenceHash == env.sha256(r.quote))
       && (a.answers.allowOld || a.answers.currentTurn)
       && (p.gateClass == GateNone || p.gateClass == GateIntent ==> a.answers.currentTurn)
  }

  // Its message was and is archived, a user's, of the session of the request.
  ghost predicate OfUser(env: Env, archive: map<string, Message>, p: Proposal) {
    && p.identity.messageId in archive && archive[p.identity.messageId].role == "user"
    && archive[p.identity.messageId].sessionId == p.identity.sessionId
    && p.identity.evidenceContentHash == env.sha256(archive[p.identity.messageId].content)
  }

  ghost predicate Submitted(env: Env, actions: seq<Action>, archive: map<string, Message>, p: Proposal) {
    OfUser(env, archive, p) && exists j :: 0 <= j < |actions| && SubmittedAs(env, actions[j], p)
  }

  ghost predicate AllSubmitted(env: Env, actions: seq<Action>, s: Sys) {
    forall id :: id in s.live.proposals ==> Submitted(env, actions, s.archive, s.live.proposals[id])
  }

  // The same proposal, perhaps settled, perhaps reread from its file.
  ghost predicate Keeps(p: Proposal, q: Proposal) {
    && q.id == p.id && q.createdAt == p.createdAt && q.gateClass == p.gateClass
    && q.identity.(requestEvidenceHash := p.identity.requestEvidenceHash, evidence := p.identity.evidence) == p.identity
    && (q.identity.evidence.Some? ==> q.identity == p.identity)
  }

  lemma KeptIsSubmitted(env: Env, actions: seq<Action>, archive: map<string, Message>, more: map<string, Message>, a: Action,
                        p: Proposal, q: Proposal)
    requires Submitted(env, actions, archive, p) && Keeps(p, q) && ArchiveGrows(archive, more)
    ensures Submitted(env, actions + [a], more, q)
  {
    var j :| 0 <= j < |actions| && SubmittedAs(env, actions[j], p);
    assert (actions + [a])[j] == actions[j] && SubmittedAs(env, actions[j], q);
  }

  lemma SameIsKept(p: Proposal, q: Proposal)
    requires SameProposal(q, Reload(p)) && (p.identity.evidence.Some? ==> Bound(p.identity))
    ensures Keeps(p, q)
  {
  }

  // After any step a proposal was there before, or the step submitted it.
  lemma StepOrigin(env: Env, s: Sys, a: Action, id: string)
    requires SoundDigests(env) && Inv(env, s) && id in Step(env, s, a).live.proposals
    ensures var after := Step(env, s, a);
            && ArchiveGrows(s.archive, after.archive)
            && (if id in s.live.proposals then Keeps(s.live.proposals[id], after.live.proposals[id])
                else SubmittedAs(env, a, after.live.proposals[id]) && OfUser(env, after.archive, after.live.proposals[id]))
  {
    hide Inv, SoundDigests, Submit, Approve, Retire, Finish, RejectProposal, Load, Records;
    if FreshIds(s, a) && LockFree(s, a) && Sized(s, a) {
      match a
      case SubmitStep(request, answers) => SubmitOrigin(env, s, request, answers, id);
      case ApproveStep(proposalId, newId, traceId) => ReviewTouchesOnlyThePhase(env, s, proposalId, newId, traceId);
      case RetireStep(memoryId, traceId) => ReviewTouchesOnlyThePhase(env, s, "", memoryId, traceId);
      case FinishStep(eventId, now) => FinishOrigin(env, s, eventId, now, id);
      case RejectWrite(rejected, reason, at) =>
        if rejected in s.rejecting {
          RejectOrigin(s.(rejecting := s.rejecting - {rejected}), rejected, reason, at, id);
        }
      case Restart => RestartOrigin(env, s, id);
      case _ =>
    }
  }

  lemma SubmitOrigin(env: Env, s: Sys, request: Request, a: Answers, id: string)
    requires FreshIds(s, SubmitStep(request, a)) && id in Submit(env, s, request, a).live.proposals
    ensures var after := Submit(env, s, request, a);
            && after.archive == s.archive
            && (if id in s.live.proposals then after.live.proposals[id] == s.live.proposals[id]
                else SubmittedAs(env, SubmitStep(request, a), after.live.proposals[id]) && OfUser(env, s.archive, after.live.proposals[id]))
  {
    hide Bind, Verify, HashTaken, MutationTarget, BuildCommit, PromoteCommit, Records, Held;
    if request.messageId in s.archive {
      var said := s.archive[request.messageId];
      var binding := Bind(env.sha256, said.content, request.quote);
      BoundHash(env, said.content, request.quote);
      var target := MutationTarget(s.live.memories, request);
      if target.Some? {
        GateOfTheTurn(env.policy, request, said, a.currentTurn, target.value);
      }
    }
  }

  lemma BoundHash(env: Env, content: string, quote: string)
    ensures Bind(env.sha256, content, quote).BoundAt? ==> Bind(env.sha256, content, quote).hash == env.sha256(quote)
  {
    hide FindFrom;
  }

  lemma GateOfTheTurn(policy: Policy, request: Request, said: Message, currentTurn: bool, target: Option<MemoryRow>)
    ensures var d := Verify(policy, request, said, currentTurn, target, false);
            (d.Apply? || d.gate == GateIntent || d.gate == GateNone ==> currentTurn)
  {
    AppliesIff(policy, request, said, currentTurn, target, false);
    HeldForIntentIff(policy, request, said, currentTurn, target);
    hide FailedCheck;
  }

  lemma FinishOrigin(env: Env, s: Sys, eventId: string, now: int, id: string)
    requires Inv(env, s) && id in Finish(s, eventId, now).live.proposals
    ensures Finish(s, eventId, now).archive == s.archive
    ensures id in s.live.proposals && Keeps(s.live.proposals[id], Finish(s, eventId, now).live.proposals[id])
  {
    hide JournalOk, LiveOk, DiskOk, RecordsOk, ResolvedOk, CommitShape, IdentityOk, ApplyMemories, ApplyEvidence, ApplyContinuity;
    if s.phase.Committing? && s.phase.commit.proposalId in s.live.proposals {
      assert ProposalOk(env, s.archive, s.phase.commit.proposalId, s.live.proposals[s.phase.commit.proposalId]);
    }
  }

  lemma RejectOrigin(s: Sys, rejected: string, reason: string, at: int, id: string)
    requires id in RejectProposal(s, rejected, reason, at).live.proposals
    ensures RejectProposal(s, rejected, reason, at).archive == s.archive
    ensures id in s.live.proposals && Keeps(s.live.proposals[id], RejectProposal(s, rejected, reason, at).live.proposals[id])
  {
  }

  lemma RestartOrigin(env: Env, s: Sys, id: string)
    requires Inv(env, s) && id in Load(s.disk, s.journal).proposals
    ensures id in s.live.proposals && Keeps(s.live.proposals[id], Load(s.disk, s.journal).proposals[id])
  {
    hide JournalOk, LiveOk, DiskOk, ResolvedOk, RecordsOk, PhaseOk, ReplayProposals, Reload;
    LoadedProposals(env, s.archive, s.live.proposals, s.disk.proposals, s.journal);
    assert ProposalOk(env, s.archive, id, s.live.proposals[id]);
    assert Restored(env, s.archive, id, s.live.proposals[id], Load(s.disk, s.journal).proposals[id]);
    SameIsKept(s.live.proposals[id], Load(s.disk, s.journal).proposals[id]);
  }

  lemma {:induction false} RunSubmitted(env: Env, actions: seq<Action>)
    requires SoundDigests(env)
    ensures AllSubmitted(env, actions, Run(env, actions))
    decreases |actions|
  {
    hide SoundDigests, Inv, Step, Submitted, SubmittedAs, OfUser, Keeps;
    if actions != [] {
      var front, a := actions[..|actions| - 1], actions[|actions| - 1];
      var s := Run(env, front);
      RunSubmitted(env, front);
      RunKeeps(env, front);
      assert actions == front + [a];
      forall id | id in Step(env, s, a).live.proposals
        ensures Submitted(env, actions, Step(env, s, a).archive, Step(env, s, a).live.proposals[id])
      {
        StepOrigin(env, s, a, id);
        if id in s.live.proposals {
          KeptIsSubmitted(env, front, s.archive, Step(env, s, a).archive, a, s.live.proposals[id], Step(env, s, a).live.proposals[id]);
        } else {
          NowSubmitted(env, front, Step(env, s, a).archive, a, Step(env, s, a).live.proposals[id]);
        }
      }
    }
  }

  lemma NowSubmitted(env: Env, front: seq<Action>, archive: map<string, Message>, a: Action, p: Proposal)
    requires SubmittedAs(env, a, p) && OfUser(env, archive, p)
    ensures Submitted(env, front + [a], archive, p)
  {
    assert (front + [a])[|front|] == a;
  }

  // Every event that resolved a proposal comes from a request made while its
  // message was the user's current turn, however long ago, and whoever approved.
  lemma EventsComeFromTheCurrentTurn(env: Env, actions: seq<Action>, k: nat)
    requires SoundDigests(env) && k < |Run(env, actions).journal| && Run(env, actions).journal[k].proposalId != ""
    ensures var e := Run(env, actions).journal[k];
            e.proposal.Some? && exists j :: 0 <= j < |actions| && SubmittedAs(env, actions[j], e.proposal.value)
                                            && actions[j].answers.currentTurn
  {
    hide SoundDigests, Run, JournalOk, LiveOk, DiskOk, ProposalsOk, RecordsOk, PhaseOk;
    RunKeeps(env, actions);
    RunSubmitted(env, actions);
    Chronicle.EveryEventIsTold(env, actions, k);
    var s := Run(env, actions);
    var e := s.journal[k];
    assert ResolvedInMemory(s.live.proposals, e);
    var p, q := s.live.proposals[e.proposalId], e.proposal.value;
    assert Submitted(env, actions, s.archive, p);
    var j :| 0 <= j < |actions| && SubmittedAs(env, actions[j], p);
    assert SubmittedAs(env, actions[j], q);
  }

  // ---- what becomes of a request ----

  // A request names a memory that can be changed, or none is needed.
  predicate HasTarget(memories: map<string, MemoryRow>, request: Request) {
    request.mutation != Remember ==>
      request.targetMemoryId in memories && memories[request.targetMemoryId].lifecycle == "ACTIVE"
      && memories[request.targetMemoryId].sensitivity == "NORMAL"
  }

  function TargetOf(memories: map<string, MemoryRow>, request: Request): Option<MemoryRow> {
    if request.mutation == Remember || request.targetMemoryId !in memories then None else Some(memories[request.targetMemoryId])
  }

  // The server takes a request up: it cites a user's message of its session, of
  // the current turn or with leave to be older, and nobody made it before.
  predicate Receivable(env: Env, s: Sys, request: Request, a: Answers) {
    && request.messageId in s.archive
    && var said := s.archive[request.messageId];
       && said.sessionId == request.sessionId && said.role == "user" && (a.allowOld || a.currentTurn)
       && HasTarget(s.live.memories, request)
       && var hash := env.requestHash(
            IdentityFor(env, a.clientKey, a.projectKey, request, said, Bind(env.sha256, said.content, request.quote)));
          forall id :: id in s.live.proposals ==> s.live.proposals[id].requestHash != hash
  }

  // It passes every check and its quote names one place.
  ghost predicate Applicable(env: Env, s: Sys, request: Request, currentTurn: bool, reviewed: bool)
    requires request.messageId in s.archive
  {
    var said, target := s.archive[request.messageId], TargetOf(s.live.memories, request);
    && (forall c: Check :: Passes(c, env.policy, request, said, currentTurn, target, reviewed))
    && exists i :: OccursOnlyAt(said.content, request.quote, i)
  }

  lemma TargetFound(memories: map<string, MemoryRow>, request: Request)
    ensures MutationTarget(memories, request) ==
            if HasTarget(memories, request) then Some(TargetOf(memories, request)) else None
  {
  }

  lemma TakenIff(proposals: map<string, Proposal>, hash: string)
    ensures HashTaken(proposals, hash) <==> exists id :: id in proposals && proposals[id].requestHash == hash
  {
  }

  lemma BindsIff(env: Env, content: string, quote: string)
    ensures Bind(env.sha256, content, quote).BoundAt? <==> quote != "" && exists i :: OccursOnlyAt(content, quote, i)
  {
    BindsIffUnique(env.sha256, content, quote, 0);
    if Bind(env.sha256, content, quote).BoundAt? {
      assert OccursOnlyAt(content, quote, Bind(env.sha256, content, quote).startByte);
      assert quote != "";
    }
    if quote != "" && exists i :: OccursOnlyAt(content, quote, i) {
      var i :| OccursOnlyAt(content, quote, i);
      BindsIffUnique(env.sha256, content, quote, i);
    }
  }

  // Why a proposal waits: its quote is missing or ambiguous, or it is held by the
  // first check it fails.
  ghost predicate HeldFor(env: Env, s: Sys, request: Request, a: Answers, gate: GateClass, reason: string)
    requires request.messageId in s.archive
  {
    var said, target := s.archive[request.messageId], TargetOf(s.live.memories, request);
    if request.quote == "" || !Contains(said.content, request.quote) then
      gate == GateStructural && reason == "EXACT_EVIDENCE_QUOTE_REQUIRED"
    else if !(exists i :: OccursOnlyAt(said.content, request.quote, i)) then
      gate == GateStructural && reason == "EVIDENCE_AMBIGUOUS"
    else exists c ::
      FailsFirst(c, env.policy, request, said, a.currentTurn, target, false) && Held(c) == Stage(gate, reason)
  }

  lemma UnboundReason(env: Env, content: string, quote: string)
    ensures var b := Bind(env.sha256, content, quote);
            b.NotBound? ==>
              b.reason == if quote == "" || !Contains(content, quote) then "EXACT_EVIDENCE_QUOTE_REQUIRED" else "EVIDENCE_AMBIGUOUS"
  {
    var first := FindFrom(content, quote, 0);
    if first.Some? {
      assert OccursAt(content, quote, first.value);
    }
  }

  lemma OnlyIsContained(content: string, quote: string)
    ensures (exists i :: OccursOnlyAt(content, quote, i)) ==> Contains(content, quote)
  {
  }

  lemma ApplicableIsQuoted(env: Env, s: Sys, request: Request, currentTurn: bool, reviewed: bool)
    requires request.messageId in s.archive && Applicable(env, s, request, currentTurn, reviewed)
    ensures request.quote != ""
  {
    hide OccursOnlyAt, Contains;
    assert Passes(Quoted, env.policy, request, s.archive[request.messageId], currentTurn, TargetOf(s.live.memories, request), reviewed);
  }

  // What a submission comes to: nothing, a proposal that waits for the reason
  // given, or a commit that its checks let through at once.
  lemma SubmitOutcome(env: Env, s: Sys, request: Request, a: Answers)
    requires Inv(env, s) && s.phase.Idle? && FreshIds(s, SubmitStep(request, a))
    ensures var after := Submit(env, s, request, a);
            if !Receivable(env, s, request, a) then after == s
            else if Applicable(env, s, request, a.currentTurn, false) then
              after.phase.Committing? && Committable(after.live, after.phase.commit)
            else
              && after.phase.Idle? && a.proposalId in after.live.proposals
              && var p := after.live.proposals[a.proposalId];
                 p.status == Pending && HeldFor(env, s, request, a, p.gateClass, p.reasonCode)
  {
    hide Inv, Submit, Receivable, Applicable, HeldFor, Committable;
    if !Receivable(env, s, request, a) {
      NotReceived(env, s, request, a);
    } else {
      ReceivedIs(env, s, request);
      if Applicable(env, s, request, a.currentTurn, false) {
        AppliedOutcome(env, s, request, a);
      } else {
        StagedOutcome(env, s, request, a);
      }
    }
  }

  lemma ReceivedIs(env: Env, s: Sys, request: Request)
    ensures forall a :: Receivable(env, s, request, a) ==> request.messageId in s.archive
  {
  }

  lemma NotReceived(env: Env, s: Sys, request: Request, a: Answers)
    requires !Receivable(env, s, request, a)
    ensures Submit(env, s, request, a) == s
  {
    hide Bind, Verify, HashTaken, MutationTarget, BuildCommit, PromoteCommit, StageProposal;
    TargetFound(s.live.memories, request);
    if request.messageId in s.archive {
      var said := s.archive[request.messageId];
      TakenIff(s.live.proposals, env.requestHash(
        IdentityFor(env, a.clientKey, a.projectKey, request, said, Bind(env.sha256, said.content, request.quote))));
    }
  }

  // What a request that is taken up meets before it is verified.
  lemma ReceivedFacts(env: Env, s: Sys, request: Request, a: Answers)
    requires Receivable(env, s, request, a)
    ensures var said := s.archive[request.messageId];
            var binding := Bind(env.sha256, said.content, request.quote);
            && said.sessionId == request.sessionId && said.role == USER && (a.allowOld || a.currentTurn)
            && MutationTarget(s.live.memories, request) == Some(TargetOf(s.live.memories, request))
            && HasTarget(s.live.memories, request)
            && !HashTaken(s.live.proposals, env.requestHash(IdentityFor(env, a.clientKey, a.projectKey, request, said, binding)))
  {
    hide Bind, MutationTarget, IdentityFor, TargetOf;
    TargetFound(s.live.memories, request);
    var said := s.archive[request.messageId];
    TakenIff(s.live.proposals, env.requestHash(
      IdentityFor(env, a.clientKey, a.projectKey, request, said, Bind(env.sha256, said.content, request.quote))));
  }

  lemma AppliedOutcome(env: Env, s: Sys, request: Request, a: Answers)
    requires Inv(env, s) && s.phase.Idle? && FreshIds(s, SubmitStep(request, a))
    requires Receivable(env, s, request, a) && Applicable(env, s, request, a.currentTurn, false)
    ensures var after := Submit(env, s, request, a);
            after.phase.Committing? && Committable(after.live, after.phase.commit)
  {
    ReceivedFacts(env, s, request, a);
    hide Inv, Submit, Bind, Verify, Passes, OccursOnlyAt, BuildCommit, PromoteCommit, Committable, Receivable, TargetOf, HashTaken,
      MutationTarget;
    var said, target := s.archive[request.messageId], TargetOf(s.live.memories, request);
    BindsIff(env, said.content, request.quote);
    ApplicableIsQuoted(env, s, request, a.currentTurn, false);
    VerifyIs(env.policy, request, said, a.currentTurn, target, false);
    hide Applicable;
    StartedPasses(env, s, request, a, IdentityFor(env, a.clientKey, a.projectKey, request, said, Bind(env.sha256, said.content, request.quote)));
    StartsOneOfTwo(env, s, request, a, target);
  }

  // What a request that binds and applies leaves.
  lemma StartsOneOfTwo(env: Env, s: Sys, request: Request, a: Answers, target: Option<MemoryRow>)
    requires FreshIds(s, SubmitStep(request, a)) && request.messageId in s.archive
    requires var said := s.archive[request.messageId];
             var binding := Bind(env.sha256, said.content, request.quote);
             && said.sessionId == request.sessionId && said.role == USER && (a.allowOld || a.currentTurn)
             && MutationTarget(s.live.memories, request) == Some(target) && binding.BoundAt?
             && !HashTaken(s.live.proposals, env.requestHash(IdentityFor(env, a.clientKey, a.projectKey, request, said, binding)))
             && Verify(env.policy, request, said, a.currentTurn, target, false) == Apply
    requires request.mutation != Remember ==> target.Some?
    ensures var said := s.archive[request.messageId];
            var identity := IdentityFor(env, a.clientKey, a.projectKey, request, said, Bind(env.sha256, said.content, request.quote));
            var p := Proposal(a.proposalId, env.requestHash(identity), "", "", GateNone, identity, Pending, a.now, None);
            var after := Submit(env, s, request, a);
            && after.phase.Committing? && after.live == WithProposal(s.live, p)
            && after.phase.commit ==
               if request.mutation == Remember && a.duplicate in s.live.memories && s.live.memories[a.duplicate].lifecycle == ACTIVE
               then PromoteCommit(p.id, p.requestHash, identity, s.live.memories[a.duplicate], a.now, a.traceId)
               else BuildCommit(env, request, p.id, identity, target, said, "CURRENT_USER_EVIDENCE_VERIFIED", a.memoryId, a.traceId)
  {
    hide Bind, Verify, HashTaken, MutationTarget, Records, BuildCommit, PromoteCommit;
  }

  lemma StagedOutcome(env: Env, s: Sys, request: Request, a: Answers)
    requires s.phase.Idle?
    requires Receivable(env, s, request, a) && !Applicable(env, s, request, a.currentTurn, false)
    ensures var after := Submit(env, s, request, a);
            && after.phase.Idle? && a.proposalId in after.live.proposals
            && var p := after.live.proposals[a.proposalId];
               p.status == Pending && HeldFor(env, s, request, a, p.gateClass, p.reasonCode)
  {
    ReceivedFacts(env, s, request, a);
    hide Bind, Verify, FailsFirst, HashTaken, MutationTarget, Records, Held, Passes, Contains, OccursOnlyAt, BuildCommit, PromoteCommit,
      Receivable, TargetOf;
    var said, target := s.archive[request.messageId], TargetOf(s.live.memories, request);
    BindsIff(env, said.content, request.quote);
    UnboundReason(env, said.content, request.quote);
    OnlyIsContained(said.content, request.quote);
    VerifyIs(env.policy, request, said, a.currentTurn, target, false);
  }

  // Both commits a submission can start pass their checks.
  lemma StartedPasses(env: Env, s: Sys, request: Request, a: Answers, identity: Identity)
    requires Inv(env, s) && FreshIds(s, SubmitStep(request, a)) && identity.evidence.Some?
    requires HasTarget(s.live.memories, request) && request.messageId in s.archive
    ensures var p := Proposal(a.proposalId, env.requestHash(identity), "", "", GateNone, identity, Pending, a.now, None);
            var live := WithProposal(s.live, p);
            && Committable(live, BuildCommit(env, request, p.id, identity, TargetOf(s.live.memories, request),
                                             s.archive[request.messageId], "CURRENT_USER_EVIDENCE_VERIFIED", a.memoryId, a.traceId))
            && (a.duplicate in s.live.memories && s.live.memories[a.duplicate].lifecycle == ACTIVE ==>
                  Committable(live, PromoteCommit(p.id, p.requestHash, identity, s.live.memories[a.duplicate], a.now, a.traceId)))
  {
    LiveRows(env, s);
    hide Inv, AllSameGoverned, BuildCommit, PromoteCommit, Committable, KeyedById;
    var p := Proposal(a.proposalId, env.requestHash(identity), "", "", GateNone, identity, Pending, a.now, None);
    BuiltPasses(env, WithProposal(s.live, p), request, p, s.archive[request.messageId], a.memoryId, a.traceId);
    if a.duplicate in s.live.memories && s.live.memories[a.duplicate].lifecycle == ACTIVE {
      PromotedPasses(WithProposal(s.live, p), p, a.duplicate, a.now, a.traceId);
    }
  }

  lemma BuiltPasses(env: Env, live: Live, request: Request, p: Proposal, said: Message, memoryId: string, traceId: string)
    requires KeyedById(live.memories) && memoryId !in live.memories && HasTarget(live.memories, request)
    requires p.id != "" && p.id in live.proposals && live.proposals[p.id] == p && p.status == Pending
    requires p.identity.evidence.Some? && p.requestHash == env.requestHash(p.identity)
    ensures Committable(live, BuildCommit(env, request, p.id, p.identity, TargetOf(live.memories, request), said,
                                          "CURRENT_USER_EVIDENCE_VERIFIED", memoryId, traceId))
  {
    if request.mutation != Remember {
      RowHasId(live.memories, request.targetMemoryId);
    }
    hide KeyedById;
  }

  lemma PromotedPasses(live: Live, p: Proposal, id: string, now: int, traceId: string)
    requires KeyedById(live.memories) && id in live.memories && live.memories[id].lifecycle == ACTIVE
    requires p.id != "" && p.id in live.proposals && live.proposals[p.id] == p && p.status == Pending
    requires p.identity.evidence.Some?
    ensures Committable(live, PromoteCommit(p.id, p.requestHash, p.identity, live.memories[id], now, traceId))
  {
    RowHasId(live.memories, id);
    hide KeyedById;
  }

  // What makes a commit fail before anything is written: a proposal that is not
  // the pending one it was made for, or no proposal and no right to do without;
  // a new id that is taken; an update of another memory than the target; a target
  // that is gone, inactive or at another version.
  lemma CommitFailsIff(live: Live, c: Commit)
    ensures !Committable(live, c) <==>
            || (c.proposalId != "" && c.proposalId !in live.proposals)
            || (c.proposalId != "" && live.proposals[c.proposalId].status != Pending)
            || (c.proposalId != "" && live.proposals[c.proposalId].requestHash != c.requestHash)
            || (c.proposalId == "" && (c.reviewAuthorization != "ADMIN_RETIRE" || c.requestHash == ""))
            || (c.newMemory.Some? && c.newMemory.value.memoryId in live.memories)
            || (c.updatedMemory.Some? && (c.targetMemoryId == "" || c.updatedMemory.value.memoryId != c.targetMemoryId))
            || (c.targetMemoryId != "" && c.targetMemoryId !in live.memories)
            || (c.targetMemoryId != "" && live.memories[c.targetMemoryId].lifecycle != "ACTIVE")
            || (c.targetMemoryId != "" && live.memories[c.targetMemoryId].stateVersion != c.expectedTargetVersion)
  {
  }

  // What the commit step does: the event and its effect, or, when the checks
  // fail, nothing but the rejection an automatic apply asks for.
  lemma FinishOutcome(s: Sys, eventId: string, now: int)
    requires s.phase.Committing?
    ensures var c, after := s.phase.commit, Finish(s, eventId, now);
            && after.phase.Idle? && after.archive == s.archive
            && (if Committable(s.live, c) then
                  |after.journal| == |s.journal| + 1 && after.journal[..|s.journal|] == s.journal && after.disk == s.disk
                  && (c.proposalId != "" ==> after.journal[|s.journal|].proposal == Some(s.live.proposals[c.proposalId]))
                else
                  && after.journal == s.journal && after.live.memories == s.live.memories && after.live.evidence == s.live.evidence
                  && after.live.continuity == s.live.continuity
                  && (s.phase.rejectOnFailure && c.proposalId in s.live.proposals ==>
                        c.proposalId in after.live.proposals && after.live.proposals[c.proposalId].status == Rejected
                        && after.live.proposals[c.proposalId].reasonCode == "COMMIT_FAILED_PRE_EVENT")
                  && (!s.phase.rejectOnFailure ==> after.live.proposals == s.live.proposals))
  {
    hide ApplyEvent;
  }

  // An approval starts a commit exactly for a pending proposal held back for its
  // cue alone whose evidence is unchanged and passes every other check; the
  // commit passes its own.
  lemma ApproveOutcome(env: Env, s: Sys, proposalId: string, memoryId: string, traceId: string)
    requires Inv(env, s) && s.phase.Idle? && FreshIds(s, ApproveStep(proposalId, memoryId, traceId))
    ensures var after := Approve(env, s, proposalId, memoryId, traceId);
            && (after.phase.Committing? <==> Approvable(env, s, proposalId))
            && (after.phase.Committing? ==> Committable(after.live, after.phase.commit))
            && after.(phase := Idle) == s
  {
    hide Inv, Verify, FailsFirst, Bind, Passes, Held, MutationTarget, Contains;
    if proposalId in s.live.proposals {
      LiveRows(env, s);
      Chronicle.ApprovedProposal(env, s, proposalId);
      var p := s.live.proposals[proposalId];
      if p.identity.messageId in s.archive && p.identity.evidence.Some? {
        var said, q := s.archive[p.identity.messageId], p.identity.evidence.value;
        if 0 <= q.startByte < q.endByte <= |said.content| {
          var request := RequestOf(p.identity, said.content[q.startByte..q.endByte]);
          TargetFound(s.live.memories, request);
          VerifyIs(env.policy, request, said, true, TargetOf(s.live.memories, request), true);
        }
      }
    }
  }

  ghost predicate Approvable(env: Env, s: Sys, proposalId: string) {
    && proposalId in s.live.proposals
    && var p := s.live.proposals[proposalId]; var i := p.identity;
       && p.status == Pending && p.gateClass == GateIntent && p.reasonCode == "EXPLICIT_INTENT_NOT_VERIFIED"
       && i.messageId in s.archive && s.archive[i.messageId].sessionId == i.sessionId && i.evidence.Some?
       && var said, q := s.archive[i.messageId], i.evidence.value;
          && i.evidenceContentHash == env.sha256(said.content) != ""
          && 0 <= q.startByte < q.endByte <= |said.content|
          && var words := said.content[q.startByte..q.endByte];
             && env.policy.validText(words) && q.hash == env.sha256(words) == i.requestEvidenceHash
             && var request := RequestOf(i, words);
                HasTarget(s.live.memories, request)
                && forall c: Check :: Passes(c, env.policy, request, said, true, TargetOf(s.live.memories, request), true)
  }

  // A retirement starts a commit exactly for an active memory.
  lemma RetireOutcome(env: Env, s: Sys, memoryId: string, traceId: string)
    requires SoundDigests(env) && Inv(env, s) && s.phase.Idle?
    ensures var after := Retire(env, s, memoryId, traceId);
            && (after.phase.Committing? <==> memoryId in s.live.memories && s.live.memories[memoryId].lifecycle == "ACTIVE")
            && (after.phase.Committing? ==> Committable(after.live, after.phase.commit) && after.phase.commit.targetMemoryId == memoryId)
            && after.(phase := Idle) == s
  {
    hide Inv;
    LiveRows(env, s);
    if memoryId in s.live.memories {
      RowHasId(s.live.memories, memoryId);
    }
  }

  lemma RowHasId(memories: map<string, MemoryRow>, id: string)
    requires KeyedById(memories) && id in memories
    ensures memories[id].memoryId == id != ""
  {
  }

  // ---- rejections ----

  // Only what was pending when the handler looked is ever on its way to being
  // rejected.
  lemma {:induction false} RejectingWasPending(env: Env, actions: seq<Action>, id: string)
    requires id in Run(env, actions).rejecting
    ensures exists n :: 0 <= n < |actions| && actions[n] == RejectCheck(id) && PendingAt(env, actions, n, id)
    decreases |actions|
  {
    hide Submit, Approve, Retire, Finish, RejectProposal, Load;
    var front, a := actions[..|actions| - 1], actions[|actions| - 1];
    var s := Run(env, front);
    RejectingStep(env, s, a, id);
    if id in s.rejecting {
      RejectingWasPending(env, front, id);
      var n :| 0 <= n < |front| && front[n] == RejectCheck(id) && PendingAt(env, front, n, id);
      assert front[..n] == actions[..n];
      assert actions[n] == RejectCheck(id) && PendingAt(env, actions, n, id);
    } else {
      assert actions[..|actions| - 1] == front && PendingAt(env, actions, |actions| - 1, id);
    }
  }

  ghost predicate PendingAt(env: Env, actions: seq<Action>, n: nat, id: string)
    requires n <= |actions|
  {
    var ps := Run(env, actions[..n]).live.proposals;
    id in ps && ps[id].status == Pending
  }

  lemma RejectingStep(env: Env, s: Sys, a: Action, id: string)
    requires id in Step(env, s, a).rejecting
    ensures id in s.rejecting || (a == RejectCheck(id) && id in s.live.proposals && s.live.proposals[id].status == Pending)
  {
    hide Verify, Bind, MutationTarget, HashTaken, BuildCommit, PromoteCommit, RetireCommit, Load, Committable, EventFor, Records;
  }
}
