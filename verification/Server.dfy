// The request flows as the server runs them, call by call on the store, each
// shown to be the machine's steps.
module Server {
  import opened Wrappers
  import opened Memory
  import opened Replay
  import opened ProposalRecords
  import opened Quotes
  import opened Gate
  import G = Governance
  import opened Governance
  import opened GovernanceProof
  import opened Store

  // The state a flow ends in: the machine's, with the first few projection files
  // rewritten (all of them unless the process died on the way).
  ghost predicate Reaches(after: Sys, goal: Sys) {
    exists n :: 0 <= n <= 4 && after == goal.(disk := Projected(goal.disk, goal.live, n))
  }

  lemma ReachesItself(s: Sys)
    ensures Reaches(s, s)
  {
    assert s == s.(disk := Projected(s.disk, s.live, 0));
  }

  // A death between two of the file rewrites keeps the protocol's invariant.
  lemma ReachesKeeps(env: Env, goal: Sys, after: Sys)
    requires Inv(env, goal) && Reaches(after, goal)
    ensures Inv(env, after)
  {
    hide Inv, Records;
    ProjectionIsASequenceOfFlushes(env, goal);
    var n :| 0 <= n <= 4 && after == goal.(disk := Projected(goal.disk, goal.live, n));
    var one, two := Step(env, goal, FlushMemories), Step(env, Step(env, goal, FlushMemories), FlushProposals);
    var three := Step(env, two, FlushEvidence);
    FlushKeeps(env, goal);
    FlushKeeps(env, one);
    FlushKeeps(env, two);
    FlushKeeps(env, three);
    assert after == goal || after == one || after == two || after == three || after == Step(env, three, FlushContinuity);
  }

  lemma StartingLeavesTheLog(env: Env, s: Sys, request: Request, a: Answers)
    ensures Submit(env, s, request, a).live.continuity == s.live.continuity
  {
    hide Verify, Bind, MutationTarget, HashTaken, BuildCommit, PromoteCommit, IdentityFor, Records;
  }

  lemma ApplyKeepsInv(env: Env, s: Sys, request: Request, a: Answers, eventId: string, now: int, after: Sys)
    requires SoundDigests(env) && Inv(env, s) && s.phase.Idle?
    requires FreshIds(s, SubmitStep(request, a)) && !Logged(s.live.continuity, eventId)
    requires Reaches(after, Finish(Submit(env, s, request, a), eventId, now))
    ensures Inv(env, after)
  {
    hide SoundDigests, Inv, Submit, Finish, Reaches, Logged;
    SubmitKeeps(env, s, request, a);
    StartingLeavesTheLog(env, s, request, a);
    FinishKeeps(env, Submit(env, s, request, a), eventId, now);
    ReachesKeeps(env, Finish(Submit(env, s, request, a), eventId, now), after);
  }

  lemma ApproveKeepsInv(env: Env, s: Sys, proposalId: string, memoryId: string, traceId: string, eventId: string, now: int, after: Sys)
    requires SoundDigests(env) && Inv(env, s) && s.phase.Idle?
    requires memoryId != "" && !Logged(s.live.continuity, eventId)
    requires Reaches(after, Finish(Approve(env, s, proposalId, memoryId, traceId), eventId, now))
    ensures Inv(env, after)
  {
    hide SoundDigests, Inv, Approve, Finish, Reaches, Logged;
    ApproveKeeps(env, s, proposalId, memoryId, traceId);
    ReviewTouchesOnlyThePhase(env, s, proposalId, memoryId, traceId);
    FinishKeeps(env, Approve(env, s, proposalId, memoryId, traceId), eventId, now);
    ReachesKeeps(env, Finish(Approve(env, s, proposalId, memoryId, traceId), eventId, now), after);
  }

  lemma RetireKeepsInv(env: Env, s: Sys, memoryId: string, traceId: string, eventId: string, now: int, after: Sys)
    requires SoundDigests(env) && Inv(env, s) && s.phase.Idle? && Sized(s, RetireStep(memoryId, traceId))
    requires !Logged(s.live.continuity, eventId)
    requires Reaches(after, Finish(Retire(env, s, memoryId, traceId), eventId, now))
    ensures Inv(env, after)
  {
    hide SoundDigests, Inv, Retire, Finish, Reaches, Logged;
    RetireKeeps(env, s, memoryId, traceId);
    ReviewTouchesOnlyThePhase(env, s, "", memoryId, traceId);
    FinishKeeps(env, Retire(env, s, memoryId, traceId), eventId, now);
    ReachesKeeps(env, Finish(Retire(env, s, memoryId, traceId), eventId, now), after);
  }

  class Server {
    const env: Env
    const store: Store
    var archive: map<string, Message>

    constructor (env: Env, store: Store, archive: map<string, Message>)
      requires store.Valid() && forall i :: env.requestHash(i) != ""
      ensures Valid() && this.env == env && this.store == store && Machine() == store.Machine().(archive := archive)
    {
      this.env, this.store, this.archive := env, store, archive;
    }

    ghost function Machine(): Sys
      reads this, store
    {
      store.Machine().(archive := archive)
    }

    ghost predicate Valid()
      reads this, store
    {
      store.Valid() && forall i :: env.requestHash(i) != ""
    }

    // The store is in a state the protocol can reach.
    ghost predicate InProtocol()
      reads this, store
    {
      SoundDigests(env) && Inv(env, Machine())
    }

    // CommitMutation, and the rejection when nothing was committed.
    method Commit(c: G.Commit, rejectOnFailure: bool, eventId: string, now: int) returns (revision: Option<int>)
      requires Valid()
      modifies store
      ensures Valid()
      ensures Reaches(Machine(), Finish(old(Machine()).(phase := Committing(c, rejectOnFailure)), eventId, now))
      ensures revision.Some? <==> Committable(old(store.Contents()), c)
    {
      hide Committable, ApplyEvent, EventFor, Projected, HashIndex;
      ghost var before := Machine();
      revision := store.CommitMutation(c, eventId, now);
      if revision.None? {
        if rejectOnFailure {
          var found := store.RejectProposal(c.proposalId, "COMMIT_FAILED_PRE_EVENT", now);
        }
        ReachesItself(Machine());
      } else {
        ghost var goal := AppendAndApply(before, EventFor(before.live, c, eventId, now));
        ghost var n :| 0 <= n <= 4 && store.disk == Projected(before.disk, store.Contents(), n);
        assert Machine() == goal.(disk := Projected(goal.disk, goal.live, n));
      }
    }

    method FindTarget(request: Request) returns (target: Option<Option<MemoryRow>>)
      ensures target == MutationTarget(store.memories, request)
    {
      if request.mutation == Remember {
        return Some(None);
      }
      if request.targetMemoryId !in store.memories {
        return None;
      }
      var row := store.memories[request.targetMemoryId];
      if row.lifecycle != ACTIVE || row.sensitivity != NORMAL {
        return None;
      }
      target := Some(Some(row));
    }

    // applyMutationInternal.
    method ApplyMutation(request: Request, a: Answers, eventId: string, now: int)
      requires Valid() && a.proposalId !in store.proposals
      modifies store
      ensures Valid()
      ensures Reaches(Machine(), Finish(Submit(env, old(Machine()), request, a), eventId, now))
      ensures old(InProtocol() && FreshIds(Machine(), SubmitStep(request, a)) && !Logged(store.continuity, eventId)) ==> InProtocol()
    {
      hide Submit, Finish, Inv, SoundDigests, HashIndex, Reaches, Logged, FreshIds;
      ghost var before := Machine();
      ServeMutation(request, a, eventId, now);
      if SoundDigests(env) && Inv(env, before) && FreshIds(before, SubmitStep(request, a)) && !Logged(before.live.continuity, eventId) {
        ApplyKeepsInv(env, before, request, a, eventId, now, Machine());
      }
    }

    method ServeMutation(request: Request, a: Answers, eventId: string, now: int)
      requires Valid() && a.proposalId !in store.proposals
      modifies store
      ensures Valid()
      ensures Reaches(Machine(), Finish(Submit(env, old(Machine()), request, a), eventId, now))
    {
      hide Verify, Bind, MutationTarget, HashTaken, BuildCommit, PromoteCommit, IdentityFor, HashIndex, Reaches;
      ghost var before := Machine();
      ReachesItself(before);
      if request.messageId !in archive || archive[request.messageId].sessionId != request.sessionId {
        return;
      }
      var evidence := archive[request.messageId];
      if evidence.role != USER || (!a.allowOld && !a.currentTurn) {
        return;
      }
      var binding := BindExactQuote(env.sha256, evidence.content, request.quote);
      var target := FindTarget(request);
      if target.None? {
        return;
      }
      var identity := IdentityFor(env, a.clientKey, a.projectKey, request, evidence, binding);
      IdentityIsBound(identity, request, evidence, a, binding);
      var hash := env.requestHash(identity);
      var existing := store.FindProposalByHash(hash);
      if existing.Some? {
        return;
      }
      var proposal := Proposal(a.proposalId, hash, "", "", GateNone, identity, Pending, 0, None);
      if binding.NotBound? {
        Stage(proposal.(gateClass := GateStructural), binding.reason, a.now);
        return;
      }
      var decision := Verify(env.policy, request, evidence, a.currentTurn, target.value, false);
      if decision.Stage? {
        Stage(proposal.(gateClass := decision.gate), decision.reason, a.now);
        return;
      }
      if request.mutation == Remember && a.duplicate in store.memories && store.memories[a.duplicate].lifecycle == ACTIVE {
        var row := store.memories[a.duplicate];
        Stage(proposal, "", a.now);
        var revision := Commit(PromoteCommit(a.proposalId, hash, identity, row, a.now, a.traceId), false, eventId, now);
        return;
      }
      Stage(proposal, "", a.now);
      TargetGiven(before.live.memories, request);
      var commit := BuildCommit(env, request, a.proposalId, identity, target.value, evidence,
                                "CURRENT_USER_EVIDENCE_VERIFIED", a.memoryId, a.traceId);
      var revision := Commit(commit, true, eventId, now);
    }

    method Stage(p: Proposal, reason: string, now: int)
      requires Valid() && p.id !in store.proposals
      modifies store
      ensures Valid() && Machine() == G.StageProposal(old(Machine()), p, reason, now)
      ensures Machine().phase == Idle && Reaches(Machine(), Finish(Machine(), "", 0))
      ensures store.memories == old(store.memories)
    {
      hide HashIndex;
      store.StageProposal(p, reason, now);
      ReachesItself(Machine());
    }

    lemma IdentityIsBound(identity: Identity, request: Request, evidence: Message, a: Answers, binding: Binding)
      requires identity == IdentityFor(env, a.clientKey, a.projectKey, request, evidence, binding)
      ensures identity.evidence.Some? == binding.BoundAt?
    {
    }

    // adminApproveProposal.
    method ApproveProposal(proposalId: string, memoryId: string, traceId: string, eventId: string, now: int)
      requires Valid()
      modifies store
      ensures Valid()
      ensures Reaches(Machine(), Finish(Approve(env, old(Machine()), proposalId, memoryId, traceId), eventId, now))
      ensures old(InProtocol() && memoryId != "" && !Logged(store.continuity, eventId)) ==> InProtocol()
    {
      hide Approve, Finish, Inv, SoundDigests, HashIndex, Reaches, Logged;
      ghost var before := Machine();
      ServeApproval(proposalId, memoryId, traceId, eventId, now);
      if SoundDigests(env) && Inv(env, before) && memoryId != "" && !Logged(before.live.continuity, eventId) {
        ApproveKeepsInv(env, before, proposalId, memoryId, traceId, eventId, now, Machine());
      }
    }

    method ServeApproval(proposalId: string, memoryId: string, traceId: string, eventId: string, now: int)
      requires Valid()
      modifies store
      ensures Valid()
      ensures Reaches(Machine(), Finish(Approve(env, old(Machine()), proposalId, memoryId, traceId), eventId, now))
    {
      hide Verify, MutationTarget, BuildCommit, HashIndex, Reaches, RequestOf;
      ReachesItself(Machine());
      if proposalId !in store.proposals {
        return;
      }
      var p := store.proposals[proposalId];
      if p.status != Pending {
        return;
      }
      if p.gateClass != GateIntent || p.reasonCode != INTENT_UNVERIFIED {
        return;
      }
      if p.identity.messageId !in archive || archive[p.identity.messageId].sessionId != p.identity.sessionId
         || p.identity.evidence.None? {
        return;
      }
      var evidence, ref := archive[p.identity.messageId], p.identity.evidence.value;
      if p.identity.evidenceContentHash == "" || env.sha256(evidence.content) != p.identity.evidenceContentHash {
        return;
      }
      if ref.startByte < 0 || ref.endByte > |evidence.content| || ref.startByte >= ref.endByte {
        return;
      }
      var quote := evidence.content[ref.startByte..ref.endByte];
      if !env.policy.validText(quote) || env.sha256(quote) != ref.hash || ref.hash != p.identity.requestEvidenceHash {
        return;
      }
      var request := RequestOf(p.identity, quote);
      var target := FindTarget(request);
      if target.None? {
        return;
      }
      var decision := Verify(env.policy, request, evidence, true, target.value, true);
      if decision != Apply {
        return;
      }
      TargetGiven(store.memories, request);
      var commit := BuildCommit(env, request, proposalId, p.identity, target.value, evidence, REVIEWER_APPROVED, memoryId, traceId);
      var revision := Commit(commit, false, eventId, now);
    }

    // adminRejectProposal, when nothing comes between its two looks at the store.
    method RejectPending(proposalId: string, reason: string, now: int) returns (rejected: bool)
      requires Valid()
      modifies store
      ensures Valid()
      ensures rejected <==> proposalId in old(store.proposals) && old(store.proposals)[proposalId].status == Pending
      ensures Machine() == if rejected then G.RejectProposal(old(Machine()), proposalId, reason, now) else old(Machine())
      ensures old(InProtocol()) ==> InProtocol()
    {
      hide HashIndex, Inv, SoundDigests;
      if Inv(env, Machine()) {
        RejectKeeps(env, Machine(), proposalId, reason, now);
      }
      if proposalId !in store.proposals || store.proposals[proposalId].status != Pending {
        return false;
      }
      rejected := store.RejectProposal(proposalId, reason, now);
    }

    // adminRetireMemory.
    method RetireMemory(memoryId: string, traceId: string, eventId: string, now: int)
      requires Valid()
      modifies store
      ensures Valid()
      ensures Reaches(Machine(), Finish(Retire(env, old(Machine()), memoryId, traceId), eventId, now))
      ensures old(InProtocol() && Sized(Machine(), RetireStep(memoryId, traceId)) && !Logged(store.continuity, eventId)) ==> InProtocol()
    {
      hide Retire, Finish, Inv, SoundDigests, HashIndex, Reaches, Logged, Sized;
      ghost var before := Machine();
      ServeRetirement(memoryId, traceId, eventId, now);
      if SoundDigests(env) && Inv(env, before) && Sized(before, RetireStep(memoryId, traceId)) && !Logged(before.live.continuity, eventId) {
        RetireKeepsInv(env, before, memoryId, traceId, eventId, now, Machine());
      }
    }

    method ServeRetirement(memoryId: string, traceId: string, eventId: string, now: int)
      requires Valid()
      modifies store
      ensures Valid()
      ensures Reaches(Machine(), Finish(Retire(env, old(Machine()), memoryId, traceId), eventId, now))
    {
      hide HashIndex, Reaches, RetireCommit;
      ReachesItself(Machine());
      if memoryId == "" || memoryId !in store.memories {
        return;
      }
      var row := store.memories[memoryId];
      if row.lifecycle != ACTIVE {
        return;
      }
      var revision := Commit(RetireCommit(env, row, traceId), false, eventId, now);
    }
  }
}
