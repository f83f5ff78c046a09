// An approval that waits for a restart is the approval it would have been.
module Approval {
  import opened Wrappers
  import opened Memory
  import opened Replay
  import opened Convergence
  import opened ProposalRecords
  import opened Quotes
  import opened Gate
  import opened Governance
  import opened GovernanceProof
  import opened GovernanceTheorems

  // A proposal no event has resolved is on file as it is in memory.
  ghost predicate Filed(s: Sys) {
    forall id :: id in s.live.proposals && !Journaled(s.journal, id) ==>
      id in s.disk.proposals && s.disk.proposals[id] == FromProposal(s.live.proposals[id])
  }

  lemma FiledByRewrite(s: Sys)
    requires s.disk.proposals == Records(s.live.proposals)
    ensures Filed(s)
  {
    hide FromProposal;
  }

  lemma FiledTogether(s: Sys, after: Sys)
    requires Filed(s) && after.journal == s.journal
    requires after.live.proposals == s.live.proposals && after.disk.proposals == s.disk.proposals
    ensures Filed(after)
  {
    hide FromProposal;
  }

  lemma SubmitFiles(env: Env, s: Sys, request: Request, a: Answers)
    ensures var after := Submit(env, s, request, a);
            after.disk.proposals == Records(after.live.proposals)
            || (after.live.proposals == s.live.proposals && after.disk.proposals == s.disk.proposals)
    ensures Submit(env, s, request, a).journal == s.journal
  {
    hide Verify, Bind, MutationTarget, HashTaken, BuildCommit, PromoteCommit, IdentityFor, Records;
  }

  lemma FinishFiles(env: Env, s: Sys, eventId: string, now: int)
    requires ProposalsOk(env, s.archive, s.live.proposals) && Filed(s)
    ensures Filed(Finish(s, eventId, now))
  {
    hide ApplyMemories, ApplyEvidence, ApplyContinuity, IdentityOk, Records, FromProposal, CommitOk;
    match s.phase
    case Idle =>
    case Committing(c, rejectOnFailure) =>
      var after := Finish(s, eventId, now);
      if Committable(s.live, c) {
        CommitFiles(env, s, c, eventId, now, after);
      } else if rejectOnFailure && c.proposalId in s.live.proposals {
        FiledByRewrite(after);
      } else {
        FiledTogether(s, after);
      }
  }

  lemma CommitFiles(env: Env, s: Sys, c: Commit, eventId: string, now: int, after: Sys)
    requires ProposalsOk(env, s.archive, s.live.proposals) && Filed(s) && Committable(s.live, c)
    requires var e := EventFor(s.live, c, eventId, now);
             after.journal == s.journal + [e] && after.live.proposals == ApplyProposals(s.live.proposals, e)
             && after.disk == s.disk
    ensures Filed(after)
  {
    hide IdentityOk, FromProposal;
    var e := EventFor(s.live, c, eventId, now);
    assert forall p :: p in s.live.proposals ==> p != "";
    if c.proposalId != "" {
      assert ProposalOk(env, s.archive, c.proposalId, s.live.proposals[c.proposalId]);
    }
    forall id | id in after.live.proposals && !Journaled(after.journal, id)
      ensures id in s.disk.proposals && s.disk.proposals[id] == FromProposal(after.live.proposals[id])
    {
      StillUnjournaled(s.journal, e, id);
      assert id in s.live.proposals && after.live.proposals[id] == s.live.proposals[id];
    }
  }

  lemma StillUnjournaled(journal: seq<MutationEvent>, e: MutationEvent, id: string)
    requires !Journaled(journal + [e], id)
    ensures !Journaled(journal, id) && e.proposalId != id
  {
    var more := journal + [e];
    assert more[|journal|] == e;
    forall k | 0 <= k < |journal| ensures journal[k].proposalId != id {
      assert more[k] == journal[k];
    }
  }

  lemma FileSettles(env: Env, archive: map<string, Message>, id: string, p: Proposal)
    requires ProposalOk(env, archive, id, p)
    ensures FromProposal(Reload(p)) == FromProposal(p)
  {
  }

  lemma RestartFiles(env: Env, s: Sys)
    requires Inv(env, s) && Filed(s)
    ensures Filed(s.(live := Load(s.disk, s.journal), phase := Idle, rejecting := {}))
  {
    hide JournalOk, LiveOk, DiskOk, ResolvedOk, RecordsOk, PhaseOk, ReplayProposals, FromProposal, ToProposal, IdentityOk,
         LoadMemories, ReplayEvidence, ReplayContinuity;
    LoadedProposals(env, s.archive, s.live.proposals, s.disk.proposals, s.journal);
    var loaded := ReplayProposals(Reloaded(s.disk.proposals), s.journal);
    forall id | id in loaded && !Journaled(s.journal, id)
      ensures id in s.disk.proposals && s.disk.proposals[id] == FromProposal(loaded[id])
    {
      FileSettles(env, s.archive, id, s.live.proposals[id]);
    }
  }

  lemma StepFiles(env: Env, s: Sys, a: Action)
    requires Inv(env, s) && Filed(s)
    ensures Filed(Step(env, s, a))
  {
    hide Filed, Submit, Approve, Retire, Finish, Load, Records, JournalOk, LiveOk, DiskOk, ResolvedOk, RecordsOk, PhaseOk, ProposalsOk;
    if FreshIds(s, a) && LockFree(s, a) && Sized(s, a) {
      var after := Step(env, s, a);
      match a
      case SubmitStep(request, answers) =>
        SubmitFiles(env, s, request, answers);
        if after.disk.proposals == Records(after.live.proposals) {
          FiledByRewrite(after);
        } else {
          FiledTogether(s, after);
        }
      case ApproveStep(proposalId, newId, traceId) =>
        ReviewTouchesOnlyThePhase(env, s, proposalId, newId, traceId);
        FiledTogether(s, after);
      case RetireStep(memoryId, traceId) =>
        ReviewTouchesOnlyThePhase(env, s, "", memoryId, traceId);
        FiledTogether(s, after);
      case FinishStep(eventId, now) => FinishFiles(env, s, eventId, now);
      case RejectWrite(id, reason, at) =>
        if id in s.rejecting && id in s.live.proposals {
          FiledByRewrite(after);
        } else {
          FiledTogether(s, after);
        }
      case FlushProposals => FiledByRewrite(after);
      case Restart => RestartFiles(env, s);
      case _ => FiledTogether(s, after);
    }
  }

  lemma {:induction false} RunFiles(env: Env, actions: seq<Action>)
    requires SoundDigests(env)
    ensures Filed(Run(env, actions))
    decreases |actions|
  {
    hide SoundDigests, Inv, Step;
    if actions != [] {
      var front := actions[..|actions| - 1];
      RunFiles(env, front);
      RunKeeps(env, front);
      StepFiles(env, Run(env, front), actions[|actions| - 1]);
    }
  }

  // A target row read after a restart leads to the same decision and commit.
  lemma SameTarget(before: map<string, MemoryRow>, after: map<string, MemoryRow>, request: Request)
    requires AllSameGoverned(after, before)
    ensures var s, t := MutationTarget(before, request), MutationTarget(after, request);
            && s.Some? == t.Some?
            && (s.Some? ==> s.value.Some? == t.value.Some?)
            && (s.Some? && s.value.Some? ==> SameGoverned(t.value.value, s.value.value))
  {
  }

  lemma SameDecision(policy: Policy, request: Request, evidence: Message, a: Option<MemoryRow>, b: Option<MemoryRow>)
    requires a.Some? == b.Some? && (a.Some? ==> SameGoverned(b.value, a.value))
    ensures Verify(policy, request, evidence, true, a, true) == Verify(policy, request, evidence, true, b, true)
  {
    hide FindFrom;
  }

  lemma SameCommit(
    env: Env, request: Request, proposalId: string, identity: Identity, a: Option<MemoryRow>, b: Option<MemoryRow>,
    evidence: Message, memoryId: string, traceId: string)
    requires identity.evidence.Some? && (request.mutation != Remember ==> a.Some?)
    requires a.Some? == b.Some? && (a.Some? ==> SameGoverned(b.value, a.value))
    ensures BuildCommit(env, request, proposalId, identity, a, evidence, REVIEWER_APPROVED, memoryId, traceId)
            == BuildCommit(env, request, proposalId, identity, b, evidence, REVIEWER_APPROVED, memoryId, traceId)
  {
  }

  // The same proposal over the same memories starts the same commit.
  lemma SameApproval(env: Env, s: Sys, t: Sys, id: string, newId: string, traceId: string)
    requires s.phase == t.phase && s.archive == t.archive && AllSameGoverned(t.live.memories, s.live.memories)
    requires id in s.live.proposals && id in t.live.proposals && s.live.proposals[id] == t.live.proposals[id]
    ensures Approve(env, t, id, newId, traceId).phase == Approve(env, s, id, newId, traceId).phase
  {
    hide Verify, MutationTarget, BuildCommit, AllSameGoverned, SameGoverned;
    var p := s.live.proposals[id];
    if p.identity.messageId in s.archive && p.identity.evidence.Some? {
      var evidence, ref := s.archive[p.identity.messageId], p.identity.evidence.value;
      if 0 <= ref.startByte < ref.endByte <= |evidence.content| {
        var request := RequestOf(p.identity, evidence.content[ref.startByte..ref.endByte]);
        SameTarget(s.live.memories, t.live.memories, request);
        var a, b := MutationTarget(s.live.memories, request), MutationTarget(t.live.memories, request);
        if a.Some? {
          TargetGiven(s.live.memories, request);
          SameDecision(env.policy, request, evidence, a.value, b.value);
          SameCommit(env, request, id, p.identity, a.value, b.value, evidence, newId, traceId);
        }
      }
    }
  }

  // What Approve starts, it starts for the pending proposal it was asked about.
  lemma ApprovalIsAdmitted(env: Env, s: Sys, id: string, newId: string, traceId: string)
    requires ProposalsOk(env, s.archive, s.live.proposals) && s.phase.Idle?
    ensures var t := Approve(env, s, id, newId, traceId);
            t.phase.Committing? ==>
              && t.phase.commit.proposalId == id && id in t.live.proposals && t.live.proposals[id].status == Pending
              && t.live.proposals[id].requestHash == t.phase.commit.requestHash
              && t.live == s.live
  {
    hide Verify, MutationTarget, IdentityOk;
    if id in s.live.proposals {
      assert ProposalOk(env, s.archive, id, s.live.proposals[id]);
    }
  }

  // An approval after a restart starts exactly the commit it would have started
  // before, and the commit passes the same checks: the proposal's always.
  lemma ApprovalSurvivesRestart(env: Env, actions: seq<Action>, id: string, newId: string, traceId: string)
    requires SoundDigests(env) && Run(env, actions).phase.Idle?
    ensures var s := Run(env, actions); var r := Step(env, s, Restart);
            var before, after := Approve(env, s, id, newId, traceId), Approve(env, r, id, newId, traceId);
            && after.phase == before.phase
            && (after.phase.Committing? ==>
                  && after.phase.commit.proposalId == id && id in after.live.proposals
                  && after.live.proposals[id].status == Pending
                  && after.live.proposals[id].requestHash == after.phase.commit.requestHash
                  && (Committable(after.live, after.phase.commit) <==> Committable(before.live, before.phase.commit)))
  {
    hide SoundDigests, Run, Step, Approve, JournalOk, DiskOk, LiveOk, ResolvedOk, RecordsOk, PhaseOk, Filed, Reload,
         AllSameGoverned, SameProposal, ProposalsOk, Committable;
    var s := Run(env, actions);
    var r := Step(env, s, Restart);
    RunKeeps(env, actions);
    RunFiles(env, actions);
    RestartRestores(env, actions);
    StepKeeps(env, s, Restart);
    RestartKeepsArchive(env, s);
    ApprovalIsAdmitted(env, s, id, newId, traceId);
    ApprovalIsAdmitted(env, r, id, newId, traceId);
    if id in s.live.proposals {
      RestoredProposal(env, s, id);
      if r.live.proposals[id] == s.live.proposals[id] {
        SameApproval(env, s, r, id, newId, traceId);
      } else {
        NotApprovable(env, s, id, newId, traceId);
        NotApprovable(env, r, id, newId, traceId);
      }
    } else {
      NotApprovable(env, s, id, newId, traceId);
      NotApprovable(env, r, id, newId, traceId);
    }
    NoEmptyId(env, s.archive, s.live.proposals);
    if Approve(env, r, id, newId, traceId).phase.Committing? {
      SameChecks(s.live, r.live, Approve(env, r, id, newId, traceId).phase.commit);
    }
  }

  lemma RestartKeepsArchive(env: Env, s: Sys)
    ensures Step(env, s, Restart).archive == s.archive && Step(env, s, Restart).phase == Idle
  {
  }

  // Only a pending proposal with bound evidence can be approved.
  predicate Approvable(ps: map<string, Proposal>, id: string) {
    id in ps && ps[id].status == Pending && ps[id].identity.evidence.Some?
  }

  lemma NotApprovable(env: Env, s: Sys, id: string, newId: string, traceId: string)
    requires !Approvable(s.live.proposals, id)
    ensures Approve(env, s, id, newId, traceId) == s
  {
    hide Verify, MutationTarget, BuildCommit;
  }

  // Through a restart a proposal stays as it is, or was not approvable anyway.
  lemma RestoredProposal(env: Env, s: Sys, id: string)
    requires Inv(env, s) && Filed(s) && id in s.live.proposals
    ensures var r := Step(env, s, Restart);
            && id in r.live.proposals
            && (r.live.proposals[id] == s.live.proposals[id]
                || (!Approvable(s.live.proposals, id) && !Approvable(r.live.proposals, id)))
  {
    hide JournalOk, LiveOk, DiskOk, RecordsOk, PhaseOk, ProposalsOk, ResolvedOk, Filed, ReplayProposals, Approvable, Step, ResolvedBy,
         Restored, ToProposal, Reloaded;
    RestartLoads(env, s);
    LoadedProposals(env, s.archive, s.live.proposals, s.disk.proposals, s.journal);
    var loaded := ReplayProposals(Reloaded(s.disk.proposals), s.journal);
    NoEmptyId(env, s.archive, s.live.proposals);
    if Journaled(s.journal, id) {
      var k :| 0 <= k < |s.journal| && s.journal[k].proposalId == id;
      assert ResolvedBy(loaded, s.journal[k]);
      JournaledIsDone(s.live.proposals, loaded, s.journal, k);
    } else {
      UnjournaledIsKept(env, s, id, loaded);
    }
  }

  lemma JournaledIsDone(before: map<string, Proposal>, loaded: map<string, Proposal>, journal: seq<MutationEvent>, k: nat)
    requires ResolvedOk(before, journal) && k < |journal| && journal[k].proposalId != "" && ResolvedBy(loaded, journal[k])
    ensures !Approvable(before, journal[k].proposalId) && !Approvable(loaded, journal[k].proposalId)
  {
    assert ResolvedInMemory(before, journal[k]);
  }

  lemma UnjournaledIsKept(env: Env, s: Sys, id: string, loaded: map<string, Proposal>)
    requires ProposalsOk(env, s.archive, s.live.proposals) && Filed(s) && id in s.live.proposals && !Journaled(s.journal, id)
    requires id in loaded && (id in s.disk.proposals ==> loaded[id] == ToProposal(s.disk.proposals[id]))
    ensures loaded[id] == s.live.proposals[id] || (!Approvable(s.live.proposals, id) && !Approvable(loaded, id))
  {
    hide IdentityOk, FromProposal, ToProposal;
    var p := s.live.proposals[id];
    assert ProposalOk(env, s.archive, id, p) && loaded[id] == Reload(p);
    ReloadOk(env, s.archive, id, p);
    if p.identity.evidence.None? {
      UnboundStaysUnbound(p);
    }
  }

  lemma UnboundStaysUnbound(p: Proposal)
    requires p.identity.evidence.None?
    ensures Reload(p).identity.evidence.None?
  {
  }

  lemma SameChecks(s: Live, r: Live, c: Commit)
    requires AllSameGoverned(r.memories, s.memories) && c.proposalId != ""
    requires c.proposalId in s.proposals && c.proposalId in r.proposals
    requires s.proposals[c.proposalId].status == r.proposals[c.proposalId].status == Pending
    requires s.proposals[c.proposalId].requestHash == r.proposals[c.proposalId].requestHash == c.requestHash
    ensures Committable(r, c) <==> Committable(s, c)
  {
  }
}
