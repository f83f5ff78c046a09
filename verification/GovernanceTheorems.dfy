// What the protocol promises a caller, over every interleaving of its steps.
module GovernanceTheorems {
  import opened Wrappers
  import opened Memory
  import opened Replay
  import opened Lifecycle
  import opened Convergence
  import opened ProposalRecords
  import opened Quotes
  import opened Gate
  import opened Governance
  import opened GovernanceProof

  // ---- the journal only grows ----

  lemma StepAppends(env: Env, s: Sys, a: Action)
    ensures s.journal <= Step(env, s, a).journal
  {
    hide Verify, Bind, MutationTarget, HashTaken, BuildCommit, PromoteCommit, RetireCommit, Load, Committable;
  }

  lemma {:induction false} JournalGrows(env: Env, actions: seq<Action>, n: nat)
    requires n <= |actions|
    ensures Run(env, actions[..n]).journal <= Run(env, actions).journal
    decreases |actions|
  {
    hide Step;
    if n < |actions| {
      var front := actions[..|actions| - 1];
      assert front[..n] == actions[..n];
      JournalGrows(env, front, n);
      StepAppends(env, Run(env, front), actions[|actions| - 1]);
    } else {
      assert actions[..n] == actions;
    }
  }

  lemma RunFacts(env: Env, actions: seq<Action>)
    requires SoundDigests(env)
    ensures Inv(env, Run(env, actions)) && WellFormed(Run(env, actions).journal)
  {
    hide SoundDigests, Run, WellFormed;
    RunKeeps(env, actions);
    JournalWellFormed(env, Run(env, actions));
  }

  // ---- at most one event ----

  // A request hash, and a proposal, is the subject of at most one event.
  lemma AtMostOnce(env: Env, actions: seq<Action>, i: nat, j: nat)
    requires SoundDigests(env) && i < j < |Run(env, actions).journal|
    ensures var journal := Run(env, actions).journal;
            && journal[i].requestHash != journal[j].requestHash
            && (journal[j].proposalId != "" ==> journal[i].proposalId != journal[j].proposalId)
  {
    hide Inv, Run, Governed, SoundDigests;
    RunFacts(env, actions);
    var journal := Run(env, actions).journal;
    WellFormedPrefix(journal, j + 1);
    var upTo := journal[..j + 1];
    assert upTo[..j][i] == journal[i] && upTo[j] == journal[j];
  }

  // A proposal an event has resolved never waits for review again, whatever
  // runs, crashes or is rejected afterwards.
  lemma NeverPendingAgain(env: Env, actions: seq<Action>, n: nat, k: nat)
    requires SoundDigests(env) && n <= |actions| && k < |Run(env, actions[..n]).journal|
    requires Run(env, actions[..n]).journal[k].proposalId != ""
    ensures var id, later := Run(env, actions[..n]).journal[k].proposalId, Run(env, actions);
            id in later.live.proposals && later.live.proposals[id].status != Pending
  {
    hide SoundDigests, Run, JournalOk, LiveOk, DiskOk, ProposalsOk, RecordsOk, PhaseOk;
    RunKeeps(env, actions);
    JournalGrows(env, actions, n);
    assert ResolvedInMemory(Run(env, actions).live.proposals, Run(env, actions).journal[k]);
  }

  // ---- provenance ----

  lemma {:induction false} EvidenceComesFromEvents(events: seq<MutationEvent>, id: string, i: nat)
    requires id in Evidence(events) && i < |Evidence(events)[id]|
    ensures id != "" && exists k :: 0 <= k < |events| && events[k].evidence == Evidence(events)[id][i] && events[k].evidence.memoryId == id
    decreases |events|
  {
    var front, e := events[..|events| - 1], events[|events| - 1];
    if id in Evidence(front) && i < |Evidence(front)[id]| {
      EvidenceComesFromEvents(front, id, i);
      var k :| 0 <= k < |front| && front[k].evidence == Evidence(front)[id][i] && front[k].evidence.memoryId == id;
      assert events[k] == front[k];
    } else {
      assert events[|events| - 1].evidence == Evidence(events)[id][i];
    }
  }

  // Every evidence row names an archived user message and the one range of it
  // that hashes to the recorded digest.
  lemma EvidenceIsCited(env: Env, actions: seq<Action>, id: string, i: nat)
    requires SoundDigests(env)
    requires var s := Run(env, actions); id in s.live.evidence && i < |s.live.evidence[id]|
    ensures var s := Run(env, actions); var row := s.live.evidence[id][i];
            row.memoryId == id && Cites(env, s.archive, row.messageId, row.quoteHash, row.quoteStart, row.quoteEnd)
  {
    hide SoundDigests, Run, DiskOk, ProposalsOk, ResolvedOk, RecordsOk, PhaseOk, Cites, WellFormed;
    RunKeeps(env, actions);
    var s := Run(env, actions);
    EvidenceComesFromEvents(s.journal, id, i);
    var k :| 0 <= k < |s.journal| && s.journal[k].evidence == s.live.evidence[id][i];
    assert EventOk(env, s.archive, s.journal[k]);
  }

  predicate SameText(a: MemoryRow, b: MemoryRow) {
    && a.content == b.content && a.contentHash == b.contentHash && a.subject == b.subject && a.kind == b.kind
    && a.scopeType == b.scopeType && a.projectKey == b.projectKey && a.supersedes == b.supersedes
  }

  predicate BornAs(e: MutationEvent, id: string, row: MemoryRow) {
    e.newMemory.Some? && e.newMemory.value.memoryId == id && SameText(row, e.newMemory.value)
  }

  lemma BornStep(m: map<string, MemoryRow>, e: MutationEvent, id: string)
    requires KeyedById(m) && Governed(m, e) && id in ApplyMemories(m, e)
    ensures id in m ==> SameText(ApplyMemories(m, e)[id], m[id])
    ensures id !in m ==> BornAs(e, id, ApplyMemories(m, e)[id])
  {
  }

  // No event changes what a memory says; it says what the event that made it said.
  lemma {:induction false} TextIsFixedAtBirth(events: seq<MutationEvent>, id: string)
    requires WellFormed(events) && id in Memories(events)
    ensures exists k :: 0 <= k < |events| && BornAs(events[k], id, Memories(events)[id])
    decreases |events|
  {
    hide ApplyMemories, Governed, SameText;
    var front, e := events[..|events| - 1], events[|events| - 1];
    LastStep(events);
    BornStep(Memories(front), e, id);
    if id in Memories(front) {
      TextIsFixedAtBirth(front, id);
      var k :| 0 <= k < |front| && BornAs(front[k], id, Memories(front)[id]);
      SameTextTrans(Memories(events)[id], Memories(front)[id], front[k].newMemory.value);
      assert BornAs(events[k], id, Memories(events)[id]);
    } else {
      assert BornAs(events[|events| - 1], id, Memories(events)[id]);
    }
  }

  lemma SameTextTrans(a: MemoryRow, b: MemoryRow, c: MemoryRow)
    requires SameText(a, b) && SameText(b, c)
    ensures SameText(a, c)
  {
  }

  // The row holds the words of the one place in a user's message its event cites.
  ghost predicate SaidByUser(env: Env, archive: map<string, Message>, row: MemoryRow, e: EvidenceRow) {
    Cites(env, archive, e.messageId, e.quoteHash, e.quoteStart, e.quoteEnd)
    && row.content == archive[e.messageId].content[e.quoteStart..e.quoteEnd]
  }

  // Every memory in the store was made by one journaled event and still reads as
  // it did then; one made by REMEMBER is, byte for byte, what the user said.
  lemma MemoriesAreQuoted(env: Env, actions: seq<Action>, id: string)
    requires SoundDigests(env) && id in Run(env, actions).live.memories
    ensures var s := Run(env, actions);
            exists k :: 0 <= k < |s.journal| && BornAs(s.journal[k], id, s.live.memories[id])
                        && (s.journal[k].mutation == Remember ==>
                              SaidByUser(env, s.archive, s.live.memories[id], s.journal[k].evidence))
  {
    hide SoundDigests, Run, DiskOk, ProposalsOk, ResolvedOk, RecordsOk, PhaseOk, Cites, WellFormed, KeyedById, ReplayMemories;
    RunFacts(env, actions);
    var s := Run(env, actions);
    TextIsFixedAtBirth(s.journal, id);
    var k :| 0 <= k < |s.journal| && BornAs(s.journal[k], id, Memories(s.journal)[id]);
    assert SameGoverned(s.live.memories[id], Memories(s.journal)[id]);
    assert EventOk(env, s.archive, s.journal[k]);
    assert BornAs(s.journal[k], id, s.live.memories[id]);
    if s.journal[k].mutation == Remember {
      NewIdNotEmpty(s.journal, id);
    }
  }

  lemma NewIdNotEmpty(events: seq<MutationEvent>, id: string)
    requires WellFormed(events) && id in Memories(events)
    ensures id != ""
  {
    MemoriesKeyed(events);
  }

  // ---- restarts ----

  // Restarting at any moment of any run gives back the same governed memories,
  // evidence and continuity, every journaled proposal as its event resolved it,
  // and every other proposal as it survives its file.
  lemma RestartRestores(env: Env, actions: seq<Action>)
    requires SoundDigests(env)
    ensures var before := Run(env, actions); var after := Step(env, before, Restart);
            && after.journal == before.journal
            && AllSameGoverned(after.live.memories, before.live.memories)
            && after.live.evidence == before.live.evidence
            && after.live.continuity == before.live.continuity
            && after.live.proposals.Keys == before.live.proposals.Keys
            && (forall id :: id in before.live.proposals ==>
                  SameProposal(after.live.proposals[id], Reload(before.live.proposals[id])))
            && (forall k :: 0 <= k < |before.journal| ==> ResolvedBy(after.live.proposals, before.journal[k]))
            && (forall k :: 0 <= k < |before.journal| && before.journal[k].proposalId != "" ==>
                  SaysOf(after.live.proposals, before.journal[k]))
  {
    hide SoundDigests, Run, Step, JournalOk, DiskOk, ProposalsOk, ResolvedOk, RecordsOk, PhaseOk, Load,
         ReplayMemories, ReplayEvidence, ReplayContinuity, ReplayProposals, Reload, SameProposal, ProposalOk, ResolvedBy;
    RunKeeps(env, actions);
    var before := Run(env, actions);
    var after := Step(env, before, Restart);
    StepKeeps(env, before, Restart);
    RestartLoads(env, before);
    LoadedProposals(env, before.archive, before.live.proposals, before.disk.proposals, before.journal);
    forall k | 0 <= k < |before.journal| && before.journal[k].proposalId != ""
      ensures SaysOf(after.live.proposals, before.journal[k])
    {
      ResolvedSays(after.live.proposals, before.journal[k]);
    }
    forall id | id in before.live.proposals ensures SameProposal(after.live.proposals[id], Reload(before.live.proposals[id])) {
      assert Restored(env, before.archive, id, before.live.proposals[id], after.live.proposals[id]);
    }
  }

  // A resolved proposal says when, why and into which memory it was applied.
  predicate SaysOf(proposals: map<string, Proposal>, e: MutationEvent) {
    && e.proposal.Some? && e.proposalId in proposals
    && var p := proposals[e.proposalId];
       && p.status == Applied && p.reasonCode == e.resolutionReason && p.resolvedAt == Some(e.createdAt)
       && p.appliedMemoryId == (match e.newMemory
                                case Some(row) => row.memoryId
                                case None => if e.updatedMemory.Some? then e.updatedMemory.value.memoryId else e.targetMemoryId)
       && p.identity == e.proposal.value.identity && p.requestHash == e.proposal.value.requestHash
  }

  lemma ResolvedSays(proposals: map<string, Proposal>, e: MutationEvent)
    requires ResolvedBy(proposals, e) && e.proposalId != ""
    ensures SaysOf(proposals, e)
  {
  }

  lemma RestartLoads(env: Env, s: Sys)
    ensures Step(env, s, Restart).journal == s.journal
    ensures Step(env, s, Restart).live.proposals == ReplayProposals(Reloaded(s.disk.proposals), s.journal)
  {
  }

  // ---- the non-atomic rejection ----

  // The one way an applied proposal loses its status: a rejection that read
  // PENDING before the event and writes after it.
  lemma AppliedIsLostIff(env: Env, s: Sys, a: Action, k: nat)
    requires Inv(env, s) && FreshIds(s, a) && k < |s.journal| && s.journal[k].proposalId != ""
    requires s.live.proposals[s.journal[k].proposalId].status == Applied
    ensures var id, after := s.journal[k].proposalId, Step(env, s, a);
            id in after.live.proposals
            && (after.live.proposals[id].status != Applied <==> a.RejectWrite? && a.rejectedId == id && id in s.rejecting)
  {
    hide JournalOk, LiveOk, DiskOk, ProposalsOk, RecordsOk, PhaseOk, Submit, Approve, Retire, Finish, Load, RejectProposal, Records;
    var id := s.journal[k].proposalId;
    assert ResolvedInMemory(s.live.proposals, s.journal[k]);
    match a
    case SubmitStep(request, answers) => SubmitLeavesOthers(env, s, request, answers, id);
    case ApproveStep(proposalId, newId, traceId) => ReviewTouchesOnlyThePhase(env, s, proposalId, newId, traceId);
    case RetireStep(memoryId, traceId) => ReviewTouchesOnlyThePhase(env, s, "", memoryId, traceId);
    case FinishStep(eventId, now) => FinishKeepsApplied(env, s, eventId, now, id);
    case RejectWrite(rejected, reason, at) => RejectTouchesOnly(s, rejected, reason, at, id);
    case Restart => RestartResolves(env, s, k);
    case _ =>
  }

  lemma SubmitLeavesOthers(env: Env, s: Sys, request: Request, a: Answers, id: string)
    requires id in s.live.proposals && id != a.proposalId
    ensures id in Submit(env, s, request, a).live.proposals
    ensures Submit(env, s, request, a).live.proposals[id] == s.live.proposals[id]
  {
    hide Verify, Bind, MutationTarget, HashTaken, BuildCommit, PromoteCommit, IdentityFor;
  }

  lemma RejectTouchesOnly(s: Sys, rejected: string, reason: string, at: int, id: string)
    requires id in s.live.proposals
    ensures var after := RejectProposal(s.(rejecting := s.rejecting - {rejected}), rejected, reason, at).live.proposals;
            id in after && (if id == rejected then after[id].status == Rejected else after[id] == s.live.proposals[id])
  {
  }

  lemma RestartResolves(env: Env, s: Sys, k: nat)
    requires Inv(env, s) && k < |s.journal| && s.journal[k].proposalId != ""
    ensures var after := Load(s.disk, s.journal).proposals;
            s.journal[k].proposalId in after && after[s.journal[k].proposalId].status == Applied
  {
    hide JournalOk, ProposalsOk, ResolvedOk, RecordsOk, ReplayProposals;
    LoadedProposals(env, s.archive, s.live.proposals, s.disk.proposals, s.journal);
    assert ResolvedBy(ReplayProposals(Reloaded(s.disk.proposals), s.journal), s.journal[k]);
  }

  lemma FinishKeepsApplied(env: Env, s: Sys, eventId: string, now: int, id: string)
    requires PhaseOk(env, s.archive, s.live.proposals, s.journal, s.phase) && ProposalsOk(env, s.archive, s.live.proposals)
    requires id in s.live.proposals && s.live.proposals[id].status == Applied
    ensures id in Finish(s, eventId, now).live.proposals && Finish(s, eventId, now).live.proposals[id].status == Applied
  {
    hide CommitOk, ApplyMemories, ApplyEvidence, ApplyContinuity, IdentityOk;
    if s.phase.Committing? && Committable(s.live, s.phase.commit) && s.phase.commit.proposalId != "" {
      var c := s.phase.commit;
      assert ProposalOk(env, s.archive, c.proposalId, s.live.proposals[c.proposalId]);
    } else {
      assert forall p :: p in s.live.proposals ==> p != "";
    }
  }

  // It does happen: a rejection that looked while the commit was under way
  // overwrites the outcome, although the event is in the journal for good.
  lemma LateRejectionOverwrites(env: Env, s: Sys, eventId: string, now: int, reason: string, at: int)
    requires Inv(env, s) && s.phase.Committing? && s.phase.commit.proposalId != "" && Committable(s.live, s.phase.commit)
    requires !Logged(s.live.continuity, eventId)
    ensures var id := s.phase.commit.proposalId;
            var committed := Step(env, Step(env, s, RejectCheck(id)), FinishStep(eventId, now));
            var rejected := Step(env, committed, RejectWrite(id, reason, at));
            && |committed.journal| == |s.journal| + 1 && committed.journal[|s.journal|].proposalId == id
            && id in committed.live.proposals && committed.live.proposals[id].status == Applied
            && rejected.journal == committed.journal
            && id in rejected.live.proposals && rejected.live.proposals[id].status == Rejected
  {
    hide JournalOk, LiveOk, DiskOk, RecordsOk, CommitOk, ResolvedOk, ApplyMemories, ApplyEvidence, ApplyContinuity, IdentityOk,
      Records, Submit, Approve, Retire, Load, Committable, Logged;
    CommittedHasProposal(s.live, s.phase.commit);
    var id := s.phase.commit.proposalId;
    assert ProposalOk(env, s.archive, id, s.live.proposals[id]);
  }

  lemma CommittedHasProposal(live: Live, c: Commit)
    requires Committable(live, c) && c.proposalId != ""
    ensures c.proposalId in live.proposals && live.proposals[c.proposalId].status == Pending
  {
  }

  // A run of five steps in which it happens.
  const QUOTE := "I prefer green tea"
  const SAID := Message("s", USER, QUOTE, NORMAL, false, false)
  const ASKED := Request("s", "m", Remember, "USER_PREFERENCE", GLOBAL, "green tea", QUOTE, "", "")
  const ANSWERED := Answers("c", "", false, true, "", "p", "id", "t", 1)

  function Race(): seq<Action> {
    [Archive("m", SAID), SubmitStep(ASKED, ANSWERED), RejectCheck("p"), FinishStep("e", 2), RejectWrite("p", "no", 3)]
  }

  lemma RunSnoc(env: Env, actions: seq<Action>, a: Action)
    ensures Run(env, actions + [a]) == Step(env, Run(env, actions), a)
  {
    assert (actions + [a])[..|actions|] == actions;
  }

  // A whole text binds to itself.
  lemma WholeTextBinds(sha256: string -> string, text: string)
    requires text != ""
    ensures Bind(sha256, text, text) == BoundAt(sha256(text), 0, |text|)
    ensures FindFrom(text, text, 0).Some?
  {
    hide Bind, FindFrom;
    assert text[0..0 + |text|] == text && OccursAt(text, text, 0);
    assert OccursOnlyAt(text, text, 0);
    BindsIffUnique(sha256, text, text, 0);
  }

  // The policy takes the quote for a cue about the subject, as the word lists do.
  predicate TakesQuote(policy: Policy) {
    !policy.blocked("green tea" + "\n" + "") && policy.hasCue(Remember, QUOTE) && policy.overlaps("green tea", QUOTE)
  }

  // The commit the second step starts.
  lemma RaceSubmits(env: Env, s: Sys)
    requires TakesQuote(env.policy)
    requires s == Step(env, Init(), Archive("m", SAID))
    ensures var t := Step(env, s, SubmitStep(ASKED, ANSWERED));
            && t.phase.Committing? && t.phase.commit.proposalId == "p" && Committable(t.live, t.phase.commit)
            && t.live.continuity == [] && t.journal == []
  {
    WholeTextBinds(env.sha256, QUOTE);
    hide Bind, FindFrom;
    assert Verify(env.policy, ASKED, SAID, true, None, false) == Apply;
  }

  // A user says what they prefer, and a reviewer rejects it a moment too late.
  lemma AppliedCanBeLost(env: Env)
    requires TakesQuote(env.policy)
    ensures var s := Run(env, Race());
            && |s.journal| == 1 && s.journal[0].proposalId == "p"
            && "p" in s.live.proposals && s.live.proposals["p"].status == Rejected
  {
    hide Step, Run;
    var s1 := Step(env, Init(), Archive("m", SAID));
    var s2 := Step(env, s1, SubmitStep(ASKED, ANSWERED));
    RaceSubmits(env, s1);
    RaceRejects(env, s2);
    RaceRuns(env, s1, s2);
  }

  lemma RaceRuns(env: Env, s1: Sys, s2: Sys)
    requires s1 == Step(env, Init(), Archive("m", SAID)) && s2 == Step(env, s1, SubmitStep(ASKED, ANSWERED))
    ensures Run(env, Race()) == Step(env, Step(env, Step(env, s2, RejectCheck("p")), FinishStep("e", 2)), RejectWrite("p", "no", 3))
  {
    hide Step;
    var race := Race();
    RunSnoc(env, [], race[0]);
    RunSnoc(env, [race[0]], race[1]);
    RunSnoc(env, [race[0], race[1]], race[2]);
    RunSnoc(env, [race[0], race[1], race[2]], race[3]);
    RunSnoc(env, [race[0], race[1], race[2], race[3]], race[4]);
    assert [] + [race[0]] == [race[0]] && [race[0]] + [race[1]] == [race[0], race[1]];
    assert [race[0], race[1]] + [race[2]] == [race[0], race[1], race[2]];
    assert [race[0], race[1], race[2]] + [race[3]] == [race[0], race[1], race[2], race[3]];
    assert [race[0], race[1], race[2], race[3]] + [race[4]] == race;
  }

  lemma RaceRejects(env: Env, s: Sys)
    requires s.phase.Committing? && s.phase.commit.proposalId == "p" && Committable(s.live, s.phase.commit)
    requires s.live.continuity == [] && s.journal == []
    ensures var t := Step(env, Step(env, Step(env, s, RejectCheck("p")), FinishStep("e", 2)), RejectWrite("p", "no", 3));
            && |t.journal| == 1 && t.journal[0].proposalId == "p"
            && "p" in t.live.proposals && t.live.proposals["p"].status == Rejected
  {
    hide ApplyMemories, ApplyEvidence, ApplyContinuity;
  }

  // ---- lifecycle, seen in the live store ----

  // Once a memory has left ACTIVE, every later store holds the same row, in
  // every governed field.
  lemma RetiredStaysRetired(env: Env, actions: seq<Action>, n: nat, id: string)
    requires SoundDigests(env) && n <= |actions|
    requires id in Run(env, actions[..n]).live.memories && Run(env, actions[..n]).live.memories[id].lifecycle != ACTIVE
    ensures id in Run(env, actions).live.memories
    ensures SameGoverned(Run(env, actions).live.memories[id], Run(env, actions[..n]).live.memories[id])
  {
    hide SoundDigests, Run, WellFormed, ReplayMemories, JournalOk, DiskOk, ProposalsOk, ResolvedOk, RecordsOk, PhaseOk;
    RunFacts(env, actions);
    RunFacts(env, actions[..n]);
    JournalGrows(env, actions, n);
    var was, now := Run(env, actions[..n]), Run(env, actions);
    assert now.journal[..|was.journal|] == was.journal;
    assert SameGoverned(was.live.memories[id], Memories(was.journal)[id]);
    InactiveIsFinal(now.journal, |was.journal|, id);
    assert SameGoverned(now.live.memories[id], Memories(now.journal)[id]);
  }

  // In every store the version counts the governed changes since birth, and a
  // memory is succeeded by at most one other.
  lemma LiveLineage(env: Env, actions: seq<Action>, a: string, b: string)
    requires SoundDigests(env)
    requires a in Run(env, actions).live.memories && b in Run(env, actions).live.memories
    ensures var s := Run(env, actions); var m := s.live.memories;
            && m[a].stateVersion == 1 + Changes(s.journal, a)
            && (m[a].supersedes == m[b].supersedes != "" ==> a == b)
            && (m[a].supersedes != "" ==> m[a].supersedes in m && m[m[a].supersedes].lifecycle != ACTIVE)
  {
    hide SoundDigests, Run, WellFormed, ReplayMemories, JournalOk, DiskOk, ProposalsOk, ResolvedOk, RecordsOk, PhaseOk, Changes;
    RunFacts(env, actions);
    var s := Run(env, actions);
    var live, m := s.live.memories, Memories(s.journal);
    assert SameGoverned(live[a], m[a]) && SameGoverned(live[b], m[b]);
    VersionCountsChanges(s.journal, a);
    if m[a].supersedes != "" {
      SupersededIsInactive(s.journal, a);
      assert SameGoverned(live[m[a].supersedes], m[m[a].supersedes]);
      if m[a].supersedes == m[b].supersedes {
        OneSuccessor(s.journal, a, b);
      }
    }
  }
}
