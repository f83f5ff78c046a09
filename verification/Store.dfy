// The store object: maps updated in place, checked against the functions that
// say what the journal means and against the steps of the protocol machine.
module Store {
  import opened Wrappers
  import opened Memory
  import opened Replay
  import opened Convergence
  import opened ProposalRecords
  import opened Governance

  datatype AccessKind = AccessRecall | AccessReflexCore | AccessReflexImp | AccessFeedback | AccessSearchHit

  predicate GenuineUse(kind: AccessKind) {
    kind == AccessRecall || kind == AccessReflexCore || kind == AccessReflexImp
  }

  // Every key of the index names a proposal of that hash, and every hash is
  // indexed.
  predicate HashIndex(proposals: map<string, Proposal>, hashes: map<string, string>) {
    && "" !in hashes
    && (forall h :: h in hashes ==> hashes[h] in proposals && proposals[hashes[h]].requestHash == h)
    && (forall id :: id in proposals && proposals[id].requestHash != "" ==> proposals[id].requestHash in hashes)
  }

  lemma ApplyKeepsIndex(proposals: map<string, Proposal>, hashes: map<string, string>, e: MutationEvent)
    requires HashIndex(proposals, hashes)
    ensures HashIndex(ApplyProposals(proposals, e), ApplyHashes(hashes, proposals, e))
  {
    var hashes' := ApplyHashes(hashes, proposals, e);
    var added := if e.proposal.Some? && e.proposal.value.id !in proposals
                 then proposals[e.proposal.value.id := e.proposal.value] else proposals;
    assert HashIndex(added, hashes');
    var after := ApplyProposals(proposals, e);
    assert after.Keys == added.Keys && forall id :: id in after ==> after[id].requestHash == added[id].requestHash;
  }

  // Filing a new proposal under its hash keeps the index.
  lemma InsertKeepsIndex(proposals: map<string, Proposal>, hashes: map<string, string>, p: Proposal)
    requires HashIndex(proposals, hashes) && p.id !in proposals
    ensures HashIndex(proposals[p.id := p], if p.requestHash != "" then hashes[p.requestHash := p.id] else hashes)
  {
  }

  lemma IndexOfNothing()
    ensures HashIndex(map[], map[])
  {
  }

  lemma RecordKeepsId(r: Record)
    ensures ToProposal(r).id == r.proposalId
  {
  }

  // The first n projection files rewritten from memory, in the order the store
  // writes them.
  function Projected(disk: Files, live: Live, n: nat): Files {
    Files(if n > 0 then live.memories else disk.memories,
          if n > 2 then live.evidence else disk.evidence,
          if n > 1 then Records(live.proposals) else disk.proposals,
          if n > 3 then live.continuity else disk.continuity)
  }

  // Stopping after any of the four rewrites is a run of the machine's flushes.
  lemma ProjectionIsASequenceOfFlushes(env: Env, s: Sys)
    ensures var one := Step(env, s, FlushMemories);
            var two := Step(env, one, FlushProposals);
            var three := Step(env, two, FlushEvidence);
            var four := Step(env, three, FlushContinuity);
            && one == s.(disk := Projected(s.disk, s.live, 1)) && two == s.(disk := Projected(s.disk, s.live, 2))
            && three == s.(disk := Projected(s.disk, s.live, 3)) && four == s.(disk := Projected(s.disk, s.live, 4))
            && s == s.(disk := Projected(s.disk, s.live, 0))
  {
    hide Records;
  }

  function Bumped(row: MemoryRow, n: int): MemoryRow {
    row.(runtime := row.runtime.(accessCount := row.runtime.accessCount + n))
  }

  function Waiting(bumps: map<string, int>, id: string): int {
    if id in bumps then bumps[id] else 0
  }

  method MergeRuntimeState(replayed: map<string, MemoryRow>, projected: map<string, MemoryRow>) returns (merged: map<string, MemoryRow>)
    ensures merged == MergeRuntime(replayed, projected)
  {
    hide SameVersion, MergeRow, MergeRuntime;
    merged := replayed;
    var rest := replayed.Keys;
    ghost var goal := MergeRuntime(replayed, projected);
    while rest != {}
      invariant rest <= replayed.Keys && merged.Keys == replayed.Keys
      invariant forall id :: id in rest ==> merged[id] == replayed[id]
      invariant forall id :: id in replayed && id !in rest ==> id in goal && merged[id] == goal[id]
      decreases |rest|
    {
      var id :| id in rest;
      MergeAt(replayed, projected, id);
      if id in projected && SameVersion(projected[id], replayed[id]) {
        merged := merged[id := MergeRow(replayed[id], projected[id])];
      }
      rest := rest - {id};
    }
    MergeKeys(replayed, projected);
  }

  lemma MergeAt(replayed: map<string, MemoryRow>, projected: map<string, MemoryRow>, id: string)
    requires id in replayed
    ensures id in MergeRuntime(replayed, projected)
    ensures MergeRuntime(replayed, projected)[id] ==
            if id in projected && SameVersion(projected[id], replayed[id]) then MergeRow(replayed[id], projected[id]) else replayed[id]
  {
  }

  lemma MergeKeys(replayed: map<string, MemoryRow>, projected: map<string, MemoryRow>)
    ensures MergeRuntime(replayed, projected).Keys == replayed.Keys
  {
  }

  // The proposals of the file apart from those still to be read are loaded.
  ghost predicate LoadedBut(file: map<string, Record>, rest: set<string>, proposals: map<string, Proposal>, hashes: map<string, string>) {
    && rest <= file.Keys && HashIndex(proposals, hashes)
    && proposals.Keys == file.Keys - rest
    && forall id :: id in proposals ==> proposals[id] == ToProposal(file[id])
  }

  lemma LoadTurn(file: map<string, Record>, rest: set<string>, proposals: map<string, Proposal>, hashes: map<string, string>, id: string)
    requires LoadedBut(file, rest, proposals, hashes) && id in rest
    requires forall k :: k in file ==> file[k].proposalId == k
    ensures id in file && ToProposal(file[id]).id == id
    ensures var proposal := ToProposal(file[id]);
            LoadedBut(file, rest - {id}, proposals[id := proposal],
                      if proposal.requestHash != "" then hashes[proposal.requestHash := id] else hashes)
  {
    hide HashIndex, ToProposal;
    RecordKeepsId(file[id]);
    InsertKeepsIndex(proposals, hashes, ToProposal(file[id]));
  }

  lemma NothingLoaded(file: map<string, Record>)
    ensures LoadedBut(file, file.Keys, map[], map[])
  {
    IndexOfNothing();
  }

  lemma AllLoaded(file: map<string, Record>, proposals: map<string, Proposal>, hashes: map<string, string>)
    requires LoadedBut(file, {}, proposals, hashes)
    ensures HashIndex(proposals, hashes) && proposals == Reloaded(file)
  {
  }

  class Store {
    var memories: map<string, MemoryRow>
    var evidence: map<string, seq<EvidenceRow>>
    var proposals: map<string, Proposal>
    var proposalsHash: map<string, string>
    var continuity: seq<ContinuityRow>
    var accessBumps: map<string, int>
    var journal: seq<MutationEvent>
    var disk: Files

    ghost predicate Valid()
      reads this
    {
      HashIndex(proposals, proposalsHash)
    }

    ghost function Contents(): Live
      reads this
    {
      Live(memories, evidence, proposals, continuity)
    }

    // What a crash leaves: the journal and the files, nothing else.
    ghost function Durable(): (seq<MutationEvent>, Files)
      reads this
    {
      (journal, disk)
    }

    // Everything read back, then the journal replayed over it. A death while the
    // projections are rewritten leaves some of them rewritten.
    constructor Open(files: Files, events: seq<MutationEvent>)
      requires forall id :: id in files.proposals ==> files.proposals[id].proposalId == id
      ensures Valid() && journal == events && accessBumps == map[]
      ensures Contents() == Load(files, events)
      ensures exists n :: 0 <= n <= 4 && disk == Projected(files, Contents(), n)
    {
      memories, evidence, continuity := files.memories, files.evidence, files.continuity;
      proposals, proposalsHash, accessBumps := map[], map[], map[];
      journal, disk := events, files;
      new;
      LoadProposals();
      LoadMutationEvents();
    }

    method LoadProposals()
      requires proposals == map[] && proposalsHash == map[]
      requires forall id :: id in disk.proposals ==> disk.proposals[id].proposalId == id
      modifies `proposals, `proposalsHash
      ensures Valid() && proposals == Reloaded(disk.proposals)
    {
      hide HashIndex, ToProposal, LoadedBut, Reloaded;
      var rest := disk.proposals.Keys;
      NothingLoaded(disk.proposals);
      while rest != {}
        invariant LoadedBut(disk.proposals, rest, proposals, proposalsHash)
        decreases |rest|
      {
        var id :| id in rest;
        LoadTurn(disk.proposals, rest, proposals, proposalsHash, id);
        var proposal := ToProposal(disk.proposals[id]);
        proposals := proposals[proposal.id := proposal];
        if proposal.requestHash != "" {
          proposalsHash := proposalsHash[proposal.requestHash := proposal.id];
        }
        rest := rest - {id};
      }
      AllLoaded(disk.proposals, proposals, proposalsHash);
    }

    // loadMutationEvents, after the journal's chain and signatures are verified.
    method LoadMutationEvents()
      requires Valid()
      modifies this
      ensures Valid() && journal == old(journal) && accessBumps == old(accessBumps)
      ensures memories == LoadMemories(old(memories), journal)
      ensures evidence == ReplayEvidence(old(evidence), journal)
      ensures proposals == ReplayProposals(old(proposals), journal)
      ensures continuity == ReplayContinuity(old(continuity), journal)
      ensures exists n :: 0 <= n <= 4 && disk == Projected(old(disk), Contents(), n)
      ensures journal == [] ==> disk == old(disk)
    {
      var projected := memories;
      ReplayAll();
      if |journal| > 0 {
        memories := MergeRuntimeState(memories, projected);
        var died := RefreshProjections();
      } else {
        assert disk == Projected(old(disk), Contents(), 0);
      }
    }

    method ReplayAll()
      requires Valid()
      modifies this
      ensures Valid() && journal == old(journal) && accessBumps == old(accessBumps) && disk == old(disk)
      ensures memories == ReplayMemories(old(memories), journal)
      ensures evidence == ReplayEvidence(old(evidence), journal)
      ensures proposals == ReplayProposals(old(proposals), journal)
      ensures continuity == ReplayContinuity(old(continuity), journal)
    {
      hide ApplyMemories, ApplyEvidence, ApplyProposals, ApplyContinuity, ApplyHashes, HashIndex;
      var i := 0;
      while i < |journal|
        invariant i <= |journal| && Valid() && journal == old(journal) && accessBumps == old(accessBumps) && disk == old(disk)
        invariant memories == ReplayMemories(old(memories), journal[..i])
        invariant evidence == ReplayEvidence(old(evidence), journal[..i])
        invariant proposals == ReplayProposals(old(proposals), journal[..i])
        invariant continuity == ReplayContinuity(old(continuity), journal[..i])
      {
        assert journal[..i + 1][..i] == journal[..i] && journal[..i + 1][i] == journal[i];
        ApplyMutationEventLocked(journal[i]);
        i := i + 1;
      }
      assert journal[..i] == journal;
    }

    method ApplyMutationEventLocked(e: MutationEvent)
      requires Valid()
      modifies `memories, `evidence, `proposals, `proposalsHash, `continuity
      ensures Valid()
      ensures Contents() == ApplyEvent(old(Contents()), e)
      ensures proposalsHash == ApplyHashes(old(proposalsHash), old(proposals), e)
    {
      ApplyKeepsIndex(proposals, proposalsHash, e);
      hide HashIndex, ApplyMemories, ApplyEvidence, ApplyContinuity, Resolve;
      AdoptProposal(e);
      ChangeMemories(e);
      AddEvidence(e);
      ResolveProposal(e);
      LogChange(e);
    }

    method AdoptProposal(e: MutationEvent)
      modifies `proposals, `proposalsHash
      ensures proposalsHash == ApplyHashes(old(proposalsHash), old(proposals), e)
      ensures proposals == if e.proposal.Some? && e.proposal.value.id !in old(proposals)
                           then old(proposals)[e.proposal.value.id := e.proposal.value] else old(proposals)
    {
      if e.proposal.Some? && e.proposal.value.id !in proposals {
        proposals := proposals[e.proposal.value.id := e.proposal.value];
        if e.proposal.value.requestHash != "" {
          proposalsHash := proposalsHash[e.proposal.value.requestHash := e.proposal.value.id];
        }
      }
    }

    method ChangeMemories(e: MutationEvent)
      modifies `memories
      ensures memories == ApplyMemories(old(memories), e)
    {
      if e.newMemory.Some? {
        memories := memories[e.newMemory.value.memoryId := e.newMemory.value];
      }
      if e.updatedMemory.Some? {
        memories := memories[e.updatedMemory.value.memoryId := e.updatedMemory.value];
      }
      if e.targetMemoryId != "" && e.targetLifecycle != "" && e.targetMemoryId in memories {
        var row := memories[e.targetMemoryId];
        row := row.(lifecycle := e.targetLifecycle, stateVersion := e.expectedTargetVersion + 1, updatedAt := e.createdAt);
        memories := memories[row.memoryId := row];
      }
    }

    method AddEvidence(e: MutationEvent)
      modifies `evidence
      ensures evidence == ApplyEvidence(old(evidence), e)
    {
      hide Recorded;
      if e.evidence.memoryId != "" {
        var rows := if e.evidence.memoryId in evidence then evidence[e.evidence.memoryId] else [];
        var duplicate := HasEvidence(rows, e.evidence);
        if !duplicate {
          evidence := evidence[e.evidence.memoryId := rows + [e.evidence]];
        }
      }
    }

    method ResolveProposal(e: MutationEvent)
      modifies `proposals
      ensures proposals == if e.proposalId in old(proposals)
                           then old(proposals)[e.proposalId := Resolve(old(proposals)[e.proposalId], e)] else old(proposals)
    {
      if e.proposalId in proposals {
        var proposal := proposals[e.proposalId];
        proposal := proposal.(status := Applied, reasonCode := e.resolutionReason,
                              appliedMemoryId := EventMemoryId(e), resolvedAt := Some(e.createdAt));
        proposals := proposals[e.proposalId := proposal];
      }
    }

    method LogChange(e: MutationEvent)
      modifies `continuity
      ensures continuity == ApplyContinuity(old(continuity), e)
    {
      hide Logged;
      var logged := HasEvent(continuity, e.continuity.eventId);
      if !logged {
        continuity := continuity + [e.continuity];
      }
    }

    static method HasEvidence(rows: seq<EvidenceRow>, row: EvidenceRow) returns (duplicate: bool)
      ensures duplicate <==> Recorded(rows, row)
    {
      duplicate := false;
      var i := 0;
      while i < |rows|
        invariant i <= |rows| && !duplicate
        invariant forall k :: 0 <= k < i ==> !SameEvidence(rows[k], row)
      {
        if SameEvidence(rows[i], row) {
          duplicate := true;
          break;
        }
        i := i + 1;
      }
    }

    static method HasEvent(rows: seq<ContinuityRow>, eventId: string) returns (logged: bool)
      ensures logged <==> Logged(rows, eventId)
    {
      for i := 0 to |rows|
        invariant forall k :: 0 <= k < i ==> rows[k].eventId != eventId
      {
        if rows[i].eventId == eventId {
          return true;
        }
      }
      logged := false;
    }

    // Rewrites the four files; a death stops it between two of them.
    method RefreshProjections() returns (died: bool)
      modifies `disk
      ensures exists n :: 0 <= n <= 4 && disk == Projected(old(disk), Contents(), n)
      ensures !died ==> disk == Projected(old(disk), Contents(), 4)
    {
      hide Records;
      ghost var was := disk;
      died := *;
      if died {
        assert disk == Projected(was, Contents(), 0);
        return;
      }
      disk := disk.(memories := memories);
      assert disk == Projected(was, Contents(), 1);
      died := *;
      if died {
        return;
      }
      disk := disk.(proposals := Records(proposals));
      assert disk == Projected(was, Contents(), 2);
      died := *;
      if died {
        return;
      }
      disk := disk.(evidence := evidence);
      assert disk == Projected(was, Contents(), 3);
      died := *;
      if died {
        return;
      }
      disk := disk.(continuity := continuity);
      assert disk == Projected(was, Contents(), 4);
    }

    method FindProposalByHash(requestHash: string) returns (r: Option<Proposal>)
      requires Valid()
      ensures r.Some? <==> requestHash != "" && HashTaken(proposals, requestHash)
      ensures r.Some? ==> r.value.requestHash == requestHash && exists id :: id in proposals && proposals[id] == r.value
    {
      if requestHash in proposalsHash {
        var id := proposalsHash[requestHash];
        return Some(proposals[id]);
      }
      r := None;
    }

    // The state of the machine this store is the memory and disk of.
    ghost function Machine(): Sys
      reads this
    {
      Sys(map[], journal, Contents(), disk, Idle, {})
    }

    method StageProposal(p: Proposal, reason: string, now: int)
      requires Valid()
      requires p.id in proposals ==> proposals[p.id].requestHash == p.requestHash
      modifies `proposals, `proposalsHash, `disk
      ensures Valid() && Machine() == Governance.StageProposal(old(Machine()), p, reason, now)
    {
      var proposal := p.(status := Pending, reasonCode := reason, createdAt := now);
      proposals := proposals[proposal.id := proposal];
      if proposal.requestHash != "" {
        proposalsHash := proposalsHash[proposal.requestHash := proposal.id];
      }
      disk := disk.(proposals := Records(proposals));
    }

    method RejectProposal(proposalId: string, reason: string, now: int) returns (found: bool)
      requires Valid()
      modifies `proposals, `disk
      ensures Valid() && found == (proposalId in old(proposals))
      ensures Machine() == Governance.RejectProposal(old(Machine()), proposalId, reason, now)
    {
      if proposalId !in proposals {
        return false;
      }
      var proposal := proposals[proposalId].(status := Rejected, reasonCode := reason, resolvedAt := Some(now));
      proposals := proposals[proposalId := proposal];
      disk := disk.(proposals := Records(proposals));
      found := true;
    }

    // The checks CommitMutation makes, in its order.
    method CheckCommit(c: Commit) returns (admitted: bool)
      ensures admitted <==> Committable(Contents(), c)
    {
      if c.proposalId != "" {
        if c.proposalId !in proposals || proposals[c.proposalId].status != Pending
           || proposals[c.proposalId].requestHash != c.requestHash {
          return false;
        }
      } else if c.reviewAuthorization != ADMIN_RETIRE || c.requestHash == "" {
        return false;
      }
      if c.newMemory.Some? && c.newMemory.value.memoryId in memories {
        return false;
      }
      if c.updatedMemory.Some? && (c.targetMemoryId == "" || c.updatedMemory.value.memoryId != c.targetMemoryId) {
        return false;
      }
      if c.targetMemoryId != "" {
        if c.targetMemoryId !in memories || memories[c.targetMemoryId].lifecycle != ACTIVE
           || memories[c.targetMemoryId].stateVersion != c.expectedTargetVersion {
          return false;
        }
      }
      admitted := true;
    }

    // One commit: every check first, then the journal, then memory, then the
    // files. A refused commit changes nothing at all.
    method CommitMutation(c: Commit, eventId: string, now: int) returns (revision: Option<int>)
      requires Valid()
      modifies this
      ensures Valid() && accessBumps == old(accessBumps)
      ensures revision.Some? <==> Committable(old(Contents()), c)
      ensures revision.None? ==> Contents() == old(Contents()) && Durable() == old(Durable())
      ensures revision.Some? ==>
                var e := EventFor(old(Contents()), c, eventId, now);
                && revision.value == e.continuity.revision
                && journal == old(journal) + [e]
                && Contents() == ApplyEvent(old(Contents()), e)
                && exists n :: 0 <= n <= 4 && disk == Projected(old(disk), Contents(), n)
    {
      hide HashIndex, ApplyMemories, ApplyEvidence, ApplyProposals, ApplyContinuity, ApplyHashes, Records, Projected, Committable;
      var admitted := CheckCommit(c);
      if !admitted {
        return None;
      }
      var e := BuildEvent(c, eventId, now);
      journal := journal + [e];
      ApplyMutationEventLocked(e);
      var died := RefreshProjections();
      revision := Some(e.continuity.revision);
    }

    method BuildEvent(c: Commit, eventId: string, now: int) returns (e: MutationEvent)
      ensures e == EventFor(Contents(), c, eventId, now)
    {
      var committed: Option<Proposal> := None;
      if c.proposalId != "" && c.proposalId in proposals {
        committed := Some(proposals[c.proposalId]);
      }
      var newMemory := c.newMemory;
      if newMemory.Some? {
        newMemory := Some(WithDefaults(newMemory.value, now));
      }
      var next := 1;
      if |continuity| > 0 {
        next := continuity[|continuity| - 1].revision + 1;
      }
      var evidence := c.evidence;
      if evidence.createdAt == 0 {
        evidence := evidence.(createdAt := now);
      }
      e := MutationEvent(
        c.requestHash, c.mutation, c.proposalId, committed, c.resolutionReason, c.reviewAuthorization,
        newMemory, c.updatedMemory, c.targetMemoryId, c.expectedTargetVersion, c.targetLifecycle, evidence,
        ContinuityRow(next, eventId, c.changeKind, CommitMemoryId(c), c.relatedId, c.projectKey, c.sensitivity, c.traceId, now),
        now);
    }

    // ---- what changes without an event ----

    // Uses of a memory so far, counted in its row or waiting to be.
    ghost function Uses(id: string): int
      requires id in memories
      reads this
    {
      memories[id].runtime.accessCount + Waiting(accessBumps, id)
    }

    // Only a genuine use rewarms a memory; a search hit is counted and no more.
    method RecordAccess(id: string, sessionSeq: Option<int>, kind: AccessKind, now: int) returns (found: bool)
      modifies `memories, `accessBumps
      ensures found == (id in old(memories))
      ensures !found ==> memories == old(memories) && accessBumps == old(accessBumps)
      ensures found ==> AllSameGoverned(memories, old(memories)) && Uses(id) == old(Uses(id)) + 1
      ensures found ==> forall other :: other in memories && other != id ==>
                memories[other] == old(memories)[other] && Uses(other) == old(memories[other].runtime.accessCount + Waiting(accessBumps, other))
      ensures found ==>
                var was, after := old(memories[id].runtime), memories[id].runtime;
                && after.confidence == was.confidence && after.disputed == was.disputed && after.accessCount == was.accessCount
                && after.lastAccessedAt == Some(now)
                && after.activation == (if GenuineUse(kind) then 1.0 else was.activation)
                && after.lastUsedSeq == (if GenuineUse(kind) && sessionSeq.Some? then sessionSeq.value else was.lastUsedSeq)
    {
      if id !in memories {
        return false;
      }
      var row := memories[id];
      row := row.(runtime := row.runtime.(lastAccessedAt := Some(now)));
      if kind == AccessRecall || kind == AccessReflexCore || kind == AccessReflexImp {
        row := row.(runtime := row.runtime.(activation := 1.0));
        if sessionSeq.Some? {
          row := row.(runtime := row.runtime.(lastUsedSeq := sessionSeq.value));
        }
      }
      memories := memories[id := row];
      accessBumps := accessBumps[id := Waiting(accessBumps, id) + 1];
      found := true;
    }

    // Feedback moves confidence inside [0, 1]; blame never raises it and disputes
    // the memory, praise clears the dispute.
    method ApplyFeedback(id: string, sessionSeq: Option<int>, helped: bool, now: int) returns (found: bool)
      modifies `memories
      ensures found == (id in old(memories))
      ensures !found ==> memories == old(memories)
      ensures found ==> AllSameGoverned(memories, old(memories)) && Uses(id) == old(Uses(id)) + 1
      ensures found ==> forall other :: other in memories && other != id ==> memories[other] == old(memories)[other]
      ensures found ==>
                var was, after := old(memories[id].runtime), memories[id].runtime;
                && after.lastAccessedAt == Some(now)
                && (0.0 <= was.confidence <= 1.0 ==> 0.0 <= after.confidence <= 1.0)
                && (helped ==> (was.confidence <= 1.0 ==> was.confidence <= after.confidence) && !after.disputed && after.activation == 1.0)
                && (!helped ==> (0.0 <= was.confidence ==> after.confidence <= was.confidence) && after.disputed && after.activation == was.activation)
                && (helped && was.confidence <= 0.95 ==> after.confidence == was.confidence + 0.05)
                && (helped && was.confidence > 0.95 ==> after.confidence == 1.0)
                && (!helped && was.confidence >= 0.25 ==> after.confidence == was.confidence - 0.25)
                && (!helped && was.confidence < 0.25 ==> after.confidence == 0.0)
                && (helped && sessionSeq.Some? ==> after.lastUsedSeq == sessionSeq.value)
                && (!(helped && sessionSeq.Some?) ==> after.lastUsedSeq == was.lastUsedSeq)
    {
      if id !in memories {
        return false;
      }
      var row := memories[id];
      row := row.(runtime := row.runtime.(accessCount := row.runtime.accessCount + 1, lastAccessedAt := Some(now)));
      var confidence := row.runtime.confidence;
      if helped {
        confidence := confidence + 0.05;
        if confidence > 1.0 {
          confidence := 1.0;
        }
        row := row.(runtime := row.runtime.(confidence := confidence, activation := 1.0, disputed := false));
        if sessionSeq.Some? {
          row := row.(runtime := row.runtime.(lastUsedSeq := sessionSeq.value));
        }
      } else {
        confidence := confidence - 0.25;
        if confidence < 0.0 {
          confidence := 0.0;
        }
        row := row.(runtime := row.runtime.(confidence := confidence, disputed := true));
      }
      memories := memories[id := row];
      found := true;
    }

    // Moves every waiting use into its row, once; no use is lost or counted twice.
    method FlushAccessBumps()
      modifies `memories, `accessBumps, `disk
      ensures AllSameGoverned(memories, old(memories)) && accessBumps == map[]
      ensures forall id :: id in memories ==>
                memories[id] == Bumped(old(memories)[id], Waiting(old(accessBumps), id)) && Uses(id) == old(Uses(id))
      ensures disk == if old(accessBumps) == map[] then old(disk) else old(disk).(memories := memories)
    {
      if |accessBumps| == 0 {
        return;
      }
      memories := AddBumps(memories, accessBumps);
      accessBumps := map[];
      disk := disk.(memories := memories);
    }

    static method AddBumps(rows: map<string, MemoryRow>, bumps: map<string, int>) returns (after: map<string, MemoryRow>)
      ensures after.Keys == rows.Keys
      ensures forall id :: id in rows ==> after[id] == Bumped(rows[id], Waiting(bumps, id))
    {
      after := rows;
      var rest := bumps.Keys;
      while rest != {}
        invariant rest <= bumps.Keys && after.Keys == rows.Keys
        invariant forall id :: id in rows ==> after[id] == if id in rest then rows[id] else Bumped(rows[id], Waiting(bumps, id))
        decreases |rest|
      {
        var id :| id in rest;
        rest := rest - {id};
        if id !in after {
          continue;
        }
        var row := after[id];
        after := after[id := row.(runtime := row.runtime.(accessCount := row.runtime.accessCount + bumps[id]))];
      }
    }
  }
}
