// The JSON shape of a proposal, and what survives writing it and reading it back.
module ProposalRecords {
  import opened Wrappers
  import opened Memory
  import opened Encoding
  import opened Framing

  datatype Record = Record(
    proposalId: string, sourceClientKey: string, sourceSessionId: string, sourceMessageId: string,
    mutationKind: MutationKind, targetMemoryId: string, proposedKind: string, subject: string,
    replacementContent: string, status: ProposalStatus, reasonCode: string, gateClass: GateClass,
    createdAt: int, resolvedAt: Option<int>, requestHash: string,
    evidenceQuoteHash: string, evidenceContentHash: string, evidenceStartByte: int, evidenceEndByte: int,
    scopeType: string, projectKey: string, appliedMemoryId: string)

  function FromProposal(p: Proposal): Record {
    var quote := if p.identity.evidence.Some? then p.identity.evidence.value else Quote("", 0, 0);
    Record(p.id, p.identity.clientKey, p.identity.sessionId, p.identity.messageId,
           p.identity.mutation, p.identity.targetMemoryId, p.identity.proposedKind, p.identity.subject,
           p.identity.replacement, p.status, p.reasonCode, p.gateClass,
           p.createdAt, p.resolvedAt, p.requestHash,
           quote.hash, p.identity.evidenceContentHash, quote.startByte, quote.endByte,
           p.identity.scope, p.identity.projectKey, p.appliedMemoryId)
  }

  function ToProposal(r: Record): Proposal {
    var evidence := if r.evidenceQuoteHash != "" && r.evidenceEndByte > r.evidenceStartByte
                    then Some(Quote(r.evidenceQuoteHash, r.evidenceStartByte, r.evidenceEndByte)) else None;
    var identity := Identity(r.sourceClientKey, r.sourceSessionId, r.sourceMessageId, r.mutationKind, r.targetMemoryId,
                             r.proposedKind, r.scopeType, r.projectKey, r.subject, r.replacementContent,
                             r.evidenceQuoteHash, r.evidenceContentHash, evidence);
    Proposal(r.proposalId, r.requestHash, r.reasonCode, r.appliedMemoryId, r.gateClass, identity, r.status,
             r.createdAt, r.resolvedAt)
  }

  function Reload(p: Proposal): Proposal {
    ToProposal(FromProposal(p))
  }

  // The requested quote was bound to exactly one place in its message.
  predicate Bound(identity: Identity) {
    && identity.evidence.Some?
    && identity.evidence.value.hash != ""
    && identity.evidence.value.startByte < identity.evidence.value.endByte
    && identity.requestEvidenceHash == identity.evidence.value.hash
  }

  // A proposal survives the file exactly when its quote is bound, or it never
  // named a quote at all.
  lemma ReloadIsIdentityIff(p: Proposal)
    ensures Reload(p) == p <==> Bound(p.identity) || (p.identity.evidence.None? && p.identity.requestEvidenceHash == "")
  {
  }

  // A proposal staged because its quote did not bind loses the quote's hash.
  lemma UnboundProposalIsNotRestored()
    ensures var identity := Identity("c", "s", "m", Remember, "", "k", "GLOBAL", "", "subject", "", "sha256:q", "sha256:m", None);
            var p := Proposal("p", "sha256:r", "EXACT_EVIDENCE_QUOTE_REQUIRED", "", GateStructural, identity, Pending, 0, None);
            Reload(p).identity.requestEvidenceHash == "" != p.identity.requestEvidenceHash
  {
  }

  // ---- the request hash ----

  // SHA-256 as far as it matters: different inputs, different digests.
  ghost predicate CollisionFree(sha256: Bytes -> string) {
    forall a, b :: sha256(a) == sha256(b) ==> a == b
  }

  function KindName(kind: MutationKind): string {
    match kind
    case Remember => "REMEMBER"
    case Correct => "CORRECT"
    case Forget => "FORGET"
  }

  function Texts(i: Identity): seq<string> {
    [i.clientKey, i.sessionId, i.messageId, KindName(i.mutation), i.targetMemoryId, i.proposedKind, i.scope, i.projectKey,
     i.subject, i.replacement, i.requestEvidenceHash, i.evidenceContentHash]
  }

  function HashedFields(i: Identity): (fields: seq<Bytes>)
    ensures |fields| == |Texts(i)| && forall k :: 0 <= k < |fields| ==> fields[k] == Utf8(Texts(i)[k])
  {
    seq(|Texts(i)|, k requires 0 <= k < |Texts(i)| => Utf8(Texts(i)[k]))
  }

  // Every field has a length that eight bytes can say.
  ghost predicate Hashable(i: Identity) {
    Representable(HashedFields(i))
  }

  function RequestHash(sha256: Bytes -> string, i: Identity): string {
    sha256(Frame(HashedFields(i)))
  }

  // The request hash names the identity, all but the position of its evidence.
  lemma RequestHashIsInjective(sha256: Bytes -> string, a: Identity, b: Identity)
    requires CollisionFree(sha256) && Hashable(a) && Hashable(b)
    ensures RequestHash(sha256, a) == RequestHash(sha256, b) <==> a.(evidence := None) == b.(evidence := None)
  {
    hide Frame, HashedFields, Texts;
    FrameIsInjective(HashedFields(a), HashedFields(b));
    SameFields(a, b);
    SameTexts(a, b);
  }

  lemma SameFields(a: Identity, b: Identity)
    ensures HashedFields(a) == HashedFields(b) <==> Texts(a) == Texts(b)
  {
    hide Texts, HashedFields;
    if HashedFields(a) == HashedFields(b) {
      forall k | 0 <= k < |Texts(a)| ensures Texts(a)[k] == Texts(b)[k] {
        assert HashedFields(a)[k] == HashedFields(b)[k];
        Utf8IsInjective(Texts(a)[k], Texts(b)[k]);
      }
    }
  }

  lemma SameTexts(a: Identity, b: Identity)
    ensures Texts(a) == Texts(b) <==> a.(evidence := None) == b.(evidence := None)
  {
    KindNames(a.mutation, b.mutation);
    hide KindName;
    var x, y := Texts(a), Texts(b);
    if x == y {
      assert x[0] == y[0] && x[1] == y[1] && x[2] == y[2] && x[3] == y[3] && x[4] == y[4] && x[5] == y[5];
      assert x[6] == y[6] && x[7] == y[7] && x[8] == y[8] && x[9] == y[9] && x[10] == y[10] && x[11] == y[11];
    }
  }

  lemma KindNames(a: MutationKind, b: MutationKind)
    ensures KindName(a) == KindName(b) ==> a == b
  {
    assert |KindName(Remember)| == 8 && |KindName(Correct)| == 7 && |KindName(Forget)| == 6;
  }

  // After a restart the commit check recomputes the stored request hash exactly
  // when the requested quote is the bound one.
  lemma ReloadedHashMatchesIff(sha256: Bytes -> string, p: Proposal)
    requires CollisionFree(sha256) && p.requestHash == RequestHash(sha256, p.identity)
    requires Hashable(p.identity) && Hashable(Reload(p).identity)
    ensures RequestHash(sha256, Reload(p).identity) == Reload(p).requestHash <==>
            p.identity.requestEvidenceHash == (if p.identity.evidence.Some? then p.identity.evidence.value.hash else "")
  {
    hide HashedFields, Frame;
    RequestHashIsInjective(sha256, Reload(p).identity, p.identity);
  }

  lemma KeepAllIsCollisionFree()
    ensures CollisionFree(KeepAll)
  {
    forall a, b | KeepAll(a) == KeepAll(b) ensures a == b {
      KeepAllIsInjective(a, b);
    }
  }

  // The assumptions above can be met together: by a digest without collisions
  // and, whatever the digest, by every identity of fields shorter than 2^62.
  lemma HashingIsPossible(i: Identity)
    requires forall k :: 0 <= k < |Texts(i)| ==> |Texts(i)[k]| < 0x4000_0000_0000_0000
    ensures CollisionFree(KeepAll) && Hashable(i)
  {
    KeepAllIsCollisionFree();
    hide Utf8, Texts, CollisionFree;
    forall k | 0 <= k < |Texts(i)| ensures |HashedFields(i)[k]| < MAX_LENGTH {
      Utf8Length(Texts(i)[k]);
    }
  }

  // ---- what the file and the hash say ----

  // Each field of a proposal under its name in the file.
  lemma FieldsOnFile(p: Proposal)
    ensures var r, i := FromProposal(p), p.identity;
            && r.proposalId == p.id && r.requestHash == p.requestHash && r.status == p.status && r.reasonCode == p.reasonCode
            && r.gateClass == p.gateClass && r.createdAt == p.createdAt && r.resolvedAt == p.resolvedAt
            && r.appliedMemoryId == p.appliedMemoryId
            && r.sourceClientKey == i.clientKey && r.sourceSessionId == i.sessionId && r.sourceMessageId == i.messageId
            && r.mutationKind == i.mutation && r.targetMemoryId == i.targetMemoryId && r.proposedKind == i.proposedKind
            && r.scopeType == i.scope && r.projectKey == i.projectKey && r.subject == i.subject
            && r.replacementContent == i.replacement && r.evidenceContentHash == i.evidenceContentHash
            && (i.evidence.Some? ==> r.evidenceQuoteHash == i.evidence.value.hash
                                     && r.evidenceStartByte == i.evidence.value.startByte && r.evidenceEndByte == i.evidence.value.endByte)
            && (i.evidence.None? ==> r.evidenceQuoteHash == "" && r.evidenceStartByte == r.evidenceEndByte == 0)
  {
  }

  // The digest is over these twelve texts, in this order, each framed.
  lemma HashedText(sha256: Bytes -> string, i: Identity)
    ensures RequestHash(sha256, i) == sha256(Frame(HashedFields(i))) && |HashedFields(i)| == 12
    ensures HashedFields(i)[0] == Utf8(i.clientKey) && HashedFields(i)[1] == Utf8(i.sessionId) && HashedFields(i)[2] == Utf8(i.messageId)
    ensures HashedFields(i)[3] == Utf8(match i.mutation case Remember => "REMEMBER" case Correct => "CORRECT" case Forget => "FORGET")
    ensures HashedFields(i)[4] == Utf8(i.targetMemoryId) && HashedFields(i)[5] == Utf8(i.proposedKind)
    ensures HashedFields(i)[6] == Utf8(i.scope) && HashedFields(i)[7] == Utf8(i.projectKey) && HashedFields(i)[8] == Utf8(i.subject)
    ensures HashedFields(i)[9] == Utf8(i.replacement) && HashedFields(i)[10] == Utf8(i.requestEvidenceHash)
    ensures HashedFields(i)[11] == Utf8(i.evidenceContentHash)
  {
    hide Frame, Utf8;
  }
}
