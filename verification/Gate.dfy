// verifyMutation: the gate between a proposal and an automatic commit.
module Gate {
  import opened Wrappers
  import opened Memory
  import opened Quotes

  const USER := "user"
  const NORMAL := "NORMAL"
  const GLOBAL := "GLOBAL"
  const PROJECT := "PROJECT"

  datatype Message = Message(
    sessionId: string, role: string, content: string, sensitivity: string, secretLike: bool, instructionLike: bool)

  datatype Request = Request(
    sessionId: string, messageId: string, mutation: MutationKind, memoryKind: string, scope: string,
    subject: string, quote: string, targetMemoryId: string, replacement: string)

  // The word lists and detectors, left uninterpreted.
  datatype Policy = Policy(
    blocked: string -> bool,                       // secret-like or instruction-like text
    hasCue: (MutationKind, string) -> bool,
    overlaps: (string, string) -> bool,
    supported: (string, string) -> bool,
    validKind: string -> bool,
    validText: string -> bool)                     // valid UTF-8

  datatype Decision = Apply | Stage(gate: GateClass, reason: string)

  const INTENT_UNVERIFIED := "EXPLICIT_INTENT_NOT_VERIFIED"

  // The checks, in the order they are made.
  datatype Check =
    | Cited | OwnUser | Current | Clean | Quoted | TextClean | Cued
    | Untargeted | SubjectNamed                                           // of REMEMBER
    | Targeted | TargetMatches | TargetActive | TargetNormal | TargetClean | TargetNamed | Supported

  // What a failed check is called, and which gate it is: security where the text
  // itself is suspect, intent for a missing cue, structural elsewhere.
  function Held(c: Check): Decision {
    match c
    case Cited => Stage(GateStructural, "CITED_MESSAGE_REQUIRED")
    case OwnUser => Stage(GateStructural, "USER_EVIDENCE_MISMATCH")
    case Current => Stage(GateStructural, "CURRENT_USER_EVIDENCE_REQUIRED")
    case Clean => Stage(GateSecurity, "EVIDENCE_REQUIRES_REVIEW")
    case Quoted => Stage(GateStructural, QUOTE_REQUIRED)
    case TextClean => Stage(GateSecurity, "PROPOSED_CONTENT_POLICY_BLOCKED")
    case Cued => Stage(GateIntent, INTENT_UNVERIFIED)
    case Untargeted => Stage(GateStructural, "REMEMBER_TARGET_NOT_ALLOWED")
    case SubjectNamed => Stage(GateStructural, "MEMORY_SUBJECT_NOT_VERIFIED")
    case Targeted => Stage(GateStructural, "TARGET_MEMORY_REQUIRED")
    case TargetMatches => Stage(GateStructural, "TARGET_MEMORY_MISMATCH")
    case TargetActive => Stage(GateStructural, "TARGET_MEMORY_INACTIVE")
    case TargetNormal => Stage(GateSecurity, "TARGET_REQUIRES_REVIEW")
    case TargetClean => Stage(GateSecurity, "TARGET_CONTENT_POLICY_BLOCKED")
    case TargetNamed => Stage(GateStructural, "TARGET_MEMORY_NOT_VERIFIED")
    case Supported => Stage(GateStructural, "REPLACEMENT_NOT_VERIFIED")
  }

  // The first check that fails. Evidence is the archived message cited by the
  // request, of the request's own client.
  function FailedCheck(
    policy: Policy, request: Request, evidence: Message, currentTurn: bool, target: Option<MemoryRow>, reviewed: bool): Option<Check>
  {
    if request.messageId == "" then Some(Cited)
    else if evidence.role != USER || evidence.sessionId != request.sessionId then Some(OwnUser)
    else if !currentTurn then Some(Current)
    else if evidence.sensitivity != NORMAL || evidence.secretLike || evidence.instructionLike then Some(Clean)
    else if request.quote == "" || FindFrom(evidence.content, request.quote, 0).None? then Some(Quoted)
    else if policy.blocked(request.subject + "\n" + request.replacement) then Some(TextClean)
    else if !reviewed && !policy.hasCue(request.mutation, request.quote) then Some(Cued)
    else if request.mutation == Remember then
      if target.Some? || request.targetMemoryId != "" then Some(Untargeted)
      else if !policy.overlaps(request.subject, request.quote) then Some(SubjectNamed)
      else None
    else if target.None? || request.targetMemoryId == "" then Some(Targeted)
    else if request.targetMemoryId != target.value.memoryId then Some(TargetMatches)
    else if !policy.validKind(target.value.kind) || target.value.lifecycle != ACTIVE then Some(TargetActive)
    else if target.value.sensitivity != NORMAL then Some(TargetNormal)
    else if policy.blocked(target.value.subject + "\n" + target.value.content) then Some(TargetClean)
    else if !policy.overlaps(target.value.subject + " " + target.value.content, request.quote) then Some(TargetNamed)
    else if request.mutation == Correct && !policy.supported(request.replacement, request.quote) then Some(Supported)
    else None
  }

  function Verify(
    policy: Policy, request: Request, evidence: Message, currentTurn: bool, target: Option<MemoryRow>, reviewed: bool): Decision
  {
    match FailedCheck(policy, request, evidence, currentTurn, target, reviewed)
    case None => Apply
    case Some(c) => Held(c)
  }

  // ---- what a request must be ----

  // The message speaks for itself and for the request's session.
  ghost predicate Speaks(request: Request, evidence: Message) {
    && request.messageId != "" && evidence.role == USER && evidence.sessionId == request.sessionId
    && evidence.sensitivity == NORMAL && !evidence.secretLike && !evidence.instructionLike
    && request.quote != "" && Contains(evidence.content, request.quote)
  }

  // The target is the one named, active, harmless, and what the quote is about.
  ghost predicate Concerns(policy: Policy, request: Request, t: MemoryRow) {
    && request.targetMemoryId == t.memoryId != "" && t.lifecycle == ACTIVE && t.sensitivity == NORMAL
    && policy.validKind(t.kind)
    && !policy.blocked(t.subject + "\n" + t.content)
    && policy.overlaps(t.subject + " " + t.content, request.quote)
  }

  // What the words of a request must be, apart from the cue.
  ghost predicate Worded(policy: Policy, request: Request, target: Option<MemoryRow>) {
    && !policy.blocked(request.subject + "\n" + request.replacement)
    && match request.mutation
       case Remember => target.None? && request.targetMemoryId == "" && policy.overlaps(request.subject, request.quote)
       case Correct => target.Some? && Concerns(policy, request, target.value) && policy.supported(request.replacement, request.quote)
       case Forget => target.Some? && Concerns(policy, request, target.value)
  }

  // What is applied is exactly what passes every check: the cascade has no other
  // way out.
  lemma AppliesIff(
    policy: Policy, request: Request, evidence: Message, currentTurn: bool, target: Option<MemoryRow>, reviewed: bool)
    ensures FailedCheck(policy, request, evidence, currentTurn, target, reviewed).None? <==>
              Verify(policy, request, evidence, currentTurn, target, reviewed) == Apply
    ensures Verify(policy, request, evidence, currentTurn, target, reviewed) == Apply <==>
            && currentTurn && Speaks(request, evidence) && Worded(policy, request, target)
            && (reviewed || policy.hasCue(request.mutation, request.quote))
  {
    QuoteFound(request, evidence);
    hide FindFrom, OccursAt;
  }

  lemma QuoteFound(request: Request, evidence: Message)
    ensures FindFrom(evidence.content, request.quote, 0).Some? <==> Contains(evidence.content, request.quote)
  {
    var found := FindFrom(evidence.content, request.quote, 0);
    if found.Some? {
      assert OccursAt(evidence.content, request.quote, found.value);
    } else {
      assert forall i :: OccursAt(evidence.content, request.quote, i) ==> 0 <= i;
    }
  }

  // Held back for intent, and so open to a reviewer, is exactly what lacks the cue
  // and has passed every check before that one.
  lemma HeldForIntentIff(
    policy: Policy, request: Request, evidence: Message, currentTurn: bool, target: Option<MemoryRow>)
    ensures Verify(policy, request, evidence, currentTurn, target, false) == Stage(GateIntent, INTENT_UNVERIFIED) <==>
            && currentTurn && Speaks(request, evidence) && !policy.blocked(request.subject + "\n" + request.replacement)
            && !policy.hasCue(request.mutation, request.quote)
    ensures var d := Verify(policy, request, evidence, currentTurn, target, false);
            d.Stage? && d.gate == GateIntent ==> d.reason == INTENT_UNVERIFIED
  {
    QuoteFound(request, evidence);
    hide FindFrom, OccursAt;
  }

  // ---- why a request is held back ----

  function Place(c: Check): nat {
    match c
    case Cited => 0 case OwnUser => 1 case Current => 2 case Clean => 3 case Quoted => 4 case TextClean => 5 case Cued => 6
    case Untargeted => 7 case SubjectNamed => 8
    case Targeted => 9 case TargetMatches => 10 case TargetActive => 11 case TargetNormal => 12 case TargetClean => 13
    case TargetNamed => 14 case Supported => 15
  }

  ghost predicate Contains(content: string, quote: string) {
    exists i :: OccursAt(content, quote, i)
  }

  ghost predicate Passes(
    c: Check, policy: Policy, request: Request, evidence: Message, currentTurn: bool, target: Option<MemoryRow>, reviewed: bool)
  {
    var changing := request.mutation != Remember;
    match c
    case Cited => request.messageId != ""
    case OwnUser => evidence.role == USER && evidence.sessionId == request.sessionId
    case Current => currentTurn
    case Clean => evidence.sensitivity == NORMAL && !evidence.secretLike && !evidence.instructionLike
    case Quoted => request.quote != "" && Contains(evidence.content, request.quote)
    case TextClean => !policy.blocked(request.subject + "\n" + request.replacement)
    case Cued => reviewed || policy.hasCue(request.mutation, request.quote)
    case Untargeted => !changing ==> target.None? && request.targetMemoryId == ""
    case SubjectNamed => !changing ==> policy.overlaps(request.subject, request.quote)
    case Targeted => changing ==> target.Some? && request.targetMemoryId != ""
    case TargetMatches => changing && target.Some? ==> request.targetMemoryId == target.value.memoryId
    case TargetActive => changing && target.Some? ==> policy.validKind(target.value.kind) && target.value.lifecycle == ACTIVE
    case TargetNormal => changing && target.Some? ==> target.value.sensitivity == NORMAL
    case TargetClean => changing && target.Some? ==> !policy.blocked(target.value.subject + "\n" + target.value.content)
    case TargetNamed =>
      changing && target.Some? ==> policy.overlaps(target.value.subject + " " + target.value.content, request.quote)
    case Supported => request.mutation == Correct ==> policy.supported(request.replacement, request.quote)
  }

  // The first check of that order which the request fails.
  ghost predicate FailsFirst(
    c: Check, policy: Policy, request: Request, evidence: Message, currentTurn: bool, target: Option<MemoryRow>, reviewed: bool)
  {
    && !Passes(c, policy, request, evidence, currentTurn, target, reviewed)
    && forall d :: Place(d) < Place(c) ==> Passes(d, policy, request, evidence, currentTurn, target, reviewed)
  }

  // The cascade finds it, or there is none; the decision bears its name.
  lemma HeldByTheFirstFailure(
    policy: Policy, request: Request, evidence: Message, currentTurn: bool, target: Option<MemoryRow>, reviewed: bool)
    ensures match FailedCheck(policy, request, evidence, currentTurn, target, reviewed)
            case Some(c) =>
              && FailsFirst(c, policy, request, evidence, currentTurn, target, reviewed)
              && Verify(policy, request, evidence, currentTurn, target, reviewed) == Held(c)
            case None => forall d :: Passes(d, policy, request, evidence, currentTurn, target, reviewed)
  {
    QuoteFound(request, evidence);
    hide Held, FindFrom, Contains;
    var failed := FailedCheck(policy, request, evidence, currentTurn, target, reviewed);
    forall d | failed.Some? ==> Place(d) < Place(failed.value)
      ensures Passes(d, policy, request, evidence, currentTurn, target, reviewed)
    {
    }
  }

  // The security gate stands where text or its sensitivity is suspect, the intent
  // gate at the missing cue alone.
  lemma HeldTellsWhy(c: Check)
    ensures Held(c).Stage?
    ensures Held(c).gate == GateIntent <==> c == Cued
    ensures Held(c).gate == GateSecurity <==> c == Clean || c == TextClean || c == TargetNormal || c == TargetClean
    ensures Held(c).gate != GateNone
  {
  }

  // The names a client sees.
  lemma HeldIsNamed()
    ensures Held(Cited).reason == "CITED_MESSAGE_REQUIRED" && Held(OwnUser).reason == "USER_EVIDENCE_MISMATCH"
    ensures Held(Current).reason == "CURRENT_USER_EVIDENCE_REQUIRED" && Held(Clean).reason == "EVIDENCE_REQUIRES_REVIEW"
    ensures Held(Quoted).reason == "EXACT_EVIDENCE_QUOTE_REQUIRED" && Held(TextClean).reason == "PROPOSED_CONTENT_POLICY_BLOCKED"
    ensures Held(Cued).reason == "EXPLICIT_INTENT_NOT_VERIFIED" && Held(Untargeted).reason == "REMEMBER_TARGET_NOT_ALLOWED"
    ensures Held(SubjectNamed).reason == "MEMORY_SUBJECT_NOT_VERIFIED" && Held(Targeted).reason == "TARGET_MEMORY_REQUIRED"
    ensures Held(TargetMatches).reason == "TARGET_MEMORY_MISMATCH" && Held(TargetActive).reason == "TARGET_MEMORY_INACTIVE"
    ensures Held(TargetNormal).reason == "TARGET_REQUIRES_REVIEW" && Held(TargetClean).reason == "TARGET_CONTENT_POLICY_BLOCKED"
    ensures Held(TargetNamed).reason == "TARGET_MEMORY_NOT_VERIFIED" && Held(Supported).reason == "REPLACEMENT_NOT_VERIFIED"
  {
  }

  // So a request is applied when it passes all of them, and otherwise held back
  // for the first that fails.
  lemma VerifyIs(
    policy: Policy, request: Request, evidence: Message, currentTurn: bool, target: Option<MemoryRow>, reviewed: bool)
    ensures var d := Verify(policy, request, evidence, currentTurn, target, reviewed);
            && (d == Apply <==> forall c :: Passes(c, policy, request, evidence, currentTurn, target, reviewed))
            && (d.Stage? <==> exists c :: FailsFirst(c, policy, request, evidence, currentTurn, target, reviewed) && d == Held(c))
  {
    hide Passes, FailedCheck, Held;
    HeldByTheFirstFailure(policy, request, evidence, currentTurn, target, reviewed);
    forall c ensures Held(c).Stage? {
      HeldTellsWhy(c);
    }
  }

  // Review lifts the intent check and nothing else: it applies exactly the
  // requests that would apply as they are, or were held back for intent alone.
  lemma ReviewOverridesOnlyIntent(
    policy: Policy, request: Request, evidence: Message, currentTurn: bool, target: Option<MemoryRow>)
    ensures Verify(policy, request, evidence, currentTurn, target, false) == Apply ==>
              Verify(policy, request, evidence, currentTurn, target, true) == Apply
    ensures Verify(policy, request, evidence, currentTurn, target, true) == Apply ==>
              || Verify(policy, request, evidence, currentTurn, target, false) == Apply
              || Verify(policy, request, evidence, currentTurn, target, false) == Stage(GateIntent, INTENT_UNVERIFIED)
    ensures Verify(policy, request, evidence, currentTurn, target, true) == Apply ==>
              evidence.role == USER && evidence.sensitivity == NORMAL && !evidence.secretLike && !evidence.instructionLike
              && request.quote != "" && Contains(evidence.content, request.quote)
  {
    var found := FindFrom(evidence.content, request.quote, 0);
    if found.Some? {
      assert OccursAt(evidence.content, request.quote, found.value);
    }
  }
}
