// The signed mutation journal: hash chain, key rotation, and the three loops
// that verify it.
module SignedJournal {
  import opened Wrappers
  import opened Jsonl
  import opened CrashDisk

  const MIN_KEY_BYTES := 32
  const LINE_MAX := 0x100_0000   // of the scanner in readJSONL

  // Everything the event hash covers; payload is the mutation itself, as
  // marshalled.
  datatype EventBody<P> = EventBody(version: int, seq_: int, payload: P, previousHash: string)

  datatype Event<P> = Event(body: EventBody<P>, eventHash: string, keyId: string, hmac: string)

  datatype RotationBody = RotationBody(
    version: int, sequence: int, rotationId: string, previousRotationHash: string, eventHeadHash: string,
    previousKeyId: string, newKeyId: string, createdAt: int)

  datatype Rotation = Rotation(
    body: RotationBody, rotationHash: string, previousKeyHmac: string, newKeyHmac: string)

  // SHA-256 over marshalled records, HMAC (section 2 of RFC 2104), the key
  // fingerprint, and the two line codecs.
  datatype Env<!P> = Env(
    eventHash: EventBody<P> -> string, rotationHash: RotationBody -> string,
    hmac: (Bytes, string) -> string, keyId: Bytes -> string,
    events: Codec<Event<P>>, rotations: Codec<Rotation>)

  // Of HMAC nothing is assumed; a record also names its key, and different keys
  // have different names.
  ghost predicate CollisionFree<P(!new)>(env: Env<P>) {
    && (forall x, y :: env.eventHash(x) == env.eventHash(y) ==> x == y)
    && (forall x :: env.eventHash(x) != "")
    && (forall k, l :: env.keyId(k) == env.keyId(l) ==> k == l)
  }

  ghost predicate LawfulCodecs<P(!new)>(env: Env<P>) {
    Lawful(env.events) && Lawful(env.rotations)
  }

  // ---- what is accepted ----

  function HeadHash<P>(events: seq<Event<P>>): string {
    if events == [] then "" else events[|events| - 1].eventHash
  }

  predicate LinkOk<P>(env: Env<P>, e: Event<P>, previousSeq: int, previousHash: string) {
    && (e.body.version == 2 || e.body.version == 3)
    && e.body.seq_ == previousSeq + 1
    && e.body.previousHash == previousHash
    && env.eventHash(e.body) == e.eventHash
  }

  ghost predicate Chained<P>(env: Env<P>, events: seq<Event<P>>) {
    forall i :: 0 <= i < |events| ==> LinkOk(env, events[i], i, HeadHash(events[..i]))
  }

  predicate SignedBy<P>(env: Env<P>, key: Bytes, e: Event<P>) {
    e.hmac == env.hmac(key, e.eventHash) && e.keyId == env.keyId(key)
  }

  // Signatures bind from start on.
  ghost predicate SignedFrom<P>(env: Env<P>, key: Bytes, events: seq<Event<P>>, start: nat) {
    forall i :: start <= i < |events| ==> SignedBy(env, key, events[i])
  }

  // The anchor is the head hash at the last rotation; events up to it are
  // vouched for by the chain, those after it must carry the current signature.
  ghost predicate AnchoredAt<P>(events: seq<Event<P>>, anchor: string, start: nat) {
    start <= |events|
    && if anchor == "" then start == 0
       else start > 0 && events[start - 1].eventHash == anchor
            && forall i :: 0 <= i < start - 1 ==> events[i].eventHash != anchor
  }

  ghost predicate Accepts<P>(env: Env<P>, key: Bytes, anchor: string, events: seq<Event<P>>) {
    && Chained(env, events)
    && exists start :: AnchoredAt(events, anchor, start) && (key != [] ==> SignedFrom(env, key, events, start))
  }

  function RotationHead(rotations: seq<Rotation>): string {
    if rotations == [] then "" else rotations[|rotations| - 1].rotationHash
  }

  function AnchorOf(rotations: seq<Rotation>): string {
    if rotations == [] then "" else rotations[|rotations| - 1].body.eventHeadHash
  }

  predicate RotationLinkOk<P>(env: Env<P>, r: Rotation, previousSeq: int, previousHash: string) {
    && r.body.version == 1
    && r.body.sequence == previousSeq + 1
    && r.body.previousRotationHash == previousHash
    && env.rotationHash(r.body) == r.rotationHash
  }

  ghost predicate RotationsChained<P>(env: Env<P>, rotations: seq<Rotation>) {
    forall i :: 0 <= i < |rotations| ==> RotationLinkOk(env, rotations[i], i, RotationHead(rotations[..i]))
  }

  predicate RotatedTo<P>(env: Env<P>, key: Bytes, last: Rotation) {
    && |key| >= MIN_KEY_BYTES
    && last.body.newKeyId == env.keyId(key)
    && last.newKeyHmac == env.hmac(key, last.rotationHash)
  }

  ghost predicate RotationsAccept<P>(env: Env<P>, key: Bytes, rotations: seq<Rotation>) {
    RotationsChained(env, rotations) && (rotations != [] ==> RotatedTo(env, key, rotations[|rotations| - 1]))
  }

  // A file both loaders refuse to read: nothing, or newline-terminated lines.
  function Records<T>(codec: Codec<T>, data: Bytes): Option<seq<T>> {
    if data != [] && data[|data| - 1] != NEWLINE then None else ParseLines(codec, Tokens(data))
  }

  // What these two files and this key must be: the demand of VerifyDataDir.
  ghost predicate Verifies<P>(env: Env<P>, key: Bytes, events: Bytes, rotations: Bytes) {
    && Records(env.rotations, rotations).Some?
    && RotationsAccept(env, key, Records(env.rotations, rotations).value)
    && Records(env.events, events).Some?
    && Accepts(env, key, AnchorOf(Records(env.rotations, rotations).value), Records(env.events, events).value)
  }

  // The store also has to hold each event line in its scanner's buffer.
  ghost predicate Opens<P>(env: Env<P>, key: Bytes, events: Bytes, rotations: Bytes) {
    Verifies(env, key, events, rotations) && Scannable(LINE_MAX, events)
  }

  // ---- what that says of each record ----

  // An accepted journal numbers its events from one, each naming the digest of
  // the one before and bearing its own; behind the event the anchor names, or
  // from the first if there is none, each bears the key's name and signature.
  lemma AcceptedIff<P(!new)>(env: Env<P>, key: Bytes, anchor: string, events: seq<Event<P>>)
    ensures Accepts(env, key, anchor, events) <==>
            && (forall k :: 0 <= k < |events| ==> WellLinked(env, events, k))
            && (anchor == "" || exists k :: 0 <= k < |events| && events[k].eventHash == anchor)
            && (key != [] ==> forall k :: 0 <= k < |events| && Behind(events, anchor, k) ==>
                                events[k].hmac == env.hmac(key, events[k].eventHash) && events[k].keyId == env.keyId(key))
  {
    ChainedIff(env, events);
    AnchorPlace(env, key, anchor, events);
    hide Chained, WellLinked, Behind, AnchoredAt;
    if exists start :: AnchoredAt(events, anchor, start) {
      var start: nat :| AnchoredAt(events, anchor, start);
      OneAnchor(events, anchor, start);
    }
  }

  lemma OneAnchor<P>(events: seq<Event<P>>, anchor: string, start: nat)
    requires AnchoredAt(events, anchor, start)
    ensures forall other :: AnchoredAt(events, anchor, other) ==> other == start
  {
    forall other: nat | AnchoredAt(events, anchor, other) ensures other == start {
      assert anchor != "" ==> events[start - 1].eventHash == anchor && events[other - 1].eventHash == anchor;
    }
  }

  lemma ChainedIff<P(!new)>(env: Env<P>, events: seq<Event<P>>)
    ensures Chained(env, events) <==> forall k :: 0 <= k < |events| ==> WellLinked(env, events, k)
  {
    if forall k :: 0 <= k < |events| ==> WellLinked(env, events, k) {
      forall k | 0 <= k < |events| ensures LinkOk(env, events[k], k, HeadHash(events[..k])) {
        assert WellLinked(env, events, k);
      }
    }
    if Chained(env, events) {
      forall k | 0 <= k < |events| ensures WellLinked(env, events, k) {
        assert LinkOk(env, events[k], k, HeadHash(events[..k]));
      }
    }
  }

  ghost predicate WellLinked<P>(env: Env<P>, events: seq<Event<P>>, k: nat)
    requires k < |events|
  {
    var body := events[k].body;
    && (body.version == 2 || body.version == 3) && body.seq_ == k + 1
    && body.previousHash == (if k == 0 then "" else events[k - 1].eventHash)
    && events[k].eventHash == env.eventHash(body)
  }

  // The anchor was met before this event.
  ghost predicate Behind<P>(events: seq<Event<P>>, anchor: string, k: nat)
    requires k < |events|
  {
    anchor == "" || exists j :: 0 <= j < k && events[j].eventHash == anchor
  }

  lemma AnchorPlace<P(!new)>(env: Env<P>, key: Bytes, anchor: string, events: seq<Event<P>>)
    ensures (exists start :: AnchoredAt(events, anchor, start)) <==>
              anchor == "" || exists k :: 0 <= k < |events| && events[k].eventHash == anchor
    ensures forall start: nat, k: nat :: AnchoredAt(events, anchor, start) && k < |events| ==> (Behind(events, anchor, k) <==> start <= k)
  {
    if anchor == "" {
      assert AnchoredAt(events, anchor, 0);
    } else if exists k :: 0 <= k < |events| && events[k].eventHash == anchor {
      var first := FirstPlace(events, anchor);
      assert AnchoredAt(events, anchor, first + 1);
    }
  }

  lemma {:induction false} FirstPlace<P(!new)>(events: seq<Event<P>>, anchor: string) returns (first: nat)
    requires exists k :: 0 <= k < |events| && events[k].eventHash == anchor
    ensures first < |events| && events[first].eventHash == anchor && forall i :: 0 <= i < first ==> events[i].eventHash != anchor
    decreases |events|
  {
    var k: nat :| k < |events| && events[k].eventHash == anchor;
    var front := events[..k];
    if exists i :: 0 <= i < |front| && front[i].eventHash == anchor {
      first := FirstPlace(front, anchor);
    } else {
      first := k;
      assert forall i :: 0 <= i < k ==> front[i] == events[i];
    }
  }

  // An accepted rotation file numbers its records from one, each naming the one
  // before, and its last names the key and bears its signature.
  lemma RotationsAcceptedIff<P(!new)>(env: Env<P>, key: Bytes, rotations: seq<Rotation>)
    ensures RotationsAccept(env, key, rotations) <==>
            && (forall k :: 0 <= k < |rotations| ==> WellRotated(env, rotations, k))
            && (rotations != [] ==>
                  var last := rotations[|rotations| - 1];
                  |key| >= 32 && last.body.newKeyId == env.keyId(key) && last.newKeyHmac == env.hmac(key, last.rotationHash))
  {
    if RotationsChained(env, rotations) {
      forall k | 0 <= k < |rotations| ensures WellRotated(env, rotations, k) {
        assert RotationLinkOk(env, rotations[k], k, RotationHead(rotations[..k]));
      }
    }
    if forall k :: 0 <= k < |rotations| ==> WellRotated(env, rotations, k) {
      forall k | 0 <= k < |rotations| ensures RotationLinkOk(env, rotations[k], k, RotationHead(rotations[..k])) {
        assert WellRotated(env, rotations, k);
      }
    }
  }

  ghost predicate WellRotated<P>(env: Env<P>, rotations: seq<Rotation>, k: nat)
    requires k < |rotations|
  {
    var body := rotations[k].body;
    && body.version == 1 && body.sequence == k + 1
    && body.previousRotationHash == (if k == 0 then "" else rotations[k - 1].rotationHash)
    && rotations[k].rotationHash == env.rotationHash(body)
  }

  // ---- the head determines the history ----

  // Two accepted journals with one final hash agree on every body. Only the
  // signature fields may differ.
  lemma {:induction false} HeadHashDeterminesHistory<P(!new)>(env: Env<P>, a: seq<Event<P>>, b: seq<Event<P>>)
    requires CollisionFree(env) && Chained(env, a) && Chained(env, b)
    requires HeadHash(a) == HeadHash(b)
    ensures |a| == |b|
    ensures forall i :: 0 <= i < |a| ==> a[i].body == b[i].body && a[i].eventHash == b[i].eventHash
    decreases |a|
  {
    hide Chained, CollisionFree;
    HashOfNothing(env, a);
    HashOfNothing(env, b);
    if a != [] && b != [] {
      var front, other := a[..|a| - 1], b[..|b| - 1];
      LastLink(env, a);
      LastLink(env, b);
      SameHash(env, a[|a| - 1], b[|b| - 1]);
      HeadHashDeterminesHistory(env, front, other);
      assert forall i :: 0 <= i < |front| ==> a[i] == front[i] && b[i] == other[i];
    }
  }

  lemma SameHash<P(!new)>(env: Env<P>, x: Event<P>, y: Event<P>)
    requires CollisionFree(env) && env.eventHash(x.body) == env.eventHash(y.body)
    ensures x.body == y.body
  {
  }

  lemma LastLink<P>(env: Env<P>, events: seq<Event<P>>)
    requires Chained(env, events) && events != []
    ensures LinkOk(env, events[|events| - 1], |events| - 1, HeadHash(events[..|events| - 1]))
    ensures Chained(env, events[..|events| - 1])
  {
    ChainedPrefix(env, events, |events| - 1);
  }

  lemma HashOfNothing<P(!new)>(env: Env<P>, events: seq<Event<P>>)
    requires CollisionFree(env) && Chained(env, events)
    ensures HeadHash(events) == "" <==> events == []
  {
    assert events != [] ==> LinkOk(env, events[|events| - 1], |events| - 1, HeadHash(events[..|events| - 1]));
  }

  lemma ChainedPrefix<P>(env: Env<P>, events: seq<Event<P>>, n: nat)
    requires n <= |events| && Chained(env, events)
    ensures Chained(env, events[..n])
  {
    forall i | 0 <= i < n ensures LinkOk(env, events[..n][i], i, HeadHash(events[..n][..i])) {
      assert events[..n][..i] == events[..i];
      assert LinkOk(env, events[i], i, HeadHash(events[..i]));
    }
  }

  // No hash occurs twice in a chain, so an anchor names one position.
  lemma HashesDiffer<P(!new)>(env: Env<P>, events: seq<Event<P>>, i: nat, j: nat)
    requires CollisionFree(env) && Chained(env, events) && i < j < |events|
    ensures events[i].eventHash != events[j].eventHash
  {
    assert LinkOk(env, events[i], i, HeadHash(events[..i])) && LinkOk(env, events[j], j, HeadHash(events[..j]));
  }

  lemma ChainedSnoc<P>(env: Env<P>, events: seq<Event<P>>, e: Event<P>)
    requires Chained(env, events)
    ensures Chained(env, events + [e]) <==> LinkOk(env, e, |events|, HeadHash(events))
  {
    var more := events + [e];
    assert more[..|events|] == events;
    assert forall i :: 0 <= i < |events| ==> more[..i] == events[..i];
  }

  lemma RotationsSnoc<P>(env: Env<P>, rotations: seq<Rotation>, r: Rotation)
    requires RotationsChained(env, rotations)
    ensures RotationsChained(env, rotations + [r]) <==> RotationLinkOk(env, r, |rotations|, RotationHead(rotations))
  {
    var more := rotations + [r];
    assert more[..|rotations|] == rotations;
    assert forall i :: 0 <= i < |rotations| ==> more[..i] == rotations[..i];
  }

  lemma BrokenRotations<P>(env: Env<P>, rotations: seq<Rotation>, n: nat)
    requires n < |rotations| && !RotationLinkOk(env, rotations[n], n, RotationHead(rotations[..n]))
    ensures !RotationsChained(env, rotations)
  {
  }

  // ---- the verifying loops ----

  // The state each of the three loops carries.
  datatype Cursor = Cursor(seq_: int, hash: string, anchorReached: bool)

  // After these events; start is where signatures began to bind.
  ghost predicate CursorAfter<P>(env: Env<P>, c: Cursor, key: Bytes, anchor: string, events: seq<Event<P>>, start: nat) {
    && Chained(env, events)
    && c.seq_ == |events| && c.hash == HeadHash(events)
    && if c.anchorReached then AnchoredAt(events, anchor, start) && (key != [] ==> SignedFrom(env, key, events, start))
       else anchor != "" && forall i :: 0 <= i < |events| ==> events[i].eventHash != anchor
  }

  // Whether the loop goes on past this event.
  predicate StepOk<P>(env: Env<P>, key: Bytes, c: Cursor, e: Event<P>) {
    LinkOk(env, e, c.seq_, c.hash) && (c.anchorReached && key != [] ==> SignedBy(env, key, e))
  }

  function Step<P>(c: Cursor, anchor: string, e: Event<P>): Cursor {
    Cursor(e.body.seq_, e.eventHash, c.anchorReached || e.eventHash == anchor)
  }

  lemma CursorAdvances<P>(env: Env<P>, c: Cursor, key: Bytes, anchor: string, events: seq<Event<P>>, e: Event<P>, start: nat)
    requires CursorAfter(env, c, key, anchor, events, start)
    requires StepOk(env, key, c, e)
    ensures CursorAfter(env, Step(c, anchor, e), key, anchor, events + [e], if c.anchorReached then start else |events| + 1)
  {
    hide Chained;
    ChainedSnoc(env, events, e);
  }

  lemma StepRefused<P>(env: Env<P>, c: Cursor, key: Bytes, anchor: string, events: seq<Event<P>>, n: nat, start: nat)
    requires n < |events| && CursorAfter(env, c, key, anchor, events[..n], start)
    requires !StepOk(env, key, c, events[n])
    ensures !Accepts(env, key, anchor, events)
  {
    if Chained(env, events) {
      assert LinkOk(env, events[n], n, HeadHash(events[..n]));
      hide Chained, LinkOk;
      assert !SignedBy(env, key, events[n]);
      forall other: nat | AnchoredAt(events, anchor, other) ensures !SignedFrom(env, key, events, other) {
        assert anchor != "" ==> events[start - 1].eventHash == anchor;
        assert other <= start;
      }
    }
  }

  // One turn of each verifying loop.
  lemma LoopTurn<P>(env: Env<P>, c: Cursor, key: Bytes, anchor: string, rows: seq<Event<P>>, i: nat, start: nat)
    requires i < |rows| && CursorAfter(env, c, key, anchor, rows[..i], start)
    ensures StepOk(env, key, c, rows[i]) ==>
              CursorAfter(env, Step(c, anchor, rows[i]), key, anchor, rows[..i + 1], if c.anchorReached then start else i + 1)
    ensures !StepOk(env, key, c, rows[i]) ==> !Accepts(env, key, anchor, rows)
  {
    hide CursorAfter, Step, StepOk, Accepts;
    if StepOk(env, key, c, rows[i]) {
      CursorAdvances(env, c, key, anchor, rows[..i], rows[i], start);
      assert rows[..i + 1] == rows[..i] + [rows[i]];
    } else {
      StepRefused(env, c, key, anchor, rows, i, start);
    }
  }

  lemma CursorAtEnd<P>(env: Env<P>, c: Cursor, key: Bytes, anchor: string, events: seq<Event<P>>, start: nat)
    requires CursorAfter(env, c, key, anchor, events, start)
    ensures c.anchorReached <==> Accepts(env, key, anchor, events)
    ensures c.seq_ == |events| && c.hash == HeadHash(events)
  {
  }

  // The loop over rotation records, in loadKeyRotations.
  method CheckRotations<P>(env: Env<P>, rotations: seq<Rotation>) returns (ok: bool, sequence: int, hash: string)
    ensures ok <==> RotationsChained(env, rotations)
    ensures ok ==> sequence == |rotations| && hash == RotationHead(rotations)
  {
    sequence, hash := 0, "";
    for i := 0 to |rotations|
      invariant RotationsChained(env, rotations[..i])
      invariant sequence == i && hash == RotationHead(rotations[..i])
    {
      var r := rotations[i];
      if !RotationLinkOk(env, r, sequence, hash) {
        BrokenRotations(env, rotations, i);
        return false, sequence, hash;
      }
      RotationsSnoc(env, rotations[..i], r);
      assert rotations[..i + 1] == rotations[..i] + [r];
      sequence, hash := r.body.sequence, r.rotationHash;
    }
    assert rotations[..|rotations|] == rotations;
    ok := true;
  }

  // ---- the store's signing state ----

  datatype AppendResult = Appended | NoKey | AppendDied

  class Journal<P(!new)> {
    const env: Env<P>
    var eventsFile: File
    var rotationsFile: File
    var integrityKey: Bytes
    var mutationEventSeq: int
    var lastEventHash: string
    var integrityAnchorHash: string
    var keyRotationSeq: int
    var lastRotationHash: string
    ghost var events: seq<Event<P>>
    ghost var rotations: seq<Rotation>

    constructor (env: Env<P>, eventsFile: File, rotationsFile: File, key: Bytes)
      ensures this.env == env && this.eventsFile == eventsFile && this.rotationsFile == rotationsFile
      ensures integrityKey == key && Unloaded() && events == [] && rotations == []
    {
      this.env, this.eventsFile, this.rotationsFile, integrityKey := env, eventsFile, rotationsFile, key;
      mutationEventSeq, lastEventHash, integrityAnchorHash, keyRotationSeq, lastRotationHash := 0, "", "", 0, "";
      events, rotations := [], [];
    }

    predicate Unloaded()
      reads this
    {
      mutationEventSeq == 0 && lastEventHash == "" && integrityAnchorHash == "" && keyRotationSeq == 0 && lastRotationHash == ""
    }

    ghost predicate OnFile()
      reads this
    {
      && eventsFile.Synced() && eventsFile.onDisk == Lines(env.events, events)
      && rotationsFile.Synced() && rotationsFile.onDisk == Lines(env.rotations, rotations)
    }

    // Memory agrees with the files, and the files open with the current key.
    ghost predicate Consistent()
      reads this
    {
      && OnFile()
      && Sound(env, integrityKey, events, rotations)
      && mutationEventSeq == |events| && lastEventHash == HeadHash(events)
      && integrityAnchorHash == AnchorOf(rotations)
      && keyRotationSeq == |rotations| && lastRotationHash == RotationHead(rotations)
    }

    // An O_APPEND write and its fsync; a crash leaves part of the line.
    static method AppendLine(file: File, line: Bytes) returns (after: File, died: bool)
      requires file.Synced()
      ensures after.Synced() && file.onDisk <= after.onDisk <= file.onDisk + line
      ensures !died ==> after.onDisk == file.onDisk + line
    {
      after := file.Append(line);
      died := *;
      if died {
        var keep: nat := *;
        var image := Remains(after, keep);
        after := File(image, image);
        return;
      }
      after := after.Sync();
      died := *;
    }

    // The journal part of CommitMutation: number, link, sign, append, sync.
    method Commit(payload: P) returns (r: AppendResult)
      requires (|integrityKey| >= MIN_KEY_BYTES ==> Consistent()) && CollisionFree(env)
      modifies this`eventsFile, this`mutationEventSeq, this`lastEventHash, this`events
      ensures r.NoKey? <==> |integrityKey| < MIN_KEY_BYTES
      ensures r.NoKey? ==> eventsFile == old(eventsFile) && mutationEventSeq == old(mutationEventSeq)
      ensures r.Appended? ==> Consistent() && |events| == |old(events)| + 1 && events[..|old(events)|] == old(events)
                              && Signs(env, integrityKey, old(events), payload, events[|old(events)|])
      ensures r.AppendDied? ==> events == old(events) && eventsFile.Synced()
      ensures r.AppendDied? ==> TornEvent(env, integrityKey, events, rotations, eventsFile.onDisk, payload)
    {
      hide Lines, Chained, SignedFrom, Accepts, RotationsAccept, CollisionFree;
      if |integrityKey| < MIN_KEY_BYTES {
        return NoKey;
      }
      mutationEventSeq := mutationEventSeq + 1;
      var body := EventBody(3, mutationEventSeq, payload, lastEventHash);
      var hash := env.eventHash(body);
      var e := Event(body, hash, env.keyId(integrityKey), env.hmac(integrityKey, hash));
      SoundCommit(env, integrityKey, events, rotations, e);
      var died;
      eventsFile, died := AppendLine(eventsFile, Line(env.events, e));
      if died {
        return AppendDied;
      }
      LinesSnoc(env.events, events, e);
      lastEventHash := hash;
      events := events + [e];
      r := Appended;
    }

    // The record ties the head to both keys and carries a signature of each.
    ghost predicate Bridges(oldKey: Bytes, newKey: Bytes, head: string, before: seq<Rotation>, id: string, now: int, r: Rotation) {
      && r.body.version == 1 && r.body.sequence == |before| + 1 && r.body.rotationId == id && r.body.createdAt == now
      && r.body.previousRotationHash == (if before == [] then "" else before[|before| - 1].rotationHash)
      && r.body.eventHeadHash == head
      && r.body.previousKeyId == env.keyId(oldKey) && r.body.newKeyId == env.keyId(newKey)
      && r.rotationHash == env.rotationHash(r.body)
      && r.previousKeyHmac == env.hmac(oldKey, r.rotationHash) && r.newKeyHmac == env.hmac(newKey, r.rotationHash)
    }

    // RotateIntegrityKey: a bridge record signed by both keys, appended and
    // synced before the key changes in memory.
    method RotateIntegrityKey(newKey: Bytes, rotationId: string, now: int) returns (r: AppendResult)
      requires Consistent() && CollisionFree(env)
      modifies this`rotationsFile, this`integrityKey, this`integrityAnchorHash, this`keyRotationSeq,
               this`lastRotationHash, this`rotations
      ensures r.NoKey? <==> |newKey| < MIN_KEY_BYTES || newKey == old(integrityKey)
      ensures r.NoKey? ==> Consistent() && integrityKey == old(integrityKey) && rotations == old(rotations)
      ensures r.Appended? ==> Consistent() && integrityKey == newKey && |rotations| == |old(rotations)| + 1
                              && rotations[..|old(rotations)|] == old(rotations)
      ensures r.Appended? ==> Bridges(old(integrityKey), newKey, lastEventHash, old(rotations), rotationId, now, rotations[|old(rotations)|])
      ensures r.AppendDied? ==> rotations == old(rotations) && rotationsFile.Synced()
      ensures r.AppendDied? ==> TornRotation(env, newKey, events, rotations, rotationsFile.onDisk)
    {
      hide Lines, Chained, SignedFrom, Accepts, RotationsChained, CollisionFree;
      if |integrityKey| < MIN_KEY_BYTES || |newKey| < MIN_KEY_BYTES {
        return NoKey;
      }
      if integrityKey == newKey {
        return NoKey;
      }
      var body := RotationBody(1, keyRotationSeq + 1, rotationId, lastRotationHash, lastEventHash,
                               env.keyId(integrityKey), env.keyId(newKey), now);
      var hash := env.rotationHash(body);
      var record := Rotation(body, hash, env.hmac(integrityKey, hash), env.hmac(newKey, hash));
      SoundRotation(env, integrityKey, newKey, events, rotations, record);
      var died;
      rotationsFile, died := AppendLine(rotationsFile, Line(env.rotations, record));
      if died {
        return AppendDied;
      }
      LinesSnoc(env.rotations, rotations, record);
      integrityKey := newKey;
      integrityAnchorHash := body.eventHeadHash;
      keyRotationSeq := body.sequence;
      lastRotationHash := hash;
      rotations := rotations + [record];
      r := Appended;
    }

    // loadKeyRotations.
    method LoadKeyRotations() returns (ok: bool)
      requires rotationsFile.Synced() && keyRotationSeq == 0 && integrityAnchorHash == ""
      modifies this`keyRotationSeq, this`lastRotationHash, this`integrityAnchorHash
      ensures var rows := Records(env.rotations, rotationsFile.onDisk);
              ok <==> rows.Some? && RotationsAccept(env, integrityKey, rows.value)
      ensures ok ==> var rows := Records(env.rotations, rotationsFile.onDisk).value;
                     keyRotationSeq == |rows| && lastRotationHash == RotationHead(rows) && integrityAnchorHash == AnchorOf(rows)
    {
      hide RotationsChained, RotatedTo, Tokens, ParseLines;
      var raw := rotationsFile.cached;
      if |raw| > 0 && raw[|raw| - 1] != NEWLINE {
        return false;
      }
      var rows := ReadRows(env.rotations, raw);
      if rows.None? {
        return false;
      }
      var chained, sequence, hash := CheckRotations(env, rows.value);
      if !chained {
        return false;
      }
      keyRotationSeq, lastRotationHash := sequence, hash;
      if keyRotationSeq == 0 {
        return true;
      }
      var last := rows.value[|rows.value| - 1];
      if !RotatedTo(env, integrityKey, last) {
        return false;
      }
      integrityAnchorHash := last.body.eventHeadHash;
      ok := true;
    }

    // loadMutationEvents: verifies every event and hands its payload on. With
    // no key configured, signatures are not checked.
    method LoadMutationEvents() returns (ok: bool, payloads: seq<P>)
      requires eventsFile.Synced() && mutationEventSeq == 0 && lastEventHash == ""
      modifies this`mutationEventSeq, this`lastEventHash
      ensures var rows := Records(env.events, eventsFile.onDisk);
              ok <==> rows.Some? && Accepts(env, integrityKey, integrityAnchorHash, rows.value)
                      && Scannable(LINE_MAX, eventsFile.onDisk)
      ensures ok ==> var rows := Records(env.events, eventsFile.onDisk).value;
                     mutationEventSeq == |rows| && lastEventHash == HeadHash(rows) && payloads == Payloads(rows)
    {
      hide Accepts, RotationsAccept, CursorAfter, Step, StepOk, Tokens, ParseLines, HeadHash, Scannable;
      payloads := [];
      var raw := eventsFile.cached;
      if |raw| > 0 && raw[|raw| - 1] != NEWLINE {
        return false, payloads;
      }
      var parsed := ReadScanned(env.events, LINE_MAX, raw);
      if parsed.None? {
        return false, payloads;
      }
      var rows := parsed.value;
      var c := Cursor(0, "", integrityAnchorHash == "");
      ghost var start: nat := 0;
      assert rows[..0] == [];
      CursorAtStart(env, integrityKey, integrityAnchorHash, rows);
      for i := 0 to |rows|
        invariant CursorAfter(env, c, integrityKey, integrityAnchorHash, rows[..i], start)
        invariant mutationEventSeq == c.seq_ && lastEventHash == c.hash
        invariant payloads == Payloads(rows[..i])
      {
        var e := rows[i];
        LoopTurn(env, c, integrityKey, integrityAnchorHash, rows, i, start);
        if !StepOk(env, integrityKey, c, e) {
          return false, payloads;
        }
        start := if c.anchorReached then start else i + 1;
        c := Step(c, integrityAnchorHash, e);
        mutationEventSeq, lastEventHash := c.seq_, c.hash;
        payloads := payloads + [e.body.payload];
      }
      assert rows[..|rows|] == rows;
      CursorAtEnd(env, c, integrityKey, integrityAnchorHash, rows, start);
      ok := c.anchorReached;
    }

    // OpenVerified: a fresh store over these files, under this key.
    method Open() returns (ok: bool, payloads: seq<P>)
      requires eventsFile.Synced() && rotationsFile.Synced() && Unloaded()
      modifies this
      ensures eventsFile == old(eventsFile) && rotationsFile == old(rotationsFile) && integrityKey == old(integrityKey)
      ensures ok <==> Opens(env, integrityKey, eventsFile.onDisk, rotationsFile.onDisk)
      ensures ok ==> var rows := Records(env.events, eventsFile.onDisk).value;
                     mutationEventSeq == |rows| && lastEventHash == HeadHash(rows) && payloads == Payloads(rows)
      ensures ok ==> var rows := Records(env.rotations, rotationsFile.onDisk).value;
                     keyRotationSeq == |rows| && lastRotationHash == RotationHead(rows) && integrityAnchorHash == AnchorOf(rows)
    {
      hide Accepts, RotationsAccept, Records, Scannable;
      payloads := [];
      ok := LoadKeyRotations();
      if !ok {
        return;
      }
      ok, payloads := LoadMutationEvents();
    }

    // SetIntegrityKey re-verifies both files. A refused key stays in memory.
    method SetIntegrityKey(key: Bytes) returns (ok: bool)
      requires eventsFile.Synced() && rotationsFile.Synced()
      modifies this
      ensures eventsFile == old(eventsFile) && rotationsFile == old(rotationsFile) && mutationEventSeq == old(mutationEventSeq)
      ensures ok <==> |key| >= MIN_KEY_BYTES && Opens(env, key, eventsFile.onDisk, rotationsFile.onDisk)
      ensures integrityKey == if |key| >= MIN_KEY_BYTES then key else old(integrityKey)
      ensures ok ==> lastEventHash == HeadHash(Records(env.events, eventsFile.onDisk).value)
      ensures ok ==> var rows := Records(env.rotations, rotationsFile.onDisk).value;
                     keyRotationSeq == |rows| && lastRotationHash == RotationHead(rows) && integrityAnchorHash == AnchorOf(rows)
    {
      hide Accepts, RotationsAccept, CursorAfter, Step, StepOk, Tokens, ParseLines, HeadHash, Scannable;
      if |key| < MIN_KEY_BYTES {
        return false;
      }
      integrityKey := key;
      keyRotationSeq, lastRotationHash, integrityAnchorHash := 0, "", "";
      ok := LoadKeyRotations();
      if !ok {
        return;
      }
      var raw := eventsFile.cached;
      if |raw| > 0 && raw[|raw| - 1] != NEWLINE {
        return false;
      }
      var parsed := ReadScanned(env.events, LINE_MAX, raw);
      if parsed.None? {
        return false;
      }
      var rows := parsed.value;
      var c := Cursor(0, "", integrityAnchorHash == "");
      ghost var start: nat := 0;
      assert rows[..0] == [];
      CursorAtStart(env, key, integrityAnchorHash, rows);
      for i := 0 to |rows|
        invariant CursorAfter(env, c, key, integrityAnchorHash, rows[..i], start)
        modifies {}
      {
        var e := rows[i];
        LoopTurn(env, c, key, integrityAnchorHash, rows, i, start);
        if !StepOk(env, key, c, e) {
          return false;
        }
        start := if c.anchorReached then start else i + 1;
        c := Step(c, integrityAnchorHash, e);
      }
      assert rows[..|rows|] == rows;
      CursorAtEnd(env, c, key, integrityAnchorHash, rows, start);
      if !c.anchorReached {
        return false;
      }
      lastEventHash := c.hash;
    }
  }

  function Payloads<P>(events: seq<Event<P>>): seq<P> {
    seq(|events|, i requires 0 <= i < |events| => events[i].body.payload)
  }

  lemma CursorAtStart<P>(env: Env<P>, key: Bytes, anchor: string, events: seq<Event<P>>)
    ensures CursorAfter(env, Cursor(0, "", anchor == ""), key, anchor, [], 0)
  {
  }

  // VerifyDataDir's pass over the mutation journal: the third verifier.
  method VerifyDataDir<P(!new)>(env: Env<P>, key: Bytes, eventData: Bytes, rotationData: Bytes) returns (count: Option<nat>)
    ensures count.Some? <==> |key| >= MIN_KEY_BYTES && Verifies(env, key, eventData, rotationData)
    ensures count.Some? ==> count.value == |Records(env.events, eventData).value|
  {
    hide Accepts, RotationsAccept, CursorAfter, Step, StepOk, Tokens, ParseLines, HeadHash, Scannable;
    if |key| < MIN_KEY_BYTES {
      return None;
    }
    var rotationState := new Journal(env, NoFile, File(rotationData, rotationData), key);
    var ok := rotationState.LoadKeyRotations();
    if !ok {
      return None;
    }
    var anchor := rotationState.integrityAnchorHash;
    if |eventData| > 0 && eventData[|eventData| - 1] != NEWLINE {
      return None;
    }
    var parsed := ReadRows(env.events, eventData);
    if parsed.None? {
      return None;
    }
    var rows := parsed.value;
    var c := Cursor(0, "", anchor == "");
    var n := 0;
    ghost var start: nat := 0;
    assert rows[..0] == [];
    CursorAtStart(env, key, anchor, rows);
    for i := 0 to |rows|
      invariant n == i
      invariant CursorAfter(env, c, key, anchor, rows[..i], start)
    {
      var e := rows[i];
      LoopTurn(env, c, key, anchor, rows, i, start);
      if !StepOk(env, key, c, e) {
        return None;
      }
      start := if c.anchorReached then start else i + 1;
      c := Step(c, anchor, e);
      n := n + 1;
    }
    assert rows[..|rows|] == rows;
    CursorAtEnd(env, c, key, anchor, rows, start);
    count := if c.anchorReached then Some(n) else None;
  }

  // ---- which key opens the store ----

  lemma FilesRead<P(!new)>(env: Env<P>, events: seq<Event<P>>, rotations: seq<Rotation>)
    requires LawfulCodecs(env)
    ensures Records(env.events, Lines(env.events, events)) == Some(events)
    ensures Records(env.rotations, Lines(env.rotations, rotations)) == Some(rotations)
  {
    hide Lines, Tokens, ParseLines;
    ParseLinesOfLines(env.events, events);
    ParseLinesOfLines(env.rotations, rotations);
    LinesEndWithNewline(env.events, events);
    LinesEndWithNewline(env.rotations, rotations);
  }

  // The current key verifies the files. Another one does exactly when nothing has
  // been signed yet: no event, no rotation. The store opens them when, besides,
  // every event line is short.
  lemma OnlyTheCurrentKeyOpens<P(!new)>(
    env: Env<P>, key: Bytes, other: Bytes, events: seq<Event<P>>, rotations: seq<Rotation>)
    requires CollisionFree(env) && LawfulCodecs(env) && Sound(env, key, events, rotations)
    requires |other| >= MIN_KEY_BYTES
    ensures Verifies(env, other, Lines(env.events, events), Lines(env.rotations, rotations))
            <==> other == key || (events == [] && rotations == [])
    ensures Opens(env, other, Lines(env.events, events), Lines(env.rotations, rotations))
            <==> (other == key || (events == [] && rotations == [])) && Short(env.events, LINE_MAX, events)
  {
    ScannableIffShort(env.events, LINE_MAX, events);
    hide Lines, Chained, Records, RotationsChained, Scannable, Short;
    FilesRead(env, events, rotations);
    if other != key {
      if rotations != [] {
        assert !RotatedTo(env, other, rotations[|rotations| - 1]);
      } else if events != [] {
        assert AnchoredAt(events, "", 0);
        assert SignedBy(env, key, events[0]) && !SignedBy(env, other, events[0]);
      } else {
        assert AnchoredAt(events, "", 0);
      }
    }
  }

  // A torn event makes the journal unreadable until it is repaired by hand; a
  // whole one counts, and none is as if the commit had not begun.
  lemma TornEventOpens<P(!new)>(
    env: Env<P>, key: Bytes, events: seq<Event<P>>, rotations: seq<Rotation>, e: Event<P>, tail: Bytes)
    requires LawfulCodecs(env)
    requires Sound(env, key, events, rotations) && Sound(env, key, events + [e], rotations)
    requires tail <= Line(env.events, e)
    ensures Verifies(env, key, Lines(env.events, events) + tail, Lines(env.rotations, rotations))
            <==> tail == [] || tail == Line(env.events, e)
    ensures Opens(env, key, Lines(env.events, events) + tail, Lines(env.rotations, rotations))
            <==> || (tail == [] && Short(env.events, LINE_MAX, events))
                 || (tail == Line(env.events, e) && Short(env.events, LINE_MAX, events + [e]))
  {
    hide Lines, Line, Chained, SignedFrom, RotationsAccept, Accepts, ParseLines, Tokens, Scannable, Short;
    ScannableIffShort(env.events, LINE_MAX, events);
    ScannableIffShort(env.events, LINE_MAX, events + [e]);
    FilesRead(env, events, rotations);
    FilesRead(env, events + [e], rotations);
    TornIsUnterminated(env.events, events, e, tail);
    LinesSnoc(env.events, events, e);
    LineIsNotEmpty(env.events, e);
    if tail == [] {
      assert Lines(env.events, events) + tail == Lines(env.events, events);
    }
  }

  // Likewise a rotation: once its line is whole the new key is needed.
  lemma TornRotationOpens<P(!new)>(
    env: Env<P>, key: Bytes, newKey: Bytes, events: seq<Event<P>>, rotations: seq<Rotation>, r: Rotation, tail: Bytes)
    requires CollisionFree(env) && LawfulCodecs(env) && key != newKey
    requires Sound(env, key, events, rotations) && Sound(env, newKey, events, rotations + [r])
    requires tail <= Line(env.rotations, r)
    ensures var data := Lines(env.rotations, rotations) + tail;
            && (Opens(env, key, Lines(env.events, events), data) <==> tail == [] && Short(env.events, LINE_MAX, events))
            && (Opens(env, newKey, Lines(env.events, events), data)
                <==> (tail == Line(env.rotations, r) || (tail == [] && events == [] && rotations == []))
                     && Short(env.events, LINE_MAX, events))
  {
    hide Scannable, Short;
    hide Lines, Line, Chained, SignedFrom, RotationsAccept, Accepts, ParseLines, Tokens, CollisionFree, Sound;
    KeyLengths(env, key, events, rotations);
    KeyLengths(env, newKey, events, rotations + [r]);
    TornIsUnterminated(env.rotations, rotations, r, tail);
    LinesSnoc(env.rotations, rotations, r);
    LineIsNotEmpty(env.rotations, r);
    if tail == [] {
      assert Lines(env.rotations, rotations) + tail == Lines(env.rotations, rotations);
      OnlyTheCurrentKeyOpens(env, key, key, events, rotations);
      OnlyTheCurrentKeyOpens(env, key, newKey, events, rotations);
    } else if tail == Line(env.rotations, r) {
      OnlyTheCurrentKeyOpens(env, newKey, key, events, rotations + [r]);
      OnlyTheCurrentKeyOpens(env, newKey, newKey, events, rotations + [r]);
    }
  }

  lemma KeyLengths<P>(env: Env<P>, key: Bytes, events: seq<Event<P>>, rotations: seq<Rotation>)
    requires Sound(env, key, events, rotations)
    ensures |key| >= MIN_KEY_BYTES
  {
  }

  lemma LineIsNotEmpty<T>(c: Codec<T>, row: T)
    ensures |Line(c, row)| > 0
  {
  }

  // The event a payload becomes under this key: of the third version, next in
  // number, linked to the last one and signed.
  ghost predicate Signs<P>(env: Env<P>, key: Bytes, events: seq<Event<P>>, payload: P, e: Event<P>) {
    && e.body == EventBody(3, |events| + 1, payload, if events == [] then "" else events[|events| - 1].eventHash)
    && e.eventHash == env.eventHash(e.body)
    && e.keyId == env.keyId(key) && e.hmac == env.hmac(key, e.eventHash)
  }

  // What a crash while appending this payload leaves of the event file.
  ghost predicate TornEvent<P(!new)>(
    env: Env<P>, key: Bytes, events: seq<Event<P>>, rotations: seq<Rotation>, data: Bytes, payload: P)
  {
    exists e: Event<P> :: Signs(env, key, events, payload, e) && Sound(env, key, events + [e], rotations)
      && Lines(env.events, events) <= data <= Lines(env.events, events) + Line(env.events, e)
  }

  ghost predicate TornRotation<P>(
    env: Env<P>, newKey: Bytes, events: seq<Event<P>>, rotations: seq<Rotation>, data: Bytes)
  {
    exists r :: Sound(env, newKey, events, rotations + [r])
      && Lines(env.rotations, rotations) <= data <= Lines(env.rotations, rotations) + Line(env.rotations, r)
  }

  // Both files verify under this key.
  ghost predicate Sound<P>(env: Env<P>, key: Bytes, events: seq<Event<P>>, rotations: seq<Rotation>) {
    && |key| >= MIN_KEY_BYTES
    && RotationsAccept(env, key, rotations)
    && Accepts(env, key, AnchorOf(rotations), events)
  }

  lemma SoundCommit<P>(env: Env<P>, key: Bytes, events: seq<Event<P>>, rotations: seq<Rotation>, e: Event<P>)
    requires Sound(env, key, events, rotations)
    requires LinkOk(env, e, |events|, HeadHash(events)) && SignedBy(env, key, e)
    ensures Sound(env, key, events + [e], rotations)
  {
    var anchor := AnchorOf(rotations);
    var start :| AnchoredAt(events, anchor, start) && SignedFrom(env, key, events, start);
    ChainedSnoc(env, events, e);
    hide Chained, RotationsAccept;
    assert AnchoredAt(events + [e], anchor, start);
    assert SignedFrom(env, key, events + [e], start);
  }

  lemma SoundRotation<P(!new)>(env: Env<P>, key: Bytes, newKey: Bytes, events: seq<Event<P>>, rotations: seq<Rotation>, r: Rotation)
    requires CollisionFree(env) && Sound(env, key, events, rotations)
    requires RotationLinkOk(env, r, |rotations|, RotationHead(rotations)) && RotatedTo(env, newKey, r)
    requires r.body.eventHeadHash == HeadHash(events)
    ensures Sound(env, newKey, events, rotations + [r])
  {
    RotationsSnoc(env, rotations, r);
    HashOfNothing(env, events);
    forall i | 0 <= i < |events| - 1 ensures events[i].eventHash != HeadHash(events) {
      HashesDiffer(env, events, i, |events| - 1);
    }
    hide Chained, RotationsChained, CollisionFree;
    assert AnchoredAt(events, HeadHash(events), |events|);
    assert SignedFrom(env, newKey, events, |events|);
  }
}
