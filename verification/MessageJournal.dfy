// The segmented, hash-chained message archive: idempotent insertion, torn-tail
// recovery, and the read-only verifier of the same files.
module MessageJournal {
  import opened Wrappers
  import opened Jsonl
  import opened CrashDisk

  const SEGMENT_MAX_BYTES := 0x1000_0000
  const USER := "user"

  datatype MessageRow = MessageRow(
    schemaVersion: int, messageId: string, sessionId: string, externalId: string,
    role: string, contentType: string, content: string, contentHash: string, exactContentHash: string,
    messageSeq: int, turnSeq: int, occurredAt: int, createdAt: int,
    secretLike: bool, instructionLike: bool, sensitivity: string,
    assistantId: string, assistantName: string, previousRecordHash: string, recordHash: string)

  // A message as a client submits it.
  datatype Checkpoint = Checkpoint(
    externalId: string, role: string, contentType: string, content: string, hash: string,
    occurredAt: int, assistantId: string, assistantName: string)

  // The line codec, SHA-256 over a marshalled row and over content, and the
  // policy detector.
  datatype Env = Env(
    codec: Codec<MessageRow>, rowHash: MessageRow -> string, contentHash: string -> string,
    policy: string -> (bool, bool))

  function RecordHash(env: Env, row: MessageRow): string {
    env.rowHash(row.(recordHash := ""))
  }

  // ---- the chain ----

  function LastHash(rows: seq<MessageRow>): string {
    if rows == [] then "" else rows[|rows| - 1].recordHash
  }

  ghost predicate Links(env: Env, before: seq<MessageRow>, row: MessageRow) {
    && (row.schemaVersion == 0 || row.schemaVersion == 1)
    && row.messageSeq == |before| + 1
    && row.previousRecordHash == LastHash(before)
    && row.exactContentHash == env.contentHash(row.content)
    && RecordHash(env, row) == row.recordHash
  }

  ghost predicate Chained(env: Env, rows: seq<MessageRow>) {
    rows == [] || (Chained(env, rows[..|rows| - 1]) && Links(env, rows[..|rows| - 1], rows[|rows| - 1]))
  }

  function MessageMap(rows: seq<MessageRow>): map<string, MessageRow> {
    if rows == [] then map[]
    else MessageMap(rows[..|rows| - 1])[rows[|rows| - 1].messageId := rows[|rows| - 1]]
  }

  predicate Conflicts(messages: map<string, MessageRow>, row: MessageRow) {
    row.messageId in messages && messages[row.messageId].externalId != row.externalId
  }

  ghost predicate Unconflicted(rows: seq<MessageRow>) {
    rows == [] || (Unconflicted(rows[..|rows| - 1]) && !Conflicts(MessageMap(rows[..|rows| - 1]), rows[|rows| - 1]))
  }

  function MaxTurn(rows: seq<MessageRow>): int {
    if rows == [] then 0
    else
      var before, turn := MaxTurn(rows[..|rows| - 1]), rows[|rows| - 1].turnSeq;
      if turn > before then turn else before
  }

  function UserTurns(rows: seq<MessageRow>): nat {
    if rows == [] then 0
    else UserTurns(rows[..|rows| - 1]) + if rows[|rows| - 1].role == USER then 1 else 0
  }

  ghost predicate TurnsCounted(rows: seq<MessageRow>) {
    rows == [] || (TurnsCounted(rows[..|rows| - 1]) && rows[|rows| - 1].turnSeq == UserTurns(rows))
  }

  predicate SameKey(a: MessageRow, b: MessageRow) {
    a.sessionId == b.sessionId && a.externalId == b.externalId
  }

  ghost predicate Distinct(rows: seq<MessageRow>) {
    forall i, j :: 0 <= i < j < |rows| ==> rows[i].messageId != rows[j].messageId && !SameKey(rows[i], rows[j])
  }

  // The policy's answers stand beside the content they are about.
  predicate Classified(env: Env, row: MessageRow) {
    (row.secretLike, row.instructionLike) == env.policy(row.content) && row.sensitivity == "NORMAL"
  }

  ghost predicate AllClassified(env: Env, rows: seq<MessageRow>) {
    forall row :: row in rows ==> Classified(env, row)
  }

  // What every archive written by InsertMessage satisfies.
  ghost predicate Journal(env: Env, rows: seq<MessageRow>) {
    Chained(env, rows) && TurnsCounted(rows) && Distinct(rows) && AllClassified(env, rows)
  }

  lemma Snoc(env: Env, rows: seq<MessageRow>, row: MessageRow)
    ensures Chained(env, rows + [row]) <==> Chained(env, rows) && Links(env, rows, row)
    ensures Unconflicted(rows + [row]) <==> Unconflicted(rows) && !Conflicts(MessageMap(rows), row)
    ensures MessageMap(rows + [row]) == MessageMap(rows)[row.messageId := row]
    ensures MaxTurn(rows + [row]) == if row.turnSeq > MaxTurn(rows) then row.turnSeq else MaxTurn(rows)
    ensures UserTurns(rows + [row]) == UserTurns(rows) + if row.role == USER then 1 else 0
    ensures LastHash(rows + [row]) == row.recordHash
    ensures TurnsCounted(rows + [row]) <==> TurnsCounted(rows) && row.turnSeq == UserTurns(rows + [row])
  {
    assert (rows + [row])[..|rows|] == rows;
  }

  lemma {:induction false} ChainedPrefix(env: Env, rows: seq<MessageRow>, n: nat)
    requires n <= |rows| && Chained(env, rows)
    ensures Chained(env, rows[..n])
    decreases |rows|
  {
    if n < |rows| {
      ChainedPrefix(env, rows[..|rows| - 1], n);
      assert rows[..|rows| - 1][..n] == rows[..n];
    } else {
      assert rows[..n] == rows;
    }
  }

  lemma {:induction false} UnconflictedPrefix(rows: seq<MessageRow>, n: nat)
    requires n <= |rows| && Unconflicted(rows)
    ensures Unconflicted(rows[..n])
    decreases |rows|
  {
    if n < |rows| {
      UnconflictedPrefix(rows[..|rows| - 1], n);
      assert rows[..|rows| - 1][..n] == rows[..n];
    } else {
      assert rows[..n] == rows;
    }
  }

  // Sequences are 1..n, in order.
  lemma {:induction false} SequencesAreConsecutive(env: Env, rows: seq<MessageRow>)
    requires Chained(env, rows)
    ensures forall i :: 0 <= i < |rows| ==> rows[i].messageSeq == i + 1
    decreases |rows|
  {
    if rows != [] {
      var front := rows[..|rows| - 1];
      SequencesAreConsecutive(env, front);
      assert forall i :: 0 <= i < |front| ==> rows[i] == front[i];
    }
  }

  // SHA-256 over rows: no collisions, and never the empty string.
  ghost predicate CollisionFree(env: Env) {
    && (forall x, y :: env.rowHash(x) == env.rowHash(y) ==> x == y)
    && (forall x :: env.rowHash(x) != "")
  }

  lemma SameRecordHash(env: Env, x: MessageRow, y: MessageRow)
    requires CollisionFree(env)
    requires RecordHash(env, x) == x.recordHash == y.recordHash == RecordHash(env, y)
    ensures x == y && x.recordHash != ""
  {
    assert x == x.(recordHash := "").(recordHash := x.recordHash);
    assert y == y.(recordHash := "").(recordHash := y.recordHash);
  }

  // The last record hash determines the whole archive.
  lemma {:induction false} HeadHashDeterminesArchive(env: Env, a: seq<MessageRow>, b: seq<MessageRow>)
    requires CollisionFree(env)
    requires Chained(env, a) && Chained(env, b)
    requires LastHash(a) == LastHash(b)
    ensures a == b
    decreases |a|
  {
    hide CollisionFree, RecordHash;
    if a != [] {
      SameRecordHash(env, a[|a| - 1], a[|a| - 1]);
    }
    if b != [] {
      SameRecordHash(env, b[|b| - 1], b[|b| - 1]);
    }
    if a != [] && b != [] {
      var x, y := a[|a| - 1], b[|b| - 1];
      SameRecordHash(env, x, y);
      HeadHashDeterminesArchive(env, a[..|a| - 1], b[..|b| - 1]);
      assert a == a[..|a| - 1] + [x] && b == b[..|b| - 1] + [y];
    }
  }

  lemma {:induction false} TurnsAreCounted(rows: seq<MessageRow>)
    requires TurnsCounted(rows)
    ensures MaxTurn(rows) == UserTurns(rows)
    decreases |rows|
  {
    if rows != [] {
      TurnsAreCounted(rows[..|rows| - 1]);
    }
  }

  lemma {:induction false} MapHoldsRows(rows: seq<MessageRow>)
    requires Distinct(rows)
    ensures forall i :: 0 <= i < |rows| ==> rows[i].messageId in MessageMap(rows) && MessageMap(rows)[rows[i].messageId] == rows[i]
    ensures forall id :: id in MessageMap(rows) ==> MessageMap(rows)[id] in rows && MessageMap(rows)[id].messageId == id
    ensures Unconflicted(rows)
    decreases |rows|
  {
    if rows != [] {
      var front, last := rows[..|rows| - 1], rows[|rows| - 1];
      assert forall i :: 0 <= i < |front| ==> front[i] == rows[i];
      MapHoldsRows(front);
      forall i | 0 <= i < |rows| ensures rows[i].messageId in MessageMap(rows) && MessageMap(rows)[rows[i].messageId] == rows[i] {
        assert i < |front| ==> rows[i] == front[i] && rows[i].messageId != last.messageId;
      }
      forall id | id in MessageMap(rows) ensures MessageMap(rows)[id] in rows && MessageMap(rows)[id].messageId == id {
        assert id != last.messageId ==> MessageMap(front)[id] in front;
      }
      assert forall i :: 0 <= i < |front| ==> front[i].messageId != last.messageId;
      assert last.messageId !in MessageMap(front);
    }
  }

  // ---- the files ----

  predicate Terminated(data: Bytes) {
    data == [] || data[|data| - 1] == NEWLINE
  }

  function ParseSegment(env: Env, data: Bytes): Option<seq<MessageRow>> {
    if Terminated(data) then ParseLines(env.codec, Tokens(data)) else None
  }

  function ParseSegments(env: Env, segments: seq<Bytes>): Option<seq<MessageRow>> {
    if segments == [] then Some([])
    else
      match (ParseSegments(env, segments[..|segments| - 1]), ParseSegment(env, segments[|segments| - 1]))
      case (Some(before), Some(rows)) => Some(before + rows)
      case _ => None
  }

  // What tail recovery makes of the segments.
  function Repaired(segments: seq<Bytes>): seq<Bytes> {
    if segments == [] then [] else segments[..|segments| - 1] + [CompletePart(segments[|segments| - 1])]
  }

  function Images(disk: seq<File>): seq<Bytes> {
    seq(|disk|, i requires 0 <= i < |disk| => disk[i].onDisk)
  }

  ghost predicate AllSynced(disk: seq<File>) {
    forall i :: 0 <= i < |disk| ==> disk[i].Synced()
  }

  ghost predicate Laid(env: Env, segments: seq<Bytes>, parts: seq<seq<MessageRow>>) {
    && |segments| == |parts|
    && forall i :: 0 <= i < |parts| ==> segments[i] == Lines(env.codec, parts[i])
  }

  function Flatten(parts: seq<seq<MessageRow>>): seq<MessageRow> {
    if parts == [] then [] else Flatten(parts[..|parts| - 1]) + parts[|parts| - 1]
  }

  // These files hold the rows of parts; beyond that, at most a torn line.
  ghost predicate Committed(env: Env, disk: seq<File>, parts: seq<seq<MessageRow>>) {
    AllSynced(disk) && Laid(env, Repaired(Images(disk)), parts)
  }

  lemma {:induction false} LaidParses(env: Env, segments: seq<Bytes>, parts: seq<seq<MessageRow>>)
    requires Lawful(env.codec)
    requires Laid(env, segments, parts)
    ensures ParseSegments(env, segments) == Some(Flatten(parts))
    decreases |parts|
  {
    if parts != [] {
      LaidParses(env, segments[..|segments| - 1], parts[..|parts| - 1]);
      LinesEndWithNewline(env.codec, parts[|parts| - 1]);
      ParseLinesOfLines(env.codec, parts[|parts| - 1]);
    }
  }

  lemma {:induction false} ParsePrefix(env: Env, segments: seq<Bytes>, n: nat)
    requires n <= |segments|
    requires ParseSegments(env, segments).Some?
    ensures ParseSegments(env, segments[..n]).Some?
    ensures ParseSegments(env, segments[..n]).value <= ParseSegments(env, segments).value
    decreases |segments|
  {
    if n < |segments| {
      ParsePrefix(env, segments[..|segments| - 1], n);
      assert segments[..|segments| - 1][..n] == segments[..n];
    } else {
      assert segments[..n] == segments;
    }
  }

  // A record landing on the last segment.
  lemma LaidSnoc(env: Env, segments: seq<Bytes>, parts: seq<seq<MessageRow>>, last: Bytes, row: MessageRow)
    requires Laid(env, segments, parts) && segments != []
    requires last == segments[|segments| - 1] + Line(env.codec, row)
    ensures var more := parts[..|parts| - 1] + [parts[|parts| - 1] + [row]];
            && Laid(env, segments[..|segments| - 1] + [last], more)
            && Flatten(more) == Flatten(parts) + [row]
  {
    LinesSnoc(env.codec, parts[|parts| - 1], row);
    var more := parts[..|parts| - 1] + [parts[|parts| - 1] + [row]];
    assert more[..|more| - 1] == parts[..|parts| - 1];
    assert Flatten(parts[..|parts| - 1]) + (parts[|parts| - 1] + [row]) == Flatten(parts) + [row];
  }

  lemma LaidEmptySegment(env: Env, segments: seq<Bytes>, parts: seq<seq<MessageRow>>)
    requires Laid(env, segments, parts)
    ensures Laid(env, segments + [[]], parts + [[]])
    ensures Flatten(parts + [[]]) == Flatten(parts)
  {
    assert (parts + [[]])[..|parts|] == parts;
    assert Flatten(parts) + [] == Flatten(parts);
  }

  // Files without a torn tail need no repair.
  lemma LaidIsRepaired(env: Env, segments: seq<Bytes>, parts: seq<seq<MessageRow>>)
    requires Laid(env, segments, parts)
    ensures Repaired(segments) == segments
  {
    hide Lines, CompletePart;
    if segments != [] {
      LinesEndWithNewline(env.codec, parts[|parts| - 1]);
      CompletePartIsUnique(segments[|segments| - 1], segments[|segments| - 1]);
    }
  }

  // However much of the appended line survives, the repaired files hold the
  // rows before it or the rows with it.
  lemma TornAppend(env: Env, segments: seq<Bytes>, parts: seq<seq<MessageRow>>, image: Bytes, row: MessageRow)
    requires Lawful(env.codec)
    requires Laid(env, segments, parts) && segments != []
    requires var last := segments[|segments| - 1]; last <= image <= last + Line(env.codec, row)
    ensures var torn := segments[..|segments| - 1] + [image];
            var more := parts[..|parts| - 1] + [parts[|parts| - 1] + [row]];
            Laid(env, Repaired(torn), if image == segments[|segments| - 1] + Line(env.codec, row) then more else parts)
  {
    hide Lines, CompletePart, Flatten;
    var last := segments[|segments| - 1];
    var tail := image[|last|..];
    assert image == last + tail && tail <= Line(env.codec, row);
    CompletePartOfTornJournal(env.codec, parts[|parts| - 1], row, tail);
    LaidSnoc(env, segments, parts, last + Line(env.codec, row), row);
    assert image == last + Line(env.codec, row) <==> |tail| == |Line(env.codec, row)|;
    if |tail| == |Line(env.codec, row)| {
      LinesSnoc(env.codec, parts[|parts| - 1], row);
    }
  }

  lemma RepairedTwice(segments: seq<Bytes>)
    ensures Repaired(Repaired(segments)) == Repaired(segments)
  {
    if segments != [] {
      var whole := CompletePart(segments[|segments| - 1]);
      CompletePartIsUnique(whole, whole);
      assert Repaired(segments)[..|segments| - 1] == segments[..|segments| - 1];
    }
  }

  // Cutting the tail, finished or not, does not change what is recoverable.
  lemma TruncationRepairs(segments: seq<Bytes>, image: Bytes)
    requires segments != []
    requires CompletePart(segments[|segments| - 1]) <= image <= segments[|segments| - 1]
    ensures Repaired(segments[..|segments| - 1] + [image]) == Repaired(segments)
  {
    var last := segments[|segments| - 1];
    var whole := CompletePart(last);
    assert forall i :: 0 <= i < |image| - |whole| ==> image[|whole|..][i] == last[|whole|..][i];
    CompletePartIsUnique(image, whole);
    assert (segments[..|segments| - 1] + [image])[..|segments| - 1] == segments[..|segments| - 1];
  }
  // ---- the loops over parsed rows ----

  datatype Progress = Progress(messages: map<string, MessageRow>, seq_: int, hash: string, turn: int)

  // The reader's state after these rows.
  ghost predicate ReachedBy(p: Progress, rows: seq<MessageRow>) {
    p.messages == MessageMap(rows) && p.seq_ == |rows| && p.hash == LastHash(rows) && p.turn == MaxTurn(rows)
  }

  predicate LinkOk(env: Env, row: MessageRow, previousSeq: int, previousHash: string) {
    && (row.schemaVersion == 0 || row.schemaVersion == 1)
    && row.messageSeq == previousSeq + 1
    && row.previousRecordHash == previousHash
    && row.exactContentHash == env.contentHash(row.content)
    && RecordHash(env, row) == row.recordHash
  }

  // loadMessageSegments' inner loop over the rows of one segment.
  method CheckRows(env: Env, rows: seq<MessageRow>, start: Progress, ghost before: seq<MessageRow>)
    returns (ok: bool, end: Progress)
    requires ReachedBy(start, before) && Chained(env, before) && Unconflicted(before)
    ensures ok <==> Chained(env, before + rows) && Unconflicted(before + rows)
    ensures ok ==> ReachedBy(end, before + rows)
  {
    hide Chained, Unconflicted, MessageMap, MaxTurn, LastHash, RecordHash;
    end := start;
    ghost var sofar := before;
    for i := 0 to |rows|
      invariant sofar == (before + rows)[..|before| + i]
      invariant ReachedBy(end, sofar) && Chained(env, sofar) && Unconflicted(sofar)
    {
      var row := rows[i];
      Snoc(env, sofar, row);
      BadPrefix(env, before + rows, |sofar| + 1);
      assert (before + rows)[..|sofar| + 1] == sofar + [row];
      if !LinkOk(env, row, end.seq_, end.hash) || Conflicts(end.messages, row) {
        return false, end;
      }
      sofar := sofar + [row];
      end := Progress(end.messages[row.messageId := row], row.messageSeq, row.recordHash,
                      if row.turnSeq > end.turn then row.turnSeq else end.turn);
    }
    assert sofar == before + rows;
    ok := true;
  }

  lemma BadPrefix(env: Env, rows: seq<MessageRow>, n: nat)
    requires n <= |rows|
    ensures Chained(env, rows) ==> Chained(env, rows[..n])
    ensures Unconflicted(rows) ==> Unconflicted(rows[..n])
  {
    if Chained(env, rows) {
      ChainedPrefix(env, rows, n);
    }
    if Unconflicted(rows) {
      UnconflictedPrefix(rows, n);
    }
  }

  // VerifyDataDir's inner loop: the links alone.
  method CheckLinks(env: Env, rows: seq<MessageRow>, startSeq: int, startHash: string, ghost before: seq<MessageRow>)
    returns (ok: bool, endSeq: int, endHash: string)
    requires Chained(env, before) && startSeq == |before| && startHash == LastHash(before)
    ensures ok <==> Chained(env, before + rows)
    ensures ok ==> endSeq == |before + rows| && endHash == LastHash(before + rows)
  {
    hide Chained, Unconflicted, MessageMap, MaxTurn, LastHash, RecordHash;
    endSeq, endHash := startSeq, startHash;
    ghost var sofar := before;
    for i := 0 to |rows|
      invariant sofar == (before + rows)[..|before| + i]
      invariant Chained(env, sofar) && endSeq == |sofar| && endHash == LastHash(sofar)
    {
      var row := rows[i];
      Snoc(env, sofar, row);
      BadPrefix(env, before + rows, |sofar| + 1);
      assert (before + rows)[..|sofar| + 1] == sofar + [row];
      if !LinkOk(env, row, endSeq, endHash) {
        return false, endSeq, endHash;
      }
      sofar := sofar + [row];
      endSeq, endHash := row.messageSeq, row.recordHash;
    }
    assert sofar == before + rows;
    ok := true;
  }

  // VerifyDataDir's loop over the message segments. It repairs nothing.
  method VerifySegments(env: Env, segments: seq<Bytes>) returns (records: Option<nat>)
    ensures var rows := ParseSegments(env, segments);
            records == if rows.Some? && Chained(env, rows.value) then Some(|rows.value|) else None
  {
    hide Tokens, ParseLines, Chained, LastHash;
    var messageSeq, messageHash := 0, "";
    ghost var rows: seq<MessageRow> := [];
    NoRows(env);
    for i := 0 to |segments|
      invariant ParseSegments(env, segments[..i]) == Some(rows)
      invariant Chained(env, rows) && messageSeq == |rows| && messageHash == LastHash(rows)
    {
      assert segments[..i + 1][..i] == segments[..i];
      if ParseSegments(env, segments).Some? {
        ParsePrefix(env, segments, i + 1);
      }
      if !Terminated(segments[i]) {
        return None;
      }
      var parsed := ReadRows(env.codec, segments[i]);
      if parsed.None? {
        return None;
      }
      BrokenChain(env, segments, i + 1, rows + parsed.value);
      var ok;
      ok, messageSeq, messageHash := CheckLinks(env, parsed.value, messageSeq, messageHash, rows);
      if !ok {
        return None;
      }
      rows := rows + parsed.value;
    }
    assert segments[..|segments|] == segments;
    records := Some(messageSeq);
  }

  lemma NoRows(env: Env)
    ensures Chained(env, []) && Unconflicted([]) && LastHash([]) == "" && MaxTurn([]) == 0 && MessageMap([]) == map[]
    ensures Journal(env, [])
  {
  }

  // A broken link in some segments breaks the chain of all of them.
  lemma BrokenChain(env: Env, segments: seq<Bytes>, n: nat, rows: seq<MessageRow>)
    requires n <= |segments| && ParseSegments(env, segments[..n]) == Some(rows)
    ensures var all := ParseSegments(env, segments);
            && (all.Some? && Chained(env, all.value) ==> Chained(env, rows))
            && (all.Some? && Unconflicted(all.value) ==> Unconflicted(rows))
  {
    var all := ParseSegments(env, segments);
    if all.Some? {
      ParsePrefix(env, segments, n);
      BadPrefix(env, all.value, |rows|);
      assert all.value[..|rows|] == rows;
    }
  }

  // ---- the store ----

  datatype InsertResult =
    | Inserted(id: string)
    | Replayed(known: string)
    | Conflicting                // the external id is taken by other content
    | InsertDied                 // the process died; only the files remain

  datatype LoadResult = Loaded | Rejected | LoadDied

  predicate SamePayload(row: MessageRow, m: Checkpoint) {
    && row.role == m.role && row.contentType == m.contentType && row.content == m.content
    && row.assistantId == m.assistantId && row.assistantName == m.assistantName
  }

  predicate HasKey(row: MessageRow, sessionId: string, externalId: string) {
    row.sessionId == sessionId && row.externalId == externalId
  }

  // row is what storing m would add.
  ghost predicate Stores(row: MessageRow, sessionId: string, m: Checkpoint, id: string) {
    HasKey(row, sessionId, m.externalId) && SamePayload(row, m) && row.messageId == id
  }

  // The row a first submission makes: the message as it came, classified, and the
  // archive's own numbers, hashes and time.
  ghost predicate Records(env: Env, before: seq<MessageRow>, row: MessageRow, sessionId: string, m: Checkpoint, id: string, now: int) {
    && row.messageId == id && row.sessionId == sessionId && row.externalId == m.externalId
    && row.role == m.role && row.contentType == m.contentType && row.content == m.content
    && row.assistantId == m.assistantId && row.assistantName == m.assistantName
    && row.contentHash == m.hash && row.exactContentHash == env.contentHash(m.content)
    && row.occurredAt == m.occurredAt && row.createdAt == now
    && row.secretLike == env.policy(m.content).0 && row.instructionLike == env.policy(m.content).1 && row.sensitivity == "NORMAL"
    && row.schemaVersion == 1 && row.messageSeq == |before| + 1
    && row.turnSeq == UserTurns(before) + (if m.role == "user" then 1 else 0)
  }

  // after is before plus the row that records m.
  ghost predicate Adds(
    env: Env, after: seq<MessageRow>, before: seq<MessageRow>, sessionId: string, m: Checkpoint, id: string, now: int)
  {
    exists row :: after == before + [row] && Records(env, before, row, sessionId, m, id, now)
  }

  // Which segment a line of this size goes to: the last, or a new one when it
  // would outgrow the limit there.
  function SegmentFor(disk: seq<File>, size: nat): nat {
    if disk == [] then 1
    else if |disk[|disk| - 1].onDisk| + size > SEGMENT_MAX_BYTES then |disk| + 1
    else |disk|
  }

  // The line is the end of the last segment or all of a new one, and no segment
  // outgrows the limit unless a single line does.
  ghost predicate Extended(now: seq<File>, before: seq<File>, line: Bytes) {
    && now != []
    && (if |now| == |before| then now[..|now| - 1] == before[..|now| - 1] else now[..|now| - 1] == before)
    && now[|now| - 1].onDisk == (if |now| == |before| then before[|now| - 1].onDisk + line else line)
    && (|now[|now| - 1].onDisk| <= SEGMENT_MAX_BYTES || now[|now| - 1].onDisk == line)
  }

  class MessageStore {
    const env: Env
    var disk: seq<File>
    var messages: map<string, MessageRow>
    var messageSeq: int
    var turnSeq: int
    var lastMessageHash: string
    var messageSegment: nat
    var quarantined: seq<Bytes>
    // The rows of each segment file.
    ghost var parts: seq<seq<MessageRow>>

    constructor (env: Env, disk: seq<File>, ghost parts: seq<seq<MessageRow>>)
      ensures this.env == env && this.disk == disk && this.parts == parts
      ensures messages == map[] && messageSeq == 0 && turnSeq == 0 && lastMessageHash == ""
      ensures messageSegment == 0 && quarantined == []
    {
      this.env, this.disk, this.parts := env, disk, parts;
      messages, messageSeq, turnSeq, lastMessageHash := map[], 0, 0, "";
      messageSegment, quarantined := 0, [];
    }

    ghost function Rows(): seq<MessageRow>
      reads this
    {
      Flatten(parts)
    }

    // Memory is exactly the archive.
    ghost predicate Mirrors()
      reads this
    {
      && messages == MessageMap(Rows())
      && messageSeq == |Rows()|
      && turnSeq == MaxTurn(Rows())
      && lastMessageHash == LastHash(Rows())
    }

    ghost predicate Consistent()
      reads this
    {
      && AllSynced(disk)
      && Laid(env, Images(disk), parts)
      && Journal(env, Rows())
      && Mirrors()
      && messageSegment == |disk|
    }

    // Creates the next segment file; its directory entry is then synced.
    method CreateSegment() returns (died: bool)
      modifies this`disk
      ensures disk == old(disk) + [NoFile] || (died && disk == old(disk))
    {
      died := *;
      if died {
        return;
      }
      disk := disk + [NoFile];
      died := *;
    }

    // An O_APPEND write to the last segment and its fsync.
    method WriteLine(line: Bytes) returns (died: bool)
      requires disk != [] && AllSynced(disk)
      modifies this`disk
      ensures AllSynced(disk) && |disk| == |old(disk)| && disk[..|disk| - 1] == old(disk)[..|disk| - 1]
      ensures var last := old(disk)[|disk| - 1].onDisk; last <= disk[|disk| - 1].onDisk <= last + line
      ensures !died ==> disk[|disk| - 1].onDisk == old(disk)[|disk| - 1].onDisk + line
    {
      var n := |disk| - 1;
      var file := disk[n].Append(line);
      died := *;
      if died {
        var keep: nat := *;
        var image := Remains(file, keep);
        disk := disk[n := File(image, image)];
        return;
      }
      disk := disk[n := file.Sync()];
      died := *;
    }

    // Picks the segment for a line of this size, rolling over to a new file
    // when the current one would exceed the limit.
    method OpenSegment(size: nat) returns (died: bool)
      requires AllSynced(disk) && Laid(env, Images(disk), parts) && messageSegment == |disk|
      modifies this`disk, this`messageSegment, this`parts
      ensures AllSynced(disk) && Laid(env, Images(disk), parts) && Rows() == old(Rows())
      ensures !died ==> messageSegment == |disk| > 0
      ensures !died ==> |disk[|disk| - 1].onDisk| + size <= SEGMENT_MAX_BYTES || disk[|disk| - 1].onDisk == []
      ensures disk == old(disk) || disk == old(disk) + [NoFile]
      ensures !died ==> |disk| == SegmentFor(old(disk), size)
    {
      hide Lines, Flatten;
      died := false;
      if messageSegment == 0 {
        messageSegment := 1;
      }
      if messageSegment <= |disk| && |disk[messageSegment - 1].cached| + size > SEGMENT_MAX_BYTES {
        messageSegment := messageSegment + 1;
      }
      if messageSegment > |disk| {
        LaidEmptySegment(env, Images(disk), parts);
        ghost var before := disk;
        died := CreateSegment();
        if disk != before {
          assert Images(disk) == Images(before) + [[]];
          parts := parts + [[]];
        }
      }
    }

    // Appends the line of a row to the open segment.
    method AppendLine(row: MessageRow) returns (died: bool)
      requires Lawful(env.codec)
      requires AllSynced(disk) && Laid(env, Images(disk), parts) && disk != []
      modifies this`disk, this`parts
      ensures |disk| == |old(disk)| && disk[..|disk| - 1] == old(disk)[..|disk| - 1]
      ensures !died ==> disk[|disk| - 1].onDisk == old(disk)[|disk| - 1].onDisk + Line(env.codec, row)
      ensures Rows() == old(Rows()) + [row] || (died && Rows() == old(Rows()))
      ensures if died then Committed(env, disk, parts) else AllSynced(disk) && Laid(env, Images(disk), parts)
    {
      hide Lines, CompletePart, Flatten, Repaired;
      ghost var segments := Images(disk);
      died := WriteLine(Line(env.codec, row));
      ghost var image := disk[|disk| - 1].onDisk;
      assert Images(disk) == segments[..|segments| - 1] + [image];
      TornAppend(env, segments, parts, image, row);
      if image == segments[|segments| - 1] + Line(env.codec, row) {
        LaidSnoc(env, segments, parts, image, row);
        parts := parts[..|parts| - 1] + [parts[|parts| - 1] + [row]];
      }
    }

    // appendMessageRecordLocked: link the record, pick the segment, append.
    method AppendRecord(unlinked: MessageRow) returns (row: MessageRow, died: bool)
      requires AllSynced(disk) && Laid(env, Images(disk), parts) && messageSegment == |disk| && Lawful(env.codec)
      modifies this`disk, this`messageSegment, this`lastMessageHash, this`parts
      ensures row == unlinked.(previousRecordHash := old(lastMessageHash), recordHash := row.recordHash)
      ensures row.recordHash == RecordHash(env, row)
      ensures Rows() == old(Rows()) + [row] || (died && Rows() == old(Rows()))
      ensures died ==> Committed(env, disk, parts)
      ensures !died ==> AllSynced(disk) && Laid(env, Images(disk), parts)
      ensures !died ==> messageSegment == |disk| && lastMessageHash == row.recordHash
      ensures !died ==> |disk| == SegmentFor(old(disk), |Line(env.codec, row)|)
      ensures !died ==> Extended(disk, old(disk), Line(env.codec, row))
    {
      hide Lines, CompletePart, Flatten, Laid, Repaired;
      row := unlinked.(previousRecordHash := lastMessageHash);
      row := row.(recordHash := RecordHash(env, row));
      ghost var line := Line(env.codec, row);
      assert [] + line == line;
      died := OpenSegment(|Line(env.codec, row)|);
      if died {
        LaidIsRepaired(env, Images(disk), parts);
        return;
      }
      died := AppendLine(row);
      if died {
        return;
      }
      lastMessageHash := row.recordHash;
    }

    // The scan over the message map for an external id of a session.
    method FindExternal(sessionId: string, externalId: string) returns (r: Option<MessageRow>)
      ensures r.Some? ==> HasKey(r.value, sessionId, externalId)
                          && exists id :: id in messages && messages[id] == r.value
      ensures r.None? ==> forall id :: id in messages ==> !HasKey(messages[id], sessionId, externalId)
    {
      var ids := messages.Keys;
      while ids != {}
        invariant ids <= messages.Keys
        invariant forall id :: id in messages && id !in ids ==> !HasKey(messages[id], sessionId, externalId)
        decreases |ids|
      {
        var id :| id in ids;
        if HasKey(messages[id], sessionId, externalId) {
          return Some(messages[id]);
        }
        ids := ids - {id};
      }
      r := None;
    }

    // The part of InsertMessage that archives a new message.
    method Archive(sessionId: string, m: Checkpoint, id: string, now: int) returns (died: bool)
      requires Consistent() && Lawful(env.codec)
      requires id !in messages
      requires forall k :: k in messages ==> !HasKey(messages[k], sessionId, m.externalId)
      modifies this
      ensures !died ==> Consistent() && Adds(env, Rows(), old(Rows()), sessionId, m, id, now)
      ensures died ==> Committed(env, disk, parts) && Journal(env, Rows())
      ensures died ==> Rows() == old(Rows()) || Adds(env, Rows(), old(Rows()), sessionId, m, id, now)
    {
      hide Lines, Tokens, CompletePart, Journal, Laid, Flatten, MessageMap, MaxTurn, RecordHash, Repaired, LastHash;
      var (secretLike, instructionLike) := env.policy(m.content);
      messageSeq := messageSeq + 1;
      if m.role == USER {
        turnSeq := turnSeq + 1;
      }
      var unlinked := MessageRow(
        1, id, sessionId, m.externalId, m.role, m.contentType, m.content, m.hash, env.contentHash(m.content),
        messageSeq, turnSeq, m.occurredAt, now, secretLike, instructionLike, "NORMAL",
        m.assistantId, m.assistantName, "", "");
      ghost var before := Rows();
      var row;
      row, died := AppendRecord(unlinked);
      JournalSnoc(env, before, row);
      if died {
        return;
      }
      messages := messages[id := row];
    }

    // InsertMessage. id is a fresh server-owned identifier.
    method InsertMessage(sessionId: string, m: Checkpoint, id: string, now: int) returns (r: InsertResult)
      requires Consistent() && Lawful(env.codec)
      requires id !in messages
      modifies this
      ensures !r.InsertDied? ==> Consistent()
      ensures r.Replayed? || r.Conflicting? <==> exists row :: row in old(Rows()) && HasKey(row, sessionId, m.externalId)
      ensures r.Replayed? ==> exists row :: row in Rows() && Stores(row, sessionId, m, r.known)
      ensures r.Conflicting? ==> forall row :: row in Rows() && HasKey(row, sessionId, m.externalId) ==> !SamePayload(row, m)
      ensures r.Replayed? || r.Conflicting? ==> Rows() == old(Rows()) && disk == old(disk) && messages == old(messages)
      ensures r.Inserted? ==> r.id == id && Adds(env, Rows(), old(Rows()), sessionId, m, id, now)
      ensures r.InsertDied? ==> Committed(env, disk, parts) && Journal(env, Rows())
      ensures r.InsertDied? ==> Rows() == old(Rows()) || Adds(env, Rows(), old(Rows()), sessionId, m, id, now)
    {
      MapHoldsRows(Rows());
      hide Lines, Tokens, CompletePart, Chained, TurnsCounted, Laid, Flatten, MessageMap, MaxTurn, RecordHash, Repaired;
      var found := FindExternal(sessionId, m.externalId);
      if found.Some? {
        assert found.value in Rows();
        OneRowPerKey(Rows(), found.value, sessionId, m.externalId);
        if !SamePayload(found.value, m) {
          return Conflicting;
        }
        return Replayed(found.value.messageId);
      }
      var died := Archive(sessionId, m, id, now);
      r := if died then InsertDied else Inserted(id);
    }

    // ---- recovery ----

    // Quarantines and cuts the torn tail of the last segment.
    method RecoverTail() returns (died: bool)
      requires AllSynced(disk) && disk != []
      modifies this`disk, this`quarantined
      ensures AllSynced(disk) && |disk| == |old(disk)|
      ensures Repaired(Images(disk)) == Repaired(old(Images(disk)))
      ensures !died ==> Images(disk) == Repaired(old(Images(disk)))
      ensures var last := old(disk)[|old(disk)| - 1].onDisk;
              !died && CompletePart(last) != last ==> quarantined == old(quarantined) + [last[|CompletePart(last)|..]]
    {
      hide CompletePart;
      var n := |disk| - 1;
      ghost var segments := Images(disk);
      var raw := disk[n].cached;
      var whole := CompletePart(raw);
      if |whole| < |raw| {
        died := *;
        if died {
          return;
        }
        quarantined := quarantined + [raw[|whole|..]];
      }
      var file := disk[n].Write(whole);
      died := *;
      if died {
        var keep: nat := *;
        var image := Remains(file, keep);
        disk := disk[n := File(image, image)];
        assert Images(disk) == segments[..n] + [image];
        TruncationRepairs(segments, image);
        return;
      }
      disk := disk[n := file.Sync()];
      assert Images(disk) == Repaired(segments);
      RepairedTwice(segments);
      died := *;
    }

    // Reads segment i, repairing it when it is the last.
    method ReadSegment(i: nat) returns (r: SegmentResult)
      requires AllSynced(disk) && i < |disk|
      modifies this`disk, this`quarantined
      ensures AllSynced(disk) && |disk| == |old(disk)|
      ensures Repaired(Images(disk)) == Repaired(old(Images(disk)))
      ensures r.Raw? ==> Terminated(r.data) && r.data == Repaired(old(Images(disk)))[i]
      ensures r.Raw? && i == |disk| - 1 ==> Images(disk) == Repaired(old(Images(disk)))
      ensures r.Interior? ==> !Terminated(Repaired(old(Images(disk)))[i])
    {
      hide CompletePart, Repaired;
      var raw := disk[i].cached;
      SegmentRepair(Images(disk), i);
      if Terminated(raw) {
        if i == |disk| - 1 {
          TerminatedIsRepaired(Images(disk));
        }
        return Raw(raw);
      }
      if i != |disk| - 1 {
        return Interior;
      }
      ghost var before := Images(disk);
      var died := RecoverTail();
      assert Images(disk)[i] == disk[i].cached;
      r := if died then SegmentDied else Raw(disk[i].cached);
    }

    // loadMessageSegments, on a store that has loaded nothing yet. It accepts
    // exactly the repaired files that parse and chain; it changes the files
    // only by that repair; and it may be interrupted anywhere and run again.
    method Load() returns (r: LoadResult, ghost rows: seq<MessageRow>)
      requires AllSynced(disk)
      requires messages == map[] && messageSeq == 0 && turnSeq == 0 && lastMessageHash == "" && messageSegment == 0
      modifies this
      ensures parts == old(parts) && AllSynced(disk)
      ensures Repaired(Images(disk)) == Repaired(old(Images(disk)))
      ensures r.Loaded? ==> Acceptable(env, Repaired(old(Images(disk))), rows) && Images(disk) == Repaired(old(Images(disk)))
      ensures r.Loaded? ==> messages == MessageMap(rows) && messageSeq == |rows| && turnSeq == MaxTurn(rows)
                            && lastMessageHash == LastHash(rows) && messageSegment == |disk|
      ensures r.Rejected? ==> forall any :: !Acceptable(env, Repaired(old(Images(disk))), any)
    {
      hide Repaired, Chained, Unconflicted, MessageMap, MaxTurn, LastHash, ParseSegments, Acceptable;
      ghost var repaired := Repaired(Images(disk));
      ghost var count := |disk|;
      var at := Progress(map[], 0, "", 0);
      rows := [];
      NothingRead(env, repaired);
      NoSegments(Images(disk));
      var i := 0;
      while i < |disk|
        invariant i <= |disk| == count == |repaired| && messageSegment == i
        invariant AllSynced(disk) && Repaired(Images(disk)) == repaired && parts == old(parts)
        invariant i == count ==> Images(disk) == repaired
        invariant Acceptable(env, repaired[..i], rows) && ReachedBy(at, rows)
        decreases count - i
      {
        var segment := ReadSegment(i);
        match segment {
          case SegmentDied =>
            return LoadDied, rows;
          case Interior =>
            UnterminatedRejects(env, repaired, i);
            return Rejected, rows;
          case Raw(data) =>
            var ok;
            ok, at, rows := NextSegment(env, repaired, i, data, at, rows);
            if !ok {
              return Rejected, rows;
            }
        }
        i := i + 1;
        messageSegment := i;
      }
      assert repaired[..|repaired|] == repaired;
      messages, messageSeq, lastMessageHash, turnSeq := at.messages, at.seq_, at.hash, at.turn;
      r := Loaded;
    }
  }

  datatype SegmentResult = Raw(data: Bytes) | Interior | SegmentDied

  // One segment of the loader's loop: parse it, then check its rows.
  method NextSegment(env: Env, ghost segments: seq<Bytes>, ghost i: nat, data: Bytes, at: Progress, ghost rows: seq<MessageRow>)
    returns (ok: bool, end: Progress, ghost more: seq<MessageRow>)
    requires i < |segments| && data == segments[i] && Terminated(data)
    requires Acceptable(env, segments[..i], rows) && ReachedBy(at, rows)
    ensures ok ==> Acceptable(env, segments[..i + 1], more) && ReachedBy(end, more)
    ensures !ok ==> forall any :: !Acceptable(env, segments, any)
  {
    hide Tokens, ParseLines, Chained, Unconflicted, MessageMap, MaxTurn, LastHash;
    end, more := at, rows;
    var parsed := ReadRows(env.codec, data);
    assert segments[..i + 1][..i] == segments[..i] && segments[..i + 1][i] == data;
    if parsed.None? {
      PrefixRejects(env, segments, i + 1);
      return false, end, more;
    }
    more := rows + parsed.value;
    BrokenChain(env, segments, i + 1, more);
    ok, end := CheckRows(env, parsed.value, at, rows);
  }

  lemma NothingRead(env: Env, segments: seq<Bytes>)
    ensures Acceptable(env, segments[..0], []) && ReachedBy(Progress(map[], 0, "", 0), [])
  {
  }

  lemma NoSegments(segments: seq<Bytes>)
    ensures |Repaired(segments)| == |segments|
    ensures segments == [] ==> Repaired(segments) == segments
  {
  }

  lemma TerminatedIsRepaired(segments: seq<Bytes>)
    requires segments != [] && Terminated(segments[|segments| - 1])
    ensures Repaired(segments) == segments
  {
    var last := segments[|segments| - 1];
    CompletePartIsUnique(last, last);
  }

  // Segments the loader accepts, and the rows it reads from them.
  ghost predicate Acceptable(env: Env, segments: seq<Bytes>, rows: seq<MessageRow>) {
    ParseSegments(env, segments) == Some(rows) && Chained(env, rows) && Unconflicted(rows)
  }

  lemma SegmentRepair(segments: seq<Bytes>, i: nat)
    requires i < |segments|
    ensures |Repaired(segments)| == |segments|
    ensures i < |segments| - 1 || Terminated(segments[i]) ==> Repaired(segments)[i] == segments[i]
    ensures i == |segments| - 1 ==> Terminated(Repaired(segments)[i])
  {
    if i == |segments| - 1 && Terminated(segments[i]) {
      CompletePartIsUnique(segments[i], segments[i]);
    }
  }

  lemma PrefixRejects(env: Env, segments: seq<Bytes>, n: nat)
    requires n <= |segments| && ParseSegments(env, segments[..n]).None?
    ensures ParseSegments(env, segments).None?
  {
    if ParseSegments(env, segments).Some? {
      ParsePrefix(env, segments, n);
    }
  }

  lemma UnterminatedRejects(env: Env, segments: seq<Bytes>, i: nat)
    requires i < |segments| && !Terminated(segments[i])
    ensures forall any :: !Acceptable(env, segments, any)
  {
    assert segments[..i + 1][i] == segments[i];
    PrefixRejects(env, segments, i + 1);
  }

  // What InsertMessage committed, the loader accepts and restores exactly.
  lemma CommittedLoads(env: Env, disk: seq<File>, parts: seq<seq<MessageRow>>)
    requires Lawful(env.codec)
    requires Committed(env, disk, parts) && Journal(env, Flatten(parts))
    ensures Acceptable(env, Repaired(Images(disk)), Flatten(parts))
  {
    LaidParses(env, Repaired(Images(disk)), parts);
    MapHoldsRows(Flatten(parts));
  }

  lemma OneRowPerKey(rows: seq<MessageRow>, row: MessageRow, sessionId: string, externalId: string)
    requires Distinct(rows) && row in rows && HasKey(row, sessionId, externalId)
    ensures forall other :: other in rows && HasKey(other, sessionId, externalId) ==> other == row
  {
    var i :| 0 <= i < |rows| && rows[i] == row;
    forall other | other in rows && HasKey(other, sessionId, externalId) ensures other == row {
      var j :| 0 <= j < |rows| && rows[j] == other;
      assert SameKey(rows[i], rows[j]) && SameKey(rows[j], rows[i]);
    }
  }

  lemma DistinctSnoc(rows: seq<MessageRow>, row: MessageRow)
    requires Distinct(rows)
    requires row.messageId !in MessageMap(rows)
    requires forall id :: id in MessageMap(rows) ==> !SameKey(MessageMap(rows)[id], row)
    ensures Distinct(rows + [row])
  {
    MapHoldsRows(rows);
    hide MessageMap;
    var more := rows + [row];
    forall i, j | 0 <= i < j < |more|
      ensures more[i].messageId != more[j].messageId && !SameKey(more[i], more[j])
    {
      assert more[i] == rows[i];
    }
  }

  lemma JournalSnoc(env: Env, rows: seq<MessageRow>, row: MessageRow)
    requires Journal(env, rows) && Links(env, rows, row) && Classified(env, row)
    requires row.turnSeq == MaxTurn(rows) + if row.role == USER then 1 else 0
    requires row.messageId !in MessageMap(rows)
    requires forall id :: id in MessageMap(rows) ==> !SameKey(MessageMap(rows)[id], row)
    ensures Journal(env, rows + [row])
    ensures MessageMap(rows + [row]) == MessageMap(rows)[row.messageId := row]
    ensures MaxTurn(rows + [row]) == row.turnSeq
    ensures LastHash(rows + [row]) == row.recordHash
    ensures MaxTurn(rows) == UserTurns(rows)
  {
    hide Classified, Chained, Links, MessageMap, Distinct, Unconflicted, TurnsCounted, UserTurns, MaxTurn, LastHash;
    Snoc(env, rows, row);
    TurnsAreCounted(rows);
    DistinctSnoc(rows, row);
  }

  ghost function UserPlaces(rows: seq<MessageRow>): set<nat> {
    set i: nat | i < |rows| && rows[i].role == "user"
  }

  // Every message carries the number of user messages up to it.
  lemma {:induction false} TurnsAreUserMessages(rows: seq<MessageRow>, k: nat)
    requires TurnsCounted(rows) && k < |rows|
    ensures rows[k].turnSeq == |UserPlaces(rows[..k + 1])|
    decreases |rows|
  {
    hide UserPlaces, UserTurns;
    if k < |rows| - 1 {
      var front := rows[..|rows| - 1];
      TurnsAreUserMessages(front, k);
      assert front[..k + 1] == rows[..k + 1];
    } else {
      assert rows[..k + 1] == rows;
      UserTurnsIsCount(rows);
    }
  }

  lemma {:induction false} UserTurnsIsCount(rows: seq<MessageRow>)
    ensures UserTurns(rows) == |UserPlaces(rows)|
    decreases |rows|
  {
    if rows == [] {
      assert UserPlaces(rows) == {};
    } else {
      UserTurnsIsCount(rows[..|rows| - 1]);
      OneMorePlace(rows);
    }
  }

  lemma OneMorePlace(rows: seq<MessageRow>)
    requires rows != []
    ensures var n: nat := |rows| - 1; var before := UserPlaces(rows[..n]);
            n !in before && UserPlaces(rows) == if rows[n].role == "user" then before + {n} else before
  {
    var n: nat := |rows| - 1;
    assert forall i: nat :: i < n ==> rows[..n][i] == rows[i];
  }

  // ---- what an accepted archive says of each row ----

  ghost predicate WellLinked(env: Env, rows: seq<MessageRow>, k: nat)
    requires k < |rows|
  {
    && (rows[k].schemaVersion == 0 || rows[k].schemaVersion == 1) && rows[k].messageSeq == k + 1
    && rows[k].previousRecordHash == (if k == 0 then "" else rows[k - 1].recordHash)
    && rows[k].exactContentHash == env.contentHash(rows[k].content)
    && rows[k].recordHash == env.rowHash(rows[k].(recordHash := ""))
  }

  // A chain numbers its rows from one, each naming the record before it, its own
  // content and its own record.
  lemma {:induction false} ChainedIff(env: Env, rows: seq<MessageRow>)
    ensures Chained(env, rows) <==> forall k :: 0 <= k < |rows| ==> WellLinked(env, rows, k)
    decreases |rows|
  {
    if rows != [] {
      var front := rows[..|rows| - 1];
      ChainedIff(env, front);
      forall k | 0 <= k < |front| ensures WellLinked(env, front, k) <==> WellLinked(env, rows, k) {
      }
      assert Links(env, front, rows[|rows| - 1]) <==> WellLinked(env, rows, |rows| - 1);
    }
  }

  // No id is given to two external ids.
  lemma {:induction false} UnconflictedIff(rows: seq<MessageRow>)
    ensures Unconflicted(rows) <==>
            forall i, j :: 0 <= i < j < |rows| && rows[i].messageId == rows[j].messageId ==> rows[i].externalId == rows[j].externalId
    decreases |rows|
  {
    if rows != [] {
      var front, last := rows[..|rows| - 1], rows[|rows| - 1];
      UnconflictedIff(front);
      LatestOfId(front, last.messageId);
      assert forall i :: 0 <= i < |front| ==> front[i] == rows[i];
      hide MessageMap, Unconflicted;
      if last.messageId in MessageMap(front) {
        var k :| 0 <= k < |front| && front[k] == MessageMap(front)[last.messageId] && front[k].messageId == last.messageId;
        assert rows[k].messageId == rows[|rows| - 1].messageId;
      }
      UnconflictedStep(rows);
    }
  }

  lemma UnconflictedStep(rows: seq<MessageRow>)
    requires rows != []
    ensures Unconflicted(rows) <==>
            Unconflicted(rows[..|rows| - 1]) && !Conflicts(MessageMap(rows[..|rows| - 1]), rows[|rows| - 1])
  {
  }

  lemma {:induction false} LatestOfId(rows: seq<MessageRow>, id: string)
    ensures id in MessageMap(rows) <==> exists k :: 0 <= k < |rows| && rows[k].messageId == id
    ensures id in MessageMap(rows) ==>
              exists k :: 0 <= k < |rows| && rows[k] == MessageMap(rows)[id] && rows[k].messageId == id
    decreases |rows|
  {
    if rows != [] {
      var front := rows[..|rows| - 1];
      LatestOfId(front, id);
      assert forall i :: 0 <= i < |front| ==> front[i] == rows[i];
      assert rows[|front|] == rows[|rows| - 1];
    }
  }

  // What makes a submission a repetition, and a repetition the same message.
  lemma KeyAndPayload(row: MessageRow, sessionId: string, m: Checkpoint)
    ensures HasKey(row, sessionId, m.externalId) <==> row.sessionId == sessionId && row.externalId == m.externalId
    ensures SamePayload(row, m) <==>
            && row.role == m.role && row.contentType == m.contentType && row.content == m.content
            && row.assistantId == m.assistantId && row.assistantName == m.assistantName
  {
  }

  // A line goes to the last segment while that stays within 256 mebibytes, and
  // to a new one otherwise.
  lemma WhereALineGoes(disk: seq<File>, size: nat)
    ensures disk == [] ==> SegmentFor(disk, size) == 1
    ensures disk != [] ==>
              SegmentFor(disk, size) == if |disk[|disk| - 1].onDisk| + size <= 0x1000_0000 then |disk| else |disk| + 1
  {
  }
}
