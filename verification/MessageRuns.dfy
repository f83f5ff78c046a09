// Whole runs of the message archive: submissions, retries, restarts, crashes.
module MessageRuns {
  import opened Wrappers
  import opened Jsonl
  import opened CrashDisk
  import opened MessageJournal

  datatype Request =
    | Submit(sessionId: string, m: Checkpoint, id: string, now: int)
    | Restart

  // An acknowledgement: the client was told that m is archived under id.
  datatype Ack = Ack(sessionId: string, m: Checkpoint, id: string)

  ghost predicate Archived(rows: seq<MessageRow>, a: Ack) {
    exists row :: row in rows && Stores(row, a.sessionId, a.m, a.id)
  }

  ghost predicate ComesFrom(row: MessageRow, request: Request) {
    request.Submit? && Stores(row, request.sessionId, request.m, request.id)
  }

  // Every row was acknowledged, or the process died archiving it.
  ghost predicate Accounted(row: MessageRow, script: seq<Request>, acked: seq<Ack>, died: set<nat>) {
    exists i :: 0 <= i < |script| && ComesFrom(row, script[i])
      && (i in died || Ack(script[i].sessionId, script[i].m, script[i].id) in acked)
  }

  // Identifiers are drawn once: newID never repeats.
  ghost predicate FreshIds(script: seq<Request>) {
    forall i, j :: 0 <= i < j < |script| && script[i].Submit? && script[j].Submit? ==> script[i].id != script[j].id
  }

  ghost predicate AllArchived(rows: seq<MessageRow>, acked: seq<Ack>) {
    forall a :: a in acked ==> Archived(rows, a)
  }

  ghost predicate AllAccounted(rows: seq<MessageRow>, script: seq<Request>, acked: seq<Ack>, died: set<nat>) {
    forall row :: row in rows ==> Accounted(row, script, acked, died)
  }

  // ---- what every request does ----

  datatype Moment = Moment(up: bool, rows: seq<MessageRow>, acked: seq<Ack>, died: set<nat>)

  ghost predicate Taken(rows: seq<MessageRow>, sessionId: string, externalId: string) {
    exists row :: row in rows && HasKey(row, sessionId, externalId)
  }

  ghost predicate Conflicts(rows: seq<MessageRow>, sessionId: string, m: Checkpoint) {
    forall row :: row in rows && HasKey(row, sessionId, m.externalId) ==> !SamePayload(row, m)
  }

  // A restart loads every row or dies. A submission whose external id is taken is
  // acknowledged again under its first id or changes nothing; any other is
  // archived and acknowledged unless the process dies in it.
  ghost predicate Turn(env: Env, request: Request, i: nat, before: Moment, after: Moment) {
    match request
    case Restart => after == before.(up := after.up)
    case Submit(sessionId, m, id, now) =>
      if !before.up then after == before
      else if Taken(before.rows, sessionId, m.externalId) then
        if Conflicts(before.rows, sessionId, m) then after == before
        else exists known :: Archived(before.rows, Ack(sessionId, m, known))
                             && after == before.(acked := before.acked + [Ack(sessionId, m, known)])
      else if after.up then
        && Adds(env, after.rows, before.rows, sessionId, m, id, now)
        && after == before.(rows := after.rows, acked := before.acked + [Ack(sessionId, m, id)])
      else
        && (after.rows == before.rows || Adds(env, after.rows, before.rows, sessionId, m, id, now))
        && after == before.(up := false, rows := after.rows, died := before.died + {i})
  }

  ghost predicate Traces(env: Env, script: seq<Request>, n: nat, trace: seq<Moment>) {
    n <= |script| && |trace| == n + 1 && forall i :: 0 <= i < n ==> Turn(env, script[i], i, trace[i], trace[i + 1])
  }

  lemma TraceOn(env: Env, script: seq<Request>, n: nat, trace: seq<Moment>, next: Moment)
    requires n < |script| && Traces(env, script, n, trace) && Turn(env, script[n], n, trace[n], next)
    ensures Traces(env, script, n + 1, trace + [next])
  {
    hide Turn;
  }

  // What the answer to a submission says of the turn.
  lemma SubmitTurns(env: Env, request: Request, i: nat, before: Moment, after: Moment, r: InsertResult)
    requires request.Submit? && before.up
    requires r.Replayed? || r.Conflicting? <==> Taken(before.rows, request.sessionId, request.m.externalId)
    requires r.Replayed? ==> Archived(before.rows, Ack(request.sessionId, request.m, r.known))
                             && after == before.(acked := before.acked + [Ack(request.sessionId, request.m, r.known)])
    requires r.Conflicting? ==> Conflicts(before.rows, request.sessionId, request.m) && after == before
    requires r.Inserted? ==> Adds(env, after.rows, before.rows, request.sessionId, request.m, request.id, request.now)
                             && after == before.(rows := after.rows, acked := before.acked + [Ack(request.sessionId, request.m, request.id)])
    requires r.InsertDied? ==> (after.rows == before.rows || Adds(env, after.rows, before.rows, request.sessionId, request.m, request.id, request.now))
                               && after == before.(up := false, rows := after.rows, died := before.died + {i})
    ensures Turn(env, request, i, before, after)
  {
    hide Adds, HasKey, SamePayload, Stores;
    if r.Replayed? {
      var row :| row in before.rows && Stores(row, request.sessionId, request.m, r.known);
      StoredIsSame(row, request.sessionId, request.m, r.known);
    }
  }

  lemma StoredIsSame(row: MessageRow, sessionId: string, m: Checkpoint, id: string)
    requires Stores(row, sessionId, m, id)
    ensures HasKey(row, sessionId, m.externalId) && SamePayload(row, m)
  {
  }

  lemma OtherTurns(env: Env, request: Request, i: nat, before: Moment, after: Moment)
    requires if request.Restart? then after == before.(up := after.up) else !before.up && after == before
    ensures Turn(env, request, i, before, after)
  {
  }

  // Two acknowledgements for one external id of a session name the same message
  // and, for the client, the same payload.
  lemma ExactlyOnce(env: Env, rows: seq<MessageRow>, a: Ack, b: Ack)
    requires Journal(env, rows) && Archived(rows, a) && Archived(rows, b)
    requires a.sessionId == b.sessionId && a.m.externalId == b.m.externalId
    ensures a.id == b.id && a.m.content == b.m.content && a.m.role == b.m.role && a.m.contentType == b.m.contentType
    ensures a.m.assistantId == b.m.assistantId && a.m.assistantName == b.m.assistantName
  {
    var row :| row in rows && Stores(row, a.sessionId, a.m, a.id);
    OneRowPerKey(rows, row, a.sessionId, a.m.externalId);
  }

  // After n requests: what was acknowledged is archived, and what is archived
  // was acknowledged or in flight when the process died.
  ghost predicate Kept(script: seq<Request>, n: nat, at: Moment)
    requires n <= |script|
  {
    && AllArchived(at.rows, at.acked) && AllAccounted(at.rows, script[..n], at.acked, at.died)
    && forall i :: i in at.died ==> i < n
  }

  lemma TurnKeeps(env: Env, script: seq<Request>, n: nat, before: Moment, after: Moment)
    requires n < |script| && Kept(script, n, before) && Turn(env, script[n], n, before, after)
    ensures Kept(script, n + 1, after)
  {
    hide AllArchived, AllAccounted, Adds, Taken, Conflicts, Archived;
    var request := script[n];
    if request.Submit? && Adds(env, after.rows, before.rows, request.sessionId, request.m, request.id, request.now) && after.rows != before.rows {
      Grown(env, before.rows, after.rows, script, n, before.acked, after.acked, before.died, after.died);
    } else {
      if request.Submit? {
        AckedAgain(env, request, n, before, after);
      }
      KeepAccounts(before.rows, script, n, before.acked, after.acked, before.died, after.died);
    }
  }

  lemma AckedAgain(env: Env, request: Request, i: nat, before: Moment, after: Moment)
    requires request.Submit? && Turn(env, request, i, before, after) && AllArchived(before.rows, before.acked)
    requires after.rows == before.rows
    ensures AllArchived(after.rows, after.acked)
  {
    assert !Adds(env, after.rows, before.rows, request.sessionId, request.m, request.id, request.now);
  }

  // The archive is served by store, or by nobody.
  ghost predicate Stands(env: Env, store: MessageStore?, disk: seq<File>, parts: seq<seq<MessageRow>>, at: Moment)
    reads store
  {
    && Committed(env, disk, parts) && Journal(env, Flatten(parts)) && at.rows == Flatten(parts) && (at.up <==> store != null)
    && (store != null ==> store.env == env && store.Consistent() && store.disk == disk && store.parts == parts)
  }

  method ServeSubmit(store: MessageStore, request: Request, ghost i: nat, ghost before: Moment)
    returns (r: InsertResult, ghost after: Moment)
    requires Lawful(store.env.codec) && request.Submit? && request.id !in store.messages
    requires Stands(store.env, store, store.disk, store.parts, before)
    modifies store
    ensures Stands(store.env, if r.InsertDied? then null else store, store.disk, store.parts, after)
    ensures Turn(store.env, request, i, before, after)
    ensures after.acked == match r
                           case Inserted(_) => before.acked + [Ack(request.sessionId, request.m, request.id)]
                           case Replayed(known) => before.acked + [Ack(request.sessionId, request.m, known)]
                           case _ => before.acked
    ensures after.died == if r.InsertDied? then before.died + {i} else before.died
  {
    hide Laid, Flatten, Journal, Repaired, MessageMap, Stores, Adds, Lawful, Turn;
    r := store.InsertMessage(request.sessionId, request.m, request.id, request.now);
    after := before.(rows := Flatten(store.parts));
    match r {
      case Inserted(_) =>
        after := after.(acked := before.acked + [Ack(request.sessionId, request.m, request.id)]);
        CommittedNow(store);
      case Replayed(known) =>
        after := after.(acked := before.acked + [Ack(request.sessionId, request.m, known)]);
        CommittedNow(store);
      case Conflicting =>
        CommittedNow(store);
      case InsertDied =>
        after := after.(up := false, died := before.died + {i});
    }
    SubmitTurns(store.env, request, i, before, after, r);
  }

  method ServeRestart(env: Env, disk: seq<File>, ghost parts: seq<seq<MessageRow>>, ghost i: nat, ghost before: Moment)
    returns (store: MessageStore?, left: seq<File>, ghost after: Moment)
    requires Lawful(env.codec)
    requires Committed(env, disk, parts) && Journal(env, Flatten(parts)) && before.rows == Flatten(parts)
    ensures store != null ==> fresh(store)
    ensures Stands(env, store, left, parts, after)
    ensures Turn(env, Restart, i, before, after) && after.acked == before.acked && after.died == before.died
  {
    hide Laid, Flatten, Journal, Repaired, MessageMap, MaxTurn, LastHash, Acceptable, Lawful;
    var loading := new MessageStore(env, disk, parts);
    CommittedLoads(env, disk, parts);
    ghost var segments := Repaired(Images(disk));
    var result, loaded := loading.Load();
    left := loading.disk;
    match result {
      case Rejected => assert false;
      case LoadDied => StillCommitted(env, left, parts, segments); store := null;
      case Loaded => Reloaded(loading, segments, loaded); store := loading;
    }
    after := before.(up := store != null);
  }

  // Serves a script from empty files. A crash may strike any write, sync or
  // truncation, also while recovering from an earlier one.
  method Run(env: Env, script: seq<Request>)
    returns (acked: seq<Ack>, died: set<nat>, disk: seq<File>, ghost parts: seq<seq<MessageRow>>, ghost trace: seq<Moment>)
    requires Lawful(env.codec) && FreshIds(script)
    ensures Traces(env, script, |script|, trace) && trace[0] == Moment(false, [], [], {})
    ensures trace[|script|] == Moment(trace[|script|].up, Flatten(parts), acked, died)
    ensures Committed(env, disk, parts) && Journal(env, Flatten(parts))
    ensures AllArchived(Flatten(parts), acked) && AllAccounted(Flatten(parts), script, acked, died)
    ensures forall i :: i in died ==> i < |script|
  {
    acked, died, disk, parts := [], {}, [], [];
    ghost var at := Moment(false, [], [], {});
    trace := [at];
    NothingArchived(env);
    assert Traces(env, script, 0, trace);
    assert Kept(script, 0, at);
    hide Laid, Flatten, Journal, Committed, Lawful, Turn, Traces, Kept, FreshIds;
    var store: MessageStore? := null;
    for i := 0 to |script|
      invariant store != null ==> fresh(store)
      invariant Stands(env, store, disk, parts, at) && at.acked == acked && at.died == died
      invariant Traces(env, script, i, trace) && |trace| == i + 1 && trace[0] == Moment(false, [], [], {}) && trace[i] == at
      invariant Kept(script, i, at)
    {
      match script[i] {
        case Restart =>
          store, disk, at := ServeRestart(env, disk, parts, i, at);
        case Submit(sessionId, m, id, now) =>
          if store != null {
            FreshHere(store, script, i, at);
            var r;
            r, at := ServeSubmit(store, script[i], i, at);
            disk, parts := store.disk, store.parts;
            match r {
              case Inserted(_) => acked := acked + [Ack(sessionId, m, id)];
              case Replayed(known) => acked := acked + [Ack(sessionId, m, known)];
              case Conflicting =>
              case InsertDied => died, store := died + {i}, null;
            }
          } else {
            OtherTurns(env, script[i], i, at, at);
          }
      }
      TurnKeeps(env, script, i, trace[i], at);
      TraceOn(env, script, i, trace, at);
      trace := trace + [at];
    }
    AllKept(script, at);
  }

  lemma AllKept(script: seq<Request>, at: Moment)
    requires Kept(script, |script|, at)
    ensures AllArchived(at.rows, at.acked) && AllAccounted(at.rows, script, at.acked, at.died)
    ensures forall i :: i in at.died ==> i < |script|
  {
    assert script[..|script|] == script;
  }

  lemma NothingArchived(env: Env)
    ensures Committed(env, [], []) && Journal(env, Flatten([])) && Flatten([]) == []
    ensures AllArchived(Flatten([]), []) && AllAccounted(Flatten([]), [], [], {})
  {
    NoRows(env);
  }

  lemma StillCommitted(env: Env, disk: seq<File>, parts: seq<seq<MessageRow>>, segments: seq<Bytes>)
    requires AllSynced(disk) && Laid(env, segments, parts) && Repaired(Images(disk)) == segments
    ensures Committed(env, disk, parts)
  {
  }

  lemma Reloaded(store: MessageStore, segments: seq<Bytes>, loaded: seq<MessageRow>)
    requires AllSynced(store.disk) && Images(store.disk) == segments && Laid(store.env, segments, store.parts)
    requires Journal(store.env, store.Rows())
    requires Acceptable(store.env, segments, loaded) && Acceptable(store.env, segments, store.Rows())
    requires store.messages == MessageMap(loaded) && store.messageSeq == |loaded| && store.turnSeq == MaxTurn(loaded)
    requires store.lastMessageHash == LastHash(loaded) && store.messageSegment == |store.disk|
    ensures store.Consistent() && Committed(store.env, store.disk, store.parts)
  {
    LaidIsRepaired(store.env, segments, store.parts);
  }

  lemma CommittedNow(store: MessageStore)
    requires store.Consistent()
    ensures Committed(store.env, store.disk, store.parts) && Journal(store.env, Flatten(store.parts))
  {
    LaidIsRepaired(store.env, Images(store.disk), store.parts);
  }

  lemma FreshHere(store: MessageStore, script: seq<Request>, i: nat, at: Moment)
    requires store.Consistent() && FreshIds(script)
    requires i < |script| && script[i].Submit?
    requires at.rows == store.Rows() && Kept(script, i, at)
    ensures script[i].id !in store.messages
  {
    MapHoldsRows(store.Rows());
    hide MessageMap, Distinct, Chained;
    forall k | k in store.messages ensures k != script[i].id {
      var row := store.messages[k];
      var j :| 0 <= j < |script[..i]| && ComesFrom(row, script[..i][j]);
      assert script[j].Submit? && script[j].id == k;
    }
  }

  // One more row: everything archived or accounted for so far still is.
  lemma Grown(env: Env, rows: seq<MessageRow>, more: seq<MessageRow>, script: seq<Request>, i: nat,
              acks: seq<Ack>, moreAcks: seq<Ack>, dead: set<nat>, moreDead: set<nat>)
    requires i < |script| && script[i].Submit?
    requires Adds(env, more, rows, script[i].sessionId, script[i].m, script[i].id, script[i].now)
    requires acks <= moreAcks && dead <= moreDead
    requires i in moreDead || Ack(script[i].sessionId, script[i].m, script[i].id) in moreAcks
    requires moreAcks == acks || moreAcks == acks + [Ack(script[i].sessionId, script[i].m, script[i].id)]
    requires AllArchived(rows, acks) && AllAccounted(rows, script[..i], acks, dead)
    ensures AllArchived(more, moreAcks) && AllAccounted(more, script[..i + 1], moreAcks, moreDead)
  {
    var added :| more == rows + [added] && Stores(added, script[i].sessionId, script[i].m, script[i].id);
    assert forall row :: row in more <==> row in rows || row == added;
    forall a | a in acks ensures Archived(more, a) {
      var row :| row in rows && Stores(row, a.sessionId, a.m, a.id);
      assert row in more;
    }
    assert added in more && Archived(more, Ack(script[i].sessionId, script[i].m, script[i].id));
    forall row | row in more ensures Accounted(row, script[..i + 1], moreAcks, moreDead) {
      if row in rows {
        KeepAccount(row, script, i, acks, moreAcks, dead, moreDead);
      } else {
        assert ComesFrom(row, script[..i + 1][i]);
      }
    }
  }

  lemma OneMoreAck(rows: seq<MessageRow>, acks: seq<Ack>, a: Ack)
    requires AllArchived(rows, acks) && Archived(rows, a)
    ensures AllArchived(rows, acks + [a])
  {
  }

  lemma KeepAccounts(rows: seq<MessageRow>, script: seq<Request>, i: nat,
                     acks: seq<Ack>, moreAcks: seq<Ack>, dead: set<nat>, moreDead: set<nat>)
    requires i < |script| && AllAccounted(rows, script[..i], acks, dead)
    requires acks <= moreAcks && dead <= moreDead
    ensures AllAccounted(rows, script[..i + 1], moreAcks, moreDead)
  {
    forall row | row in rows ensures Accounted(row, script[..i + 1], moreAcks, moreDead) {
      KeepAccount(row, script, i, acks, moreAcks, dead, moreDead);
    }
  }

  lemma KeepAccount(row: MessageRow, script: seq<Request>, i: nat,
                    acks: seq<Ack>, moreAcks: seq<Ack>, dead: set<nat>, moreDead: set<nat>)
    requires i < |script| && Accounted(row, script[..i], acks, dead)
    requires acks <= moreAcks && dead <= moreDead
    ensures Accounted(row, script[..i + 1], moreAcks, moreDead)
  {
    var j :| 0 <= j < i && ComesFrom(row, script[..i][j])
      && (j in dead || Ack(script[..i][j].sessionId, script[..i][j].m, script[..i][j].id) in acks);
    assert ComesFrom(row, script[..i + 1][j]);
  }
}
