// Whole runs of the signed journal: commits, rotations, restarts and crashes in
// any order.
module SignedRuns {
  import opened Wrappers
  import opened Jsonl
  import opened CrashDisk
  import opened Encoding
  import opened SignedJournal

  datatype Request<P> =
    | CommitRequest(payload: P)
    | RotateRequest(newKey: Bytes, id: string, now: int)
    | RestartRequest(key: Bytes)

  // What the two files are. Torn: a crash left part of a line at the end of one
  // of them, and events are those before it.
  datatype Truth<P> =
    | Whole(key: Bytes, events: seq<Event<P>>, rotations: seq<Rotation>)
    | Torn(events: seq<Event<P>>, rotations: seq<Rotation>)

  ghost predicate Locked<P>(env: Env<P>, eventData: Bytes, rotationData: Bytes) {
    forall k :: |k| >= MIN_KEY_BYTES ==> !Verifies(env, k, eventData, rotationData)
  }

  ghost predicate Describes<P(!new)>(env: Env<P>, t: Truth<P>, eventData: Bytes, rotationData: Bytes) {
    match t
    case Whole(key, events, rotations) =>
      && Sound(env, key, events, rotations)
      && eventData == Lines(env.events, events) && rotationData == Lines(env.rotations, rotations)
    case Torn(events, rotations) =>
      && Locked(env, eventData, rotationData)
      && Lines(env.events, events) <= eventData && Lines(env.rotations, rotations) <= rotationData
      && (eventData == Lines(env.events, events) <==> rotationData != Lines(env.rotations, rotations))
  }

  // Every acknowledged payload is in the journal.
  ghost predicate Kept<P>(acked: seq<P>, events: seq<Event<P>>) {
    forall i :: 0 <= i < |acked| ==> exists j :: 0 <= j < |events| && events[j].body.payload == acked[i]
  }

  // Every payload in the journal was asked for.
  ghost predicate Asked<P(!new)>(events: seq<Event<P>>, script: seq<Request<P>>) {
    forall j :: 0 <= j < |events| ==> CommitRequest(events[j].body.payload) in script
  }

  // ---- what every request does ----

  // The journal after a commit: as it was, with one more event.
  ghost predicate Grown<P>(after: seq<Event<P>>, before: seq<Event<P>>, payload: P) {
    |after| == |before| + 1 && after[..|before|] == before && after[|before|].body.payload == payload
  }

  ghost predicate Commits<P>(before: Truth<P>, after: Truth<P>, payload: P) {
    && before.Whole? && after.Whole? && after.key == before.key && after.rotations == before.rotations
    && Grown(after.events, before.events, payload)
  }

  // A rotation to a key too short, or to the current one, does nothing.
  ghost predicate Rotates<P(!new)>(before: Truth<P>, after: Truth<P>, newKey: Bytes) {
    && before.Whole?
    && if |newKey| < MIN_KEY_BYTES || newKey == before.key then after == before
       else
         && after.Whole? && after.key == newKey && after.events == before.events
         && |after.rotations| == |before.rotations| + 1 && after.rotations[..|before.rotations|] == before.rotations
  }

  // A crash left part of a line.
  ghost predicate Breaks<P(!new)>(before: Truth<P>, after: Truth<P>) {
    after == Torn(before.events, before.rotations)
  }

  // The one key whole files open with; any key while nothing is signed.
  ghost predicate OpensWith<P>(env: Env<P>, t: Truth<P>, key: Bytes) {
    && |key| >= MIN_KEY_BYTES && t.Whole? && (key == t.key || (t.events == [] && t.rotations == []))
    && Short(env.events, LINE_MAX, t.events)
  }

  datatype Moment<P> = Moment(up: bool, t: Truth<P>, acked: seq<P>)

  ghost predicate Turn<P(!new)>(env: Env<P>, request: Request<P>, before: Moment<P>, after: Moment<P>) {
    match request
    case CommitRequest(payload) =>
      if !before.up then after == before
      else if after.up then Commits(before.t, after.t, payload) && after.acked == before.acked + [payload]
      else (after.t == before.t || Commits(before.t, after.t, payload) || Breaks(before.t, after.t)) && after.acked == before.acked
    case RotateRequest(newKey, _, _) =>
      && after.acked == before.acked
      && if !before.up then after == before
         else if after.up then Rotates(before.t, after.t, newKey)
         else after.t == before.t || Rotates(before.t, after.t, newKey) || Breaks(before.t, after.t)
    case RestartRequest(key) =>
      after == if OpensWith(env, before.t, key) then Moment(true, before.t.(key := key), before.acked) else before.(up := false)
  }

  ghost predicate Traces<P(!new)>(env: Env<P>, script: seq<Request<P>>, n: nat, trace: seq<Moment<P>>) {
    n <= |script| && |trace| == n + 1 && forall i :: 0 <= i < n ==> Turn(env, script[i], trace[i], trace[i + 1])
  }

  lemma TraceOn<P(!new)>(env: Env<P>, script: seq<Request<P>>, n: nat, trace: seq<Moment<P>>, next: Moment<P>)
    requires n < |script| && Traces(env, script, n, trace) && Turn(env, script[n], trace[n], next)
    ensures Traces(env, script, n + 1, trace + [next])
  {
    hide Turn;
  }

  lemma TraceStarts<P(!new)>(env: Env<P>, script: seq<Request<P>>, trace: seq<Moment<P>>)
    requires |trace| == 1
    ensures Traces(env, script, 0, trace)
  {
  }

  // ---- after a death ----

  lemma PartialEventLocks<P(!new)>(env: Env<P>, events: seq<Event<P>>, e: Event<P>, tail: Bytes, rotationData: Bytes)
    requires LawfulCodecs(env) && tail <= Line(env.events, e) && 0 < |tail| < |Line(env.events, e)|
    ensures Locked(env, Lines(env.events, events) + tail, rotationData)
  {
    TornIsUnterminated(env.events, events, e, tail);
  }

  lemma PartialRotationLocks<P(!new)>(env: Env<P>, rotations: seq<Rotation>, r: Rotation, tail: Bytes, eventData: Bytes)
    requires LawfulCodecs(env) && tail <= Line(env.rotations, r) && 0 < |tail| < |Line(env.rotations, r)|
    ensures Locked(env, eventData, Lines(env.rotations, rotations) + tail)
  {
    TornIsUnterminated(env.rotations, rotations, r, tail);
  }

  // A tail that is part of a line is nothing, the line, or neither.
  lemma TailOf(whole: Bytes, line: Bytes, data: Bytes) returns (tail: Bytes)
    requires whole <= data <= whole + line
    ensures data == whole + tail && tail <= line
    ensures |tail| == |line| ==> tail == line
  {
    tail := data[|whole|..];
    assert data == (whole + line)[..|data|];
  }

  // After a death inside a commit.
  lemma AfterTornEvent<P(!new)>(
    env: Env<P>, key: Bytes, events: seq<Event<P>>, rotations: seq<Rotation>, data: Bytes, payload: P) returns (t: Truth<P>)
    requires LawfulCodecs(env) && Sound(env, key, events, rotations)
    requires TornEvent(env, key, events, rotations, data, payload)
    ensures Describes(env, t, data, Lines(env.rotations, rotations))
    ensures var before := Whole(key, events, rotations); t == before || Commits(before, t, payload) || Breaks(before, t)
  {
    hide Lines, Line, Sound, Locked;
    var e: Event<P> :| e.body.payload == payload && Sound(env, key, events + [e], rotations)
                       && Lines(env.events, events) <= data <= Lines(env.events, events) + Line(env.events, e);
    var tail := TailOf(Lines(env.events, events), Line(env.events, e), data);
    LinesSnoc(env.events, events, e);
    if tail == [] {
      t := Whole(key, events, rotations);
    } else if |tail| == |Line(env.events, e)| {
      t := Whole(key, events + [e], rotations);
    } else {
      PartialEventLocks(env, events, e, tail, Lines(env.rotations, rotations));
      t := Torn(events, rotations);
      assert |data| > |Lines(env.events, events)|;
    }
  }

  // After a death inside a rotation: which key is current is decided by the line.
  lemma AfterTornRotation<P(!new)>(
    env: Env<P>, key: Bytes, newKey: Bytes, events: seq<Event<P>>, rotations: seq<Rotation>, data: Bytes) returns (t: Truth<P>)
    requires LawfulCodecs(env) && Sound(env, key, events, rotations)
    requires TornRotation(env, newKey, events, rotations, data) && |newKey| >= MIN_KEY_BYTES && newKey != key
    ensures Describes(env, t, Lines(env.events, events), data)
    ensures var before := Whole(key, events, rotations); t == before || Rotates(before, t, newKey) || Breaks(before, t)
  {
    hide Lines, Line, Sound, Locked;
    var r :| Sound(env, newKey, events, rotations + [r])
             && Lines(env.rotations, rotations) <= data <= Lines(env.rotations, rotations) + Line(env.rotations, r);
    var tail := TailOf(Lines(env.rotations, rotations), Line(env.rotations, r), data);
    LinesSnoc(env.rotations, rotations, r);
    if tail == [] {
      t := Whole(key, events, rotations);
    } else if |tail| == |Line(env.rotations, r)| {
      t := Whole(newKey, events, rotations + [r]);
    } else {
      PartialRotationLocks(env, rotations, r, tail, Lines(env.events, events));
      t := Torn(events, rotations);
      assert |data| > |Lines(env.rotations, rotations)|;
    }
  }

  lemma NothingSigned<P(!new)>(env: Env<P>, key: Bytes)
    requires |key| >= MIN_KEY_BYTES
    ensures Sound(env, key, [], [])
    ensures Describes(env, Whole(key, [], []), [], [])
  {
    var none: seq<Event<P>> := [];
    assert AnchoredAt(none, "", 0);
  }

  // Which keys open what the files are.
  lemma KeysThatOpen<P(!new)>(env: Env<P>, t: Truth<P>, eventData: Bytes, rotationData: Bytes, k: Bytes)
    requires CollisionFree(env) && LawfulCodecs(env) && |k| >= MIN_KEY_BYTES
    requires Describes(env, t, eventData, rotationData)
    ensures Opens(env, k, eventData, rotationData) <==>
            t.Whole? && (k == t.key || (t.events == [] && t.rotations == [])) && Short(env.events, LINE_MAX, t.events)
    ensures Verifies(env, k, eventData, rotationData) <==> t.Whole? && (k == t.key || (t.events == [] && t.rotations == []))
  {
    hide Verifies, Sound, Lines, Short, Scannable;
    match t
    case Whole(key, events, rotations) => OnlyTheCurrentKeyOpens(env, key, k, events, rotations);
    case Torn(_, _) =>
  }

  lemma Acknowledge<P(!new)>(acked: seq<P>, before: seq<Event<P>>, after: seq<Event<P>>, payload: P)
    requires Kept(acked, before) && |after| == |before| + 1 && after[..|before|] == before
    requires after[|before|].body.payload == payload
    ensures Kept(acked + [payload], after) && Kept(acked, after)
  {
    forall i | 0 <= i < |acked + [payload]|
      ensures exists j :: 0 <= j < |after| && after[j].body.payload == (acked + [payload])[i]
    {
      if i < |acked| {
        var j :| 0 <= j < |before| && before[j].body.payload == acked[i];
        assert after[j] == before[j];
      }
    }
    forall i | 0 <= i < |acked| ensures exists j :: 0 <= j < |after| && after[j].body.payload == acked[i] {
      var j :| 0 <= j < |before| && before[j].body.payload == acked[i];
      assert after[j] == before[j];
    }
  }

  // A restart under a key: it succeeds exactly when that key opens the files.
  method Restart<P(!new)>(env: Env<P>, eventsFile: File, rotationsFile: File, key: Bytes, ghost t: Truth<P>)
    returns (live: Journal?<P>, payloads: seq<P>, ghost after: Truth<P>)
    requires CollisionFree(env) && LawfulCodecs(env) && |key| >= MIN_KEY_BYTES
    requires eventsFile.Synced() && rotationsFile.Synced() && Describes(env, t, eventsFile.onDisk, rotationsFile.onDisk)
    ensures live != null <==>
            t.Whole? && (key == t.key || (t.events == [] && t.rotations == [])) && Short(env.events, LINE_MAX, t.events)
    ensures live == null ==> after == t
    ensures live != null ==> fresh(live) && live.env == env && Serving(live, after, eventsFile, rotationsFile)
    ensures live != null ==> after == t.(key := key) && payloads == Payloads(t.events)
    ensures Describes(env, after, eventsFile.onDisk, rotationsFile.onDisk)
  {
    hide Opens, Verifies, Sound, Lines, Records, CollisionFree, Short;
    KeysThatOpen(env, t, eventsFile.onDisk, rotationsFile.onDisk, key);
    after := t;
    var journal := new Journal(env, eventsFile, rotationsFile, key);
    var ok;
    ok, payloads := journal.Open();
    if !ok {
      return null, payloads, after;
    }
    FilesRead(env, t.events, t.rotations);
    NothingSigned(env, key);
    after := t.(key := key);
    journal.events, journal.rotations := t.events, t.rotations;
    live := journal;
  }

  // A running journal over these files.
  ghost predicate Serving<P(!new)>(live: Journal<P>, t: Truth<P>, eventsFile: File, rotationsFile: File)
    reads live
  {
    && live.Consistent() && live.eventsFile == eventsFile && live.rotationsFile == rotationsFile
    && t == Whole(live.integrityKey, live.events, live.rotations)
  }

  method ServeCommit<P(!new)>(live: Journal<P>, payload: P, ghost t: Truth<P>)
    returns (died: bool, acknowledged: bool, ghost after: Truth<P>)
    requires CollisionFree(live.env) && LawfulCodecs(live.env)
    requires Serving(live, t, live.eventsFile, live.rotationsFile)
    modifies live
    ensures !died ==> Serving(live, after, live.eventsFile, live.rotationsFile)
    ensures live.eventsFile.Synced() && live.rotationsFile.Synced()
    ensures Describes(live.env, after, live.eventsFile.onDisk, live.rotationsFile.onDisk)
    ensures acknowledged <==> !died
    ensures if acknowledged then Commits(t, after, payload) else after == t || Commits(t, after, payload) || Breaks(t, after)
  {
    hide Sound, Lines, CollisionFree, TornEvent, Locked;
    SoundKey(live.env, t.key, t.events, t.rotations);
    var r := live.Commit(payload);
    if r.AppendDied? {
      after := AfterTornEvent(live.env, t.key, t.events, t.rotations, live.eventsFile.onDisk, payload);
      return true, false, after;
    }
    died, acknowledged, after := false, r.Appended?, Whole(live.integrityKey, live.events, live.rotations);
  }

  method ServeRotation<P(!new)>(live: Journal<P>, newKey: Bytes, id: string, now: int, ghost t: Truth<P>)
    returns (died: bool, ghost after: Truth<P>)
    requires CollisionFree(live.env) && LawfulCodecs(live.env)
    requires Serving(live, t, live.eventsFile, live.rotationsFile)
    modifies live
    ensures !died ==> Serving(live, after, live.eventsFile, live.rotationsFile)
    ensures live.eventsFile.Synced() && live.rotationsFile.Synced()
    ensures Describes(live.env, after, live.eventsFile.onDisk, live.rotationsFile.onDisk)
    ensures if !died then Rotates(t, after, newKey) else after == t || Rotates(t, after, newKey) || Breaks(t, after)
  {
    hide Sound, Lines, CollisionFree, TornRotation, Locked;
    SoundKey(live.env, t.key, t.events, t.rotations);
    var r := live.RotateIntegrityKey(newKey, id, now);
    if r.AppendDied? {
      after := AfterTornRotation(live.env, t.key, newKey, t.events, t.rotations, live.rotationsFile.onDisk);
      return true, after;
    }
    died, after := false, Whole(live.integrityKey, live.events, live.rotations);
  }

  lemma SoundKey<P>(env: Env<P>, key: Bytes, events: seq<Event<P>>, rotations: seq<Rotation>)
    requires Sound(env, key, events, rotations)
    ensures |key| >= MIN_KEY_BYTES
  {
  }

  lemma NothingAcked<P(!new)>(script: seq<Request<P>>)
    ensures Kept<P>([], []) && Asked<P>([], script)
  {
  }

  lemma KeptAndAsked<P(!new)>(acked: seq<P>, before: seq<Event<P>>, after: seq<Event<P>>, payload: P, script: seq<Request<P>>)
    requires Kept(acked, before) && Asked(before, script)
    requires after == before || (Grown(after, before, payload) && CommitRequest(payload) in script)
    ensures Kept(acked, after) && Asked(after, script)
    ensures Grown(after, before, payload) ==> Kept(acked + [payload], after)
  {
    if Grown(after, before, payload) {
      Acknowledge(acked, before, after, payload);
      forall j | 0 <= j < |after| ensures CommitRequest(after[j].body.payload) in script {
        assert j < |before| ==> after[j] == before[j];
      }
    }
  }

  lemma TurnKeeps<P(!new)>(env: Env<P>, script: seq<Request<P>>, request: Request<P>, before: Moment<P>, after: Moment<P>)
    requires request in script && Turn(env, request, before, after)
    requires Kept(before.acked, before.t.events) && Asked(before.t.events, script)
    ensures Kept(after.acked, after.t.events) && Asked(after.t.events, script)
  {
    hide Kept, Asked, OpensWith, Grown;
    if request.CommitRequest? && before.up && after.t.events != before.t.events {
      KeptAndAsked(before.acked, before.t.events, after.t.events, request.payload, script);
    } else if request.CommitRequest? && before.up && after.up {
      GrownDiffers(after.t.events, before.t.events, request.payload);
    }
  }

  lemma GrownDiffers<P(!new)>(after: seq<Event<P>>, before: seq<Event<P>>, payload: P)
    ensures Grown(after, before, payload) ==> after != before
  {
  }

  // Every acknowledged payload is in the journal, and nothing unasked.
  lemma {:induction false} TraceKeeps<P(!new)>(env: Env<P>, script: seq<Request<P>>, n: nat, trace: seq<Moment<P>>)
    requires Traces(env, script, n, trace)
    requires Kept(trace[0].acked, trace[0].t.events) && Asked(trace[0].t.events, script)
    ensures Kept(trace[n].acked, trace[n].t.events) && Asked(trace[n].t.events, script)
    decreases n
  {
    hide Kept, Asked, Turn;
    if n > 0 {
      assert trace[n - 1 + 1] == trace[n] && script[n - 1] in script;
      TraceKeeps(env, script, n - 1, trace[..n]);
      TurnKeeps(env, script, script[n - 1], trace[n - 1], trace[n]);
    }
  }

  lemma CommitTurns<P(!new)>(env: Env<P>, request: Request<P>, before: Moment<P>, after: Moment<P>)
    requires request.CommitRequest?
    requires !before.up ==> after == before
    requires before.up && after.up ==> Commits(before.t, after.t, request.payload) && after.acked == before.acked + [request.payload]
    requires before.up && !after.up ==>
               && (after.t == before.t || Commits(before.t, after.t, request.payload) || Breaks(before.t, after.t))
               && after.acked == before.acked
    ensures Turn(env, request, before, after)
  {
  }

  lemma RotateTurns<P(!new)>(env: Env<P>, request: Request<P>, before: Moment<P>, after: Moment<P>)
    requires request.RotateRequest? && after.acked == before.acked
    requires !before.up ==> after == before
    requires before.up && after.up ==> Rotates(before.t, after.t, request.newKey)
    requires before.up && !after.up ==>
               after.t == before.t || Rotates(before.t, after.t, request.newKey) || Breaks(before.t, after.t)
    ensures Turn(env, request, before, after)
  {
  }

  lemma RestartTurns<P(!new)>(env: Env<P>, request: Request<P>, before: Moment<P>, after: Moment<P>)
    requires request.RestartRequest? && after.acked == before.acked
    requires after.up <==> OpensWith(env, before.t, request.key)
    requires after.t == if after.up then before.t.(key := request.key) else before.t
    ensures Turn(env, request, before, after)
  {
  }

  lemma NothingShort<T>(c: Codec<T>, max: nat)
    ensures Short(c, max, [])
  {
  }

  // Serves a script from empty files. A crash may strike any append; after one
  // nothing is served until a restart whose key opens the files.
  method Run<P(!new)>(env: Env<P>, key: Bytes, script: seq<Request<P>>)
    returns (live: Journal?<P>, acked: seq<P>, eventsFile: File, rotationsFile: File, ghost truth: Truth<P>, ghost trace: seq<Moment<P>>)
    requires CollisionFree(env) && LawfulCodecs(env) && |key| >= MIN_KEY_BYTES
    ensures Traces(env, script, |script|, trace) && trace[|script|] == Moment(live != null, truth, acked)
    ensures trace[0] == Moment(true, Whole(key, [], []), [])
    ensures Describes(env, truth, eventsFile.onDisk, rotationsFile.onDisk)
    ensures live != null ==> live.env == env && Serving(live, truth, eventsFile, rotationsFile)
    ensures live != null ==> live.Consistent() && live.eventsFile == eventsFile && live.rotationsFile == rotationsFile
    ensures Kept(acked, truth.events) && Asked(truth.events, script)
    ensures forall i :: 0 <= i < |acked| ==> CommitRequest(acked[i]) in script
    ensures forall k :: |k| >= MIN_KEY_BYTES ==>
              (Opens(env, k, eventsFile.onDisk, rotationsFile.onDisk)
               <==> truth.Whole? && (k == truth.key || (truth.events == [] && truth.rotations == []))
                    && Short(env.events, LINE_MAX, truth.events))
    ensures forall k :: |k| >= MIN_KEY_BYTES ==>
              (Verifies(env, k, eventsFile.onDisk, rotationsFile.onDisk)
               <==> truth.Whole? && (k == truth.key || (truth.events == [] && truth.rotations == [])))
  {
    eventsFile, rotationsFile, acked := NoFile, NoFile, [];
    truth := Whole(key, [], []);
    NothingSigned(env, key);
    NothingAcked(script);
    NothingShort(env.events, LINE_MAX);
    hide Opens, Verifies, Sound, Lines, Records, CollisionFree, LawfulCodecs, Short, Describes, Kept, Asked, Serving, Traces, Turn;
    var read;
    live, read, truth := Restart(env, eventsFile, rotationsFile, key, truth);
    trace := [Moment(true, truth, acked)];
    TraceStarts(env, script, trace);
    for i := 0 to |script|
      invariant eventsFile.Synced() && rotationsFile.Synced()
      invariant Describes(env, truth, eventsFile.onDisk, rotationsFile.onDisk)
      invariant live != null ==> fresh(live) && live.env == env && Serving(live, truth, eventsFile, rotationsFile)
      invariant Traces(env, script, i, trace) && |trace| == i + 1
      invariant trace[0] == Moment(true, Whole(key, [], []), []) && trace[i] == Moment(live != null, truth, acked)
    {
      ghost var before := trace[i];
      match script[i] {
        case RestartRequest(k) =>
          live := null;
          if |k| >= MIN_KEY_BYTES {
            live, read, truth := Restart(env, eventsFile, rotationsFile, k, truth);
          }
          RestartTurns(env, script[i], before, Moment(live != null, truth, acked));
        case CommitRequest(payload) =>
          if live != null {
            ServesItsFiles(live, truth, eventsFile, rotationsFile);
            var died, acknowledged;
            died, acknowledged, truth := ServeCommit(live, payload, truth);
            eventsFile, rotationsFile := live.eventsFile, live.rotationsFile;
            acked := if acknowledged then acked + [payload] else acked;
            live := if died then null else live;
          }
          CommitTurns(env, script[i], before, Moment(live != null, truth, acked));
        case RotateRequest(newKey, id, now) =>
          if live != null {
            ServesItsFiles(live, truth, eventsFile, rotationsFile);
            var died;
            died, truth := ServeRotation(live, newKey, id, now, truth);
            eventsFile, rotationsFile := live.eventsFile, live.rotationsFile;
            live := if died then null else live;
          }
          RotateTurns(env, script[i], before, Moment(live != null, truth, acked));
      }
      TraceOn(env, script, i, trace, Moment(live != null, truth, acked));
      trace := trace + [Moment(live != null, truth, acked)];
    }
    TraceKeeps(env, script, |script|, trace);
    AckedWereAsked(acked, truth.events, script);
    if live != null {
      ServesItsFiles(live, truth, eventsFile, rotationsFile);
    }
    forall k | |k| >= MIN_KEY_BYTES
      ensures Opens(env, k, eventsFile.onDisk, rotationsFile.onDisk)
              <==> truth.Whole? && (k == truth.key || (truth.events == [] && truth.rotations == []))
                   && Short(env.events, LINE_MAX, truth.events)
      ensures Verifies(env, k, eventsFile.onDisk, rotationsFile.onDisk)
              <==> truth.Whole? && (k == truth.key || (truth.events == [] && truth.rotations == []))
    {
      KeysThatOpen(env, truth, eventsFile.onDisk, rotationsFile.onDisk, k);
    }
  }

  lemma ServesItsFiles<P(!new)>(live: Journal<P>, t: Truth<P>, eventsFile: File, rotationsFile: File)
    requires Serving(live, t, eventsFile, rotationsFile)
    ensures live.eventsFile == eventsFile && live.rotationsFile == rotationsFile && live.Consistent()
  {
  }

  lemma ServingDescribes<P(!new)>(live: Journal<P>, t: Truth<P>)
    requires Serving(live, t, live.eventsFile, live.rotationsFile)
    ensures live.eventsFile.Synced() && live.rotationsFile.Synced()
    ensures Describes(live.env, t, live.eventsFile.onDisk, live.rotationsFile.onDisk)
  {
  }

  lemma AckedWereAsked<P(!new)>(acked: seq<P>, events: seq<Event<P>>, script: seq<Request<P>>)
    requires Kept(acked, events) && Asked(events, script)
    ensures forall i :: 0 <= i < |acked| ==> CommitRequest(acked[i]) in script
  {
    forall i | 0 <= i < |acked| ensures CommitRequest(acked[i]) in script {
      var j :| 0 <= j < |events| && events[j].body.payload == acked[i];
    }
  }

  // ---- an event too long to read back ----

  // An acknowledged commit keeps the files openable exactly when its line, and
  // every line before it, is short. The read-only verifier accepts them anyway.
  method CommitAndAsk<P(!new)>(live: Journal<P>, payload: P) returns (r: AppendResult)
    requires CollisionFree(live.env) && LawfulCodecs(live.env) && live.Consistent()
    modifies live`eventsFile, live`mutationEventSeq, live`lastEventHash, live`events
    ensures r.Appended? || r.AppendDied?
    ensures r.Appended? ==> |live.events| == |old(live.events)| + 1 && live.events[..|old(live.events)|] == old(live.events)
                            && live.events[|old(live.events)|].body.payload == payload
    ensures r.Appended? ==>
              var events, e := live.eventsFile.onDisk, live.events[|old(live.events)|];
              && Verifies(live.env, live.integrityKey, events, live.rotationsFile.onDisk)
              && (Opens(live.env, live.integrityKey, events, live.rotationsFile.onDisk)
                  <==> Short(live.env.events, LINE_MAX, old(live.events)) && |live.env.events.encode(e)| < LINE_MAX)
              && forall k :: |k| >= MIN_KEY_BYTES && Opens(live.env, k, events, live.rotationsFile.onDisk) ==>
                   Short(live.env.events, LINE_MAX, live.events)
  {
    hide Sound, Lines, CollisionFree, Opens, Verifies, Short;
    SoundKey(live.env, live.integrityKey, live.events, live.rotations);
    ghost var before := live.events;
    r := live.Commit(payload);
    if r.Appended? {
      ShortSnoc(live.env.events, LINE_MAX, before, live.events);
      forall k | |k| >= MIN_KEY_BYTES
        ensures Opens(live.env, k, live.eventsFile.onDisk, live.rotationsFile.onDisk) ==> Short(live.env.events, LINE_MAX, live.events)
      {
        OnlyTheCurrentKeyOpens(live.env, live.integrityKey, k, live.events, live.rotations);
      }
      OnlyTheCurrentKeyOpens(live.env, live.integrityKey, live.integrityKey, live.events, live.rotations);
    }
  }

  lemma ShortSnoc<T>(c: Codec<T>, max: nat, before: seq<T>, after: seq<T>)
    requires |after| == |before| + 1 && after[..|before|] == before
    ensures Short(c, max, after) <==> Short(c, max, before) && |c.encode(after[|before|])| < max
  {
    assert after == before + [after[|before|]];
    assert after[|before|] in after;
  }

  // Sixteen mebibytes of "<", once marshalled.
  const LONG: Bytes := seq(LINE_MAX, _ => 60)

  // The first commit of a fresh store locks it: acknowledged, durable, verified
  // by the read-only pass, and openable with no key.
  method OverlongEventLocksTheStore(env: Env<Bytes>, key: Bytes) returns (r: AppendResult, live: Journal<Bytes>)
    requires CollisionFree(env) && LawfulCodecs(env) && |key| >= MIN_KEY_BYTES
    requires forall e :: |env.events.encode(e)| >= |e.body.payload|
    ensures live.env == env && live.integrityKey == key && (r.Appended? || r.AppendDied?)
    ensures r.Appended? ==> Verifies(env, key, live.eventsFile.onDisk, live.rotationsFile.onDisk)
    ensures r.Appended? ==> forall k :: |k| >= MIN_KEY_BYTES ==> !Opens(env, k, live.eventsFile.onDisk, live.rotationsFile.onDisk)
  {
    NothingSigned(env, key);
    live := new Journal(env, NoFile, NoFile, key);
    hide Opens, Verifies, Short, Sound, CollisionFree;
    r := CommitAndAsk(live, LONG);
    if r.Appended? {
      ShortSnoc(env.events, LINE_MAX, [], live.events);
    }
  }

  // ---- the assumptions can be met ----

  function ListEvent(body: EventBody<Bytes>): string {
    Delimited(Decimal(body.version)) + (Delimited(Decimal(body.seq_)) + (Delimited(KeepAll(body.payload)) + Delimited(body.previousHash)))
  }

  lemma ListEventIsInjective(x: EventBody<Bytes>, y: EventBody<Bytes>)
    requires ListEvent(x) == ListEvent(y)
    ensures x == y
  {
    hide Delimited, Decimal;
    DelimitedIsPrefixFree(
      Decimal(x.version), Delimited(Decimal(x.seq_)) + (Delimited(KeepAll(x.payload)) + Delimited(x.previousHash)),
      Decimal(y.version), Delimited(Decimal(y.seq_)) + (Delimited(KeepAll(y.payload)) + Delimited(y.previousHash)));
    DelimitedIsPrefixFree(Decimal(x.seq_), Delimited(KeepAll(x.payload)) + Delimited(x.previousHash),
                          Decimal(y.seq_), Delimited(KeepAll(y.payload)) + Delimited(y.previousHash));
    DelimitedIsPrefixFree(KeepAll(x.payload), Delimited(x.previousHash), KeepAll(y.payload), Delimited(y.previousHash));
    assert Delimited(x.previousHash) + "" == Delimited(x.previousHash) && Delimited(y.previousHash) + "" == Delimited(y.previousHash);
    DelimitedIsPrefixFree(x.previousHash, "", y.previousHash, "");
    DecimalIsInjective(x.version, y.version);
    DecimalIsInjective(x.seq_, y.seq_);
    KeepAllIsInjective(x.payload, y.payload);
  }

  // For marshalled payloads there are collision-free digests and key names.
  lemma CollisionFreeExists(env: Env<Bytes>)
    ensures CollisionFree(env.(eventHash := ListEvent, keyId := KeepAll))
  {
    forall x, y | ListEvent(x) == ListEvent(y) ensures x == y {
      ListEventIsInjective(x, y);
    }
    forall x ensures ListEvent(x) != "" {
      assert |Delimited(Decimal(x.version))| > 0;
    }
    forall k, l | KeepAll(k) == KeepAll(l) ensures k == l {
      KeepAllIsInjective(k, l);
    }
    hide ListEvent;
  }
}
