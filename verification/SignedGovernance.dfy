// The governed protocol over its signed journal: every run of the store is a run
// of the machine, and the signed file holds that machine's journal.
module SignedGovernance {
  import opened Wrappers
  import opened Jsonl
  import opened CrashDisk
  import opened Memory
  import opened Replay
  import opened Quotes
  import opened Gate
  import opened Governance
  import GovernanceProof
  import GovernanceTheorems
  import SignedJournal
  import SignedRuns

  type Truth = SignedRuns.Truth<Bytes>

  // The signed journal of marshalled events, and encoding/json on an event.
  datatype Signing = Signing(
    env: SignedJournal.Env<Bytes>, marshal: MutationEvent -> Bytes, unmarshal: Bytes -> Option<MutationEvent>)

  ghost predicate Lawful(signing: Signing) {
    SignedJournal.CollisionFree(signing.env) && SignedJournal.LawfulCodecs(signing.env)
  }

  // What every event of the program is; a real number that no float is has no
  // marshalled form.
  predicate Marshals(signing: Signing, e: MutationEvent) {
    signing.unmarshal(signing.marshal(e)) == Some(e)
  }

  // The events of the payloads the journal hands on.
  function Unmarshalled(signing: Signing, payloads: seq<Bytes>): Option<seq<MutationEvent>> {
    if payloads == [] then Some([])
    else
      var front, last := Unmarshalled(signing, payloads[..|payloads| - 1]), signing.unmarshal(payloads[|payloads| - 1]);
      if front.None? || last.None? then None else Some(front.value + [last.value])
  }

  datatype Command =
    | Do(action: Action)                                // a critical section that writes no event
    | Commit(eventId: string, now: int)                 // CommitMutation
    | Rotate(newKey: Bytes, rotationId: string, at: int)
    | Reopen(key: Bytes)                                // a crash or a shutdown, then a load

  predicate Journals(a: Action) {
    a.FinishStep? || a.Restart?
  }

  // The event CommitMutation is about to append, if its checks pass.
  function NextEvent(s: Sys, eventId: string, now: int): Option<MutationEvent> {
    if s.phase.Committing? && Committable(s.live, s.phase.commit) && FreshIds(s, FinishStep(eventId, now))
    then Some(EventFor(s.live, s.phase.commit, eventId, now)) else None
  }

  lemma OtherStepsWriteNoEvent(env: Env, s: Sys, a: Action)
    requires !Journals(a)
    ensures Step(env, s, a).journal == s.journal
  {
    hide Verify, Bind, BuildCommit, PromoteCommit, HashTaken, MutationTarget, RetireCommit, Load;
  }

  lemma FinishWrites(env: Env, s: Sys, eventId: string, now: int)
    ensures Step(env, s, FinishStep(eventId, now)).journal ==
            if NextEvent(s, eventId, now).Some? then s.journal + [NextEvent(s, eventId, now).value] else s.journal
  {
    hide EventFor, ApplyEvent, Committable;
  }

  lemma RunSnoc(env: Env, actions: seq<Action>, a: Action)
    ensures Governance.Run(env, actions + [a]) == Step(env, Governance.Run(env, actions), a)
  {
    assert (actions + [a])[..|actions|] == actions;
  }

  // The signed file, as far as its lines go, is the machine's journal.
  ghost predicate Joined(signing: Signing, t: Truth, s: Sys) {
    Unmarshalled(signing, SignedJournal.Payloads(t.events)) == Some(s.journal)
  }

  lemma GrownJoins(signing: Signing, before: Truth, after: Truth, s: Sys, e: MutationEvent)
    requires Marshals(signing, e)
    requires Joined(signing, before, s) && SignedRuns.Grown(after.events, before.events, signing.marshal(e))
    ensures Unmarshalled(signing, SignedJournal.Payloads(after.events)) == Some(s.journal + [e])
  {
    var more, less := SignedJournal.Payloads(after.events), SignedJournal.Payloads(before.events);
    assert forall i :: 0 <= i < |less| ==> after.events[..|before.events|][i] == before.events[i];
    assert more[..|more| - 1] == less;
  }

  // What a death leaves of the store: the archive and the projection files.
  predicate SameFiles(a: Sys, b: Sys) {
    a.archive == b.archive && a.disk == b.disk
  }

  lemma FinishKeepsFiles(env: Env, s: Sys, eventId: string, now: int)
    requires NextEvent(s, eventId, now).Some?
    ensures SameFiles(Step(env, s, FinishStep(eventId, now)), s)
  {
    hide EventFor, ApplyEvent, Committable;
  }

  lemma ReopenIsRestart(env: Env, signing: Signing, s: Sys, m: Sys, t: Truth)
    requires SameFiles(s, m) && Joined(signing, t, m)
    ensures var read := Unmarshalled(signing, SignedJournal.Payloads(t.events));
            read.Some? && Reopened(s, read.value) == Step(env, m, Restart)
    ensures Step(env, m, Restart).journal == m.journal
  {
    hide Load;
  }

  // What the load makes of the files and of the events the journal hands on.
  function Reopened(s: Sys, events: seq<MutationEvent>): Sys {
    s.(journal := events, live := Load(s.disk, events), phase := Idle, rejecting := {})
  }

  // CommitMutation over the signed file is the machine's step. Wherever the
  // process dies, the file is what it was, holds the event of that very step, or
  // opens with no key; m is the machine's state either way.
  method ServeCommit(env: Env, signing: Signing, live: SignedJournal.Journal<Bytes>, s: Sys, eventId: string, now: int, ghost t: Truth)
    returns (died: bool, next: Sys, ghost after: Truth, ghost stepped: bool)
    requires live.env == signing.env && Lawful(signing)
    requires SignedRuns.Serving(live, t, live.eventsFile, live.rotationsFile) && Joined(signing, t, s)
    requires var e := NextEvent(s, eventId, now); e.Some? ==> Marshals(signing, e.value)
    modifies live
    ensures live.eventsFile.Synced() && live.rotationsFile.Synced()
    ensures SignedRuns.Describes(signing.env, after, live.eventsFile.onDisk, live.rotationsFile.onDisk)
    ensures !died ==> stepped && SignedRuns.Serving(live, after, live.eventsFile, live.rotationsFile)
    ensures var m := if stepped then Step(env, s, FinishStep(eventId, now)) else s;
            Joined(signing, after, m) && SameFiles(next, m) && (!died ==> next == m)
    ensures var e := NextEvent(s, eventId, now);
            if e.None? then !died && after == t
            else if stepped then SignedRuns.Commits(t, after, signing.marshal(e.value))
            else after == t || SignedRuns.Breaks(t, after)
  {
    hide SignedRuns.Serving, SignedRuns.Describes, SignedRuns.Grown, SignedJournal.CollisionFree, SignedJournal.LawfulCodecs,
      Step, EventFor, Committable, SignedJournal.Payloads, Unmarshalled, Marshals;
    FinishWrites(env, s, eventId, now);
    after, stepped, died := t, true, false;
    var pending := NextEvent(s, eventId, now);
    if pending.Some? {
      FinishKeepsFiles(env, s, eventId, now);
      var acknowledged;
      died, acknowledged, after := SignedRuns.ServeCommit(live, signing.marshal(pending.value), t);
      stepped := SignedRuns.Commits(t, after, signing.marshal(pending.value));
      if stepped {
        GrownJoins(signing, t, after, s, pending.value);
      }
    } else {
      SignedRuns.ServingDescribes(live, t);
    }
    next := if died then s else Step(env, s, FinishStep(eventId, now));
  }

  ghost predicate Acknowledged(acked: seq<MutationEvent>, journal: seq<MutationEvent>) {
    forall e :: e in acked ==> e in journal
  }

  lemma StillAcknowledged(env: Env, acked: seq<MutationEvent>, s: Sys, a: Action)
    requires Acknowledged(acked, s.journal)
    ensures Acknowledged(acked, Step(env, s, a).journal)
  {
    hide Step;
    GovernanceTheorems.StepAppends(env, s, a);
  }

  lemma NowAcknowledged(env: Env, acked: seq<MutationEvent>, s: Sys, eventId: string, now: int)
    requires Acknowledged(acked, s.journal) && NextEvent(s, eventId, now).Some?
    ensures Acknowledged(acked + [NextEvent(s, eventId, now).value], Step(env, s, FinishStep(eventId, now)).journal)
  {
    hide Step, NextEvent;
    FinishWrites(env, s, eventId, now);
  }

  // What is known after each command: whether the store is up, the machine's
  // actions so far, what the files are, and the events acknowledged.
  datatype Moment = Moment(up: bool, actions: seq<Action>, t: Truth, acked: seq<MutationEvent>)

  predicate Storable(signing: Signing, e: Option<MutationEvent>) {
    e.Some? ==> Marshals(signing, e.value)
  }

  // What one command does. Only a commit and a rotation can leave open what
  // happened, and only by dying.
  ghost predicate Turn(env: Env, signing: Signing, command: Command, before: Moment, after: Moment) {
    match command
    case Do(a) =>
      after == if before.up && !Journals(a) then before.(actions := before.actions + [a]) else before
    case Commit(eventId, now) =>
      var e, done := NextEvent(Governance.Run(env, before.actions), eventId, now), before.actions + [FinishStep(eventId, now)];
      if !before.up || !Storable(signing, e) then after == before
      else if e.None? then after == before.(actions := done)
      else
        var payload := signing.marshal(e.value);
        if after.up then
          && after == before.(actions := done, t := after.t, acked := before.acked + [e.value])
          && SignedRuns.Commits(before.t, after.t, payload)
        else
          && after.acked == before.acked
          && if SignedRuns.Commits(before.t, after.t, payload) then after.actions == done
             else after.actions == before.actions && (after.t == before.t || SignedRuns.Breaks(before.t, after.t))
    case Rotate(newKey, _, _) =>
      && after.actions == before.actions && after.acked == before.acked
      && if !before.up then after == before
         else if after.up then SignedRuns.Rotates(before.t, after.t, newKey)
         else after.t == before.t || SignedRuns.Rotates(before.t, after.t, newKey) || SignedRuns.Breaks(before.t, after.t)
    case Reopen(k) =>
      after == if SignedRuns.OpensWith(signing.env, before.t, k)
               then before.(up := true, actions := before.actions + [Restart], t := before.t.(key := k))
               else before.(up := false)
  }

  // A trace of the first n commands.
  ghost predicate Traces(env: Env, signing: Signing, script: seq<Command>, n: nat, trace: seq<Moment>) {
    n <= |script| && |trace| == n + 1 && forall i :: 0 <= i < n ==> Turn(env, signing, script[i], trace[i], trace[i + 1])
  }

  lemma TraceOn(env: Env, signing: Signing, script: seq<Command>, n: nat, trace: seq<Moment>, next: Moment)
    requires n < |script| && Traces(env, signing, script, n, trace)
    requires Turn(env, signing, script[n], trace[n], next)
    ensures Traces(env, signing, script, n + 1, trace + [next])
  {
    hide Turn;
  }

  // The running store: its journal, its memory, and what the files are.
  ghost predicate Runs(env: Env, signing: Signing, live: SignedJournal.Journal?<Bytes>, s: Sys, eventsFile: File, rotationsFile: File, at: Moment)
    reads live
  {
    var m := Governance.Run(env, at.actions);
    && eventsFile.Synced() && rotationsFile.Synced()
    && SignedRuns.Describes(signing.env, at.t, eventsFile.onDisk, rotationsFile.onDisk)
    && Joined(signing, at.t, m) && SameFiles(s, m) && Acknowledged(at.acked, m.journal)
    && (at.up <==> live != null)
    && (live != null ==> live.env == signing.env && SignedRuns.Serving(live, at.t, eventsFile, rotationsFile) && s == m)
  }

  method ServeAndApply(env: Env, signing: Signing, live: SignedJournal.Journal<Bytes>, s: Sys, eventId: string, now: int,
                       ghost before: Moment)
    returns (died: bool, next: Sys, acknowledged: Option<MutationEvent>, ghost after: Moment)
    requires Lawful(signing)
    requires Runs(env, signing, live, s, live.eventsFile, live.rotationsFile, before)
    requires Storable(signing, NextEvent(s, eventId, now))
    modifies live
    ensures Runs(env, signing, if died then null else live, next, live.eventsFile, live.rotationsFile, after)
    ensures Turn(env, signing, Command.Commit(eventId, now), before, after)
    ensures after.acked == if acknowledged.Some? then before.acked + [acknowledged.value] else before.acked
  {
    hide SignedRuns.Serving, SignedRuns.Describes, SignedJournal.CollisionFree, SignedJournal.LawfulCodecs,
      Step, SignedJournal.Payloads, Unmarshalled, Marshals, NextEvent, Acknowledged;
    var e := NextEvent(s, eventId, now);
    ghost var t, stepped;
    died, next, t, stepped := ServeCommit(env, signing, live, s, eventId, now, before.t);
    acknowledged := if died then None else e;
    if stepped {
      StillAcknowledged(env, before.acked, s, FinishStep(eventId, now));
      RunSnoc(env, before.actions, FinishStep(eventId, now));
    }
    if acknowledged.Some? {
      NowAcknowledged(env, before.acked, s, eventId, now);
    }
    after := Moment(!died, if stepped then before.actions + [FinishStep(eventId, now)] else before.actions, t,
                    if acknowledged.Some? then before.acked + [acknowledged.value] else before.acked);
  }

  method ServeReopen(env: Env, signing: Signing, s: Sys, eventsFile: File, rotationsFile: File, key: Bytes, ghost before: Moment)
    returns (live: SignedJournal.Journal?<Bytes>, next: Sys, ghost after: Moment)
    requires Lawful(signing)
    requires Runs(env, signing, null, s, eventsFile, rotationsFile, before.(up := false))
    ensures live != null ==> fresh(live)
    ensures Runs(env, signing, live, next, eventsFile, rotationsFile, after)
    ensures Turn(env, signing, Reopen(key), before, after) && after.acked == before.acked
  {
    hide SignedRuns.Serving, SignedRuns.Describes, SignedJournal.CollisionFree, SignedJournal.LawfulCodecs,
      Step, SignedJournal.Payloads, Unmarshalled, Acknowledged, Reopened, Short;
    live, next, after := null, s, before.(up := false);
    if |key| < SignedJournal.MIN_KEY_BYTES {
      return;
    }
    var payloads;
    ghost var t;
    live, payloads, t := SignedRuns.Restart(signing.env, eventsFile, rotationsFile, key, before.t);
    if live != null {
      ghost var m := Governance.Run(env, before.actions);
      ReopenIsRestart(env, signing, s, m, t);
      RunSnoc(env, before.actions, Restart);
      StillAcknowledged(env, before.acked, m, Restart);
      next, after := Reopened(s, Unmarshalled(signing, payloads).value), Moment(true, before.actions + [Restart], t, before.acked);
    }
  }

  lemma RunsFacts(env: Env, signing: Signing, live: SignedJournal.Journal?<Bytes>, s: Sys, eventsFile: File, rotationsFile: File,
                  at: Moment)
    requires Runs(env, signing, live, s, eventsFile, rotationsFile, at)
    ensures at.up <==> live != null
    ensures live != null ==> live.eventsFile == eventsFile && live.rotationsFile == rotationsFile
                             && s == Governance.Run(env, at.actions)
    ensures Runs(env, signing, null, s, eventsFile, rotationsFile, at.(up := false))
  {
    hide SignedRuns.Describes, Governance.Run, Joined, Acknowledged;
    if live != null {
      SignedRuns.ServesItsFiles(live, at.t, eventsFile, rotationsFile);
    }
  }

  method ServeRotate(env: Env, signing: Signing, live: SignedJournal.Journal<Bytes>, s: Sys, newKey: Bytes, rotationId: string,
                     now: int, ghost before: Moment)
    returns (died: bool, ghost after: Moment)
    requires Lawful(signing)
    requires Runs(env, signing, live, s, live.eventsFile, live.rotationsFile, before)
    modifies live
    ensures Runs(env, signing, if died then null else live, s, live.eventsFile, live.rotationsFile, after)
    ensures Turn(env, signing, Rotate(newKey, rotationId, now), before, after) && after.acked == before.acked
  {
    hide SignedRuns.Serving, SignedRuns.Describes, SignedJournal.CollisionFree, SignedJournal.LawfulCodecs,
      Governance.Run, SignedJournal.Payloads, Unmarshalled, Acknowledged;
    ghost var t;
    died, t := SignedRuns.ServeRotation(live, newKey, rotationId, now, before.t);
    after := before.(up := !died, t := t);
  }

  lemma DoKeeps(env: Env, signing: Signing, live: SignedJournal.Journal<Bytes>, s: Sys, eventsFile: File, rotationsFile: File,
                before: Moment, a: Action)
    requires !Journals(a) && Runs(env, signing, live, s, eventsFile, rotationsFile, before)
    ensures Runs(env, signing, live, Step(env, s, a), eventsFile, rotationsFile, before.(actions := before.actions + [a]))
  {
    hide SignedRuns.Serving, SignedRuns.Describes, Step, SignedJournal.Payloads, Unmarshalled;
    OtherStepsWriteNoEvent(env, s, a);
    RunSnoc(env, before.actions, a);
  }

  lemma DoTurns(env: Env, signing: Signing, a: Action, before: Moment)
    ensures Turn(env, signing, Do(a), before,
                 if before.up && !Journals(a) then before.(actions := before.actions + [a]) else before)
  {
  }

  lemma DownTurns(env: Env, signing: Signing, command: Command, before: Moment)
    requires command.Rotate? ==> !before.up
    requires command.Commit? ==>
               !before.up || !Storable(signing, NextEvent(Governance.Run(env, before.actions), command.eventId, command.now))
    requires command.Commit? || command.Rotate?
    ensures Turn(env, signing, command, before, before)
  {
  }

  // Serves a script from nothing. The process may die in any append to the
  // journal and between any two steps. What comes out is a run of the machine,
  // and the signed file holds exactly its journal.
  method Run(env: Env, signing: Signing, key: Bytes, script: seq<Command>)
    returns (live: SignedJournal.Journal?<Bytes>, s: Sys, acked: seq<MutationEvent>, eventsFile: File, rotationsFile: File,
             ghost trace: seq<Moment>)
    requires Lawful(signing) && |key| >= SignedJournal.MIN_KEY_BYTES
    ensures Traces(env, signing, script, |script|, trace)
    ensures trace[0] == Moment(false, [], SignedRuns.Whole(key, [], []), [])
    ensures Runs(env, signing, live, s, eventsFile, rotationsFile, trace[|script|]) && acked == trace[|script|].acked
  {
    hide Runs, Governance.Run, Lawful, Step, Turn, NextEvent, Storable, Traces;
    eventsFile, rotationsFile, acked, s, live := NoFile, NoFile, [], Init(), null;
    ghost var at := Moment(false, [], SignedRuns.Whole(key, [], []), []);
    trace := [at];
    Nothing(env, signing, key);
    NothingTraced(env, signing, script, trace);
    for i := 0 to |script|
      invariant live != null ==> fresh(live)
      invariant Runs(env, signing, live, s, eventsFile, rotationsFile, at) && acked == at.acked
      invariant Traces(env, signing, script, i, trace) && |trace| == i + 1
      invariant trace[0] == Moment(false, [], SignedRuns.Whole(key, [], []), []) && trace[i] == at
    {
      ghost var before := at;
      RunsFacts(env, signing, live, s, eventsFile, rotationsFile, at);
      match script[i] {
        case Do(a) =>
          if live != null && !Journals(a) {
            DoKeeps(env, signing, live, s, eventsFile, rotationsFile, at, a);
            s, at := Step(env, s, a), at.(actions := at.actions + [a]);
          }
          DoTurns(env, signing, a, before);
        case Commit(eventId, now) =>
          if live != null && Storable(signing, NextEvent(s, eventId, now)) {
            var died, acknowledged;
            died, s, acknowledged, at := ServeAndApply(env, signing, live, s, eventId, now, at);
            eventsFile, rotationsFile := live.eventsFile, live.rotationsFile;
            acked := if acknowledged.Some? then acked + [acknowledged.value] else acked;
            live := if died then null else live;
          } else {
            DownTurns(env, signing, script[i], before);
          }
        case Rotate(newKey, rotationId, now) =>
          if live != null {
            var died;
            died, at := ServeRotate(env, signing, live, s, newKey, rotationId, now, at);
            eventsFile, rotationsFile := live.eventsFile, live.rotationsFile;
            live := if died then null else live;
          } else {
            DownTurns(env, signing, script[i], before);
          }
        case Reopen(k) =>
          live, s, at := ServeReopen(env, signing, s, eventsFile, rotationsFile, k, at);
      }
      TraceOn(env, signing, script, i, trace, at);
      trace := trace + [at];
    }
  }

  lemma NothingTraced(env: Env, signing: Signing, script: seq<Command>, trace: seq<Moment>)
    requires |trace| == 1
    ensures Traces(env, signing, script, 0, trace)
  {
  }

  lemma Nothing(env: Env, signing: Signing, key: Bytes)
    requires |key| >= SignedJournal.MIN_KEY_BYTES
    ensures Runs(env, signing, null, Init(), NoFile, NoFile, Moment(false, [], SignedRuns.Whole(key, [], []), []))
  {
    SignedRuns.NothingSigned(signing.env, key);
  }

  lemma ReadsTheTruth(signing: Signing, t: Truth, key: Bytes, eventData: Bytes, rotationData: Bytes)
    requires Lawful(signing) && |key| >= SignedJournal.MIN_KEY_BYTES
    requires SignedRuns.Describes(signing.env, t, eventData, rotationData)
    requires SignedJournal.Verifies(signing.env, key, eventData, rotationData)
    ensures SignedJournal.Records(signing.env.events, eventData) == Some(t.events)
  {
    hide SignedJournal.Verifies, SignedJournal.Sound, SignedJournal.Records, SignedJournal.CollisionFree, SignedJournal.LawfulCodecs, Lines;
    SignedRuns.KeysThatOpen(signing.env, t, eventData, rotationData, key);
    SignedJournal.FilesRead(signing.env, t.events, t.rotations);
  }

  // Whatever verifies the files afterwards reads the run's journal: no request
  // and no proposal has two events in the signed file.
  lemma SignedAtMostOnce(env: Env, signing: Signing, actions: seq<Action>, t: Truth, key: Bytes, eventData: Bytes, rotationData: Bytes,
                         i: nat, j: nat)
    requires GovernanceProof.SoundDigests(env) && Joined(signing, t, Governance.Run(env, actions))
    requires Lawful(signing) && |key| >= SignedJournal.MIN_KEY_BYTES
    requires SignedRuns.Describes(signing.env, t, eventData, rotationData)
    requires SignedJournal.Verifies(signing.env, key, eventData, rotationData)
    ensures var read := SignedJournal.Records(signing.env.events, eventData);
            && read.Some?
            && var events := Unmarshalled(signing, SignedJournal.Payloads(read.value));
            && events == Some(Governance.Run(env, actions).journal)
            && (i < j < |events.value| ==>
                  && events.value[i].requestHash != events.value[j].requestHash
                  && (events.value[j].proposalId != "" ==> events.value[i].proposalId != events.value[j].proposalId))
  {
    hide SignedJournal.Verifies, Lawful, SignedRuns.Describes, SignedJournal.Records, Governance.Run, GovernanceProof.SoundDigests,
      Unmarshalled, SignedJournal.Payloads;
    ReadsTheTruth(signing, t, key, eventData, rotationData);
    if i < j < |Governance.Run(env, actions).journal| {
      GovernanceTheorems.AtMostOnce(env, actions, i, j);
    }
  }
}
