// Whole runs of one generation: appends, restarts and crashes in any order.
module VectorRuns {
  import opened Wrappers
  import opened Format
  import opened Jsonl
  import opened VectorStore

  datatype Request =
    | AppendRequest(sourceType: string, sourceId: string, inputHash: string, record: Bytes, now: int)
    | Restart(at: int)

  // The one ref a request can commit as the n-th.
  function RefOf(env: Env, shape: Shape, n: nat, request: Request): Ref
    requires request.AppendRequest?
  {
    NextRef(env, shape, n, request.sourceType, request.sourceId, request.inputHash, request.record, request.now)
  }

  function KeyOf(request: Request): string
    requires request.AppendRequest?
  {
    Key(request.sourceId, request.inputHash)
  }

  // ---- what every request does ----

  // Where a run stands: whether the generation is open, its files and what they
  // commit, what was acknowledged, which requests the process died in, and
  // whether some restart was refused.
  datatype Moment = Moment(up: bool, files: Files, refs: seq<Ref>, acked: seq<Ref>, died: set<nat>, refused: bool)

  ghost predicate Opens(at: Moment) {
    Recoverable(at.files, at.refs)
  }

  ghost predicate Sound(env: Env, ref: Ref) {
    ref.sourceId != "" && Fits(env, ref)
  }

  // The i-th request. A restart is refused exactly when the files are not
  // recoverable; an append commits and acknowledges the one ref it can, unless
  // the process dies in it.
  ghost predicate Turn(env: Env, shape: Shape, request: Request, i: nat, before: Moment, after: Moment) {
    match request
    case Restart(_) =>
      if Opens(before) then after == before.(up := after.up, files := after.files) && Opens(after)
      else after == before.(up := false, refused := true)
    case AppendRequest(_, _, _, record, _) =>
      if !before.up then after == before
      else if HasKey(before.refs, KeyOf(request)) then
        exists known :: known in before.refs && RefKey(known) == KeyOf(request) && after == before.(acked := before.acked + [known])
      else if !Storable(shape, |before.refs|, record) then after == before
      else AppendTurn(env, RefOf(env, shape, |before.refs|, request), i, before, after)
  }

  ghost predicate AppendTurn(env: Env, ref: Ref, i: nat, before: Moment, after: Moment) {
    if after.up then
      && after == before.(files := after.files, refs := before.refs + [ref], acked := before.acked + [ref])
      && (Opens(after) <==> Opens(before) && Sound(env, ref))
    else
      && after == before.(up := false, files := after.files, refs := after.refs, died := before.died + {i})
      && (after.refs == before.refs || after.refs == before.refs + [ref])
      && (Opens(after) ==> Opens(before))
      && (Opens(before) && Sound(env, ref) ==> Opens(after))
      && (after.refs != before.refs && Opens(after) ==> Sound(env, ref))
  }

  ghost predicate Traces(env: Env, shape: Shape, script: seq<Request>, n: nat, trace: seq<Moment>) {
    n <= |script| && |trace| == n + 1
    && forall i :: 0 <= i < n ==> Turn(env, shape, script[i], i, trace[i], trace[i + 1])
  }

  lemma TraceOn(env: Env, shape: Shape, script: seq<Request>, n: nat, trace: seq<Moment>, next: Moment)
    requires n < |script| && Traces(env, shape, script, n, trace)
    requires Turn(env, shape, script[n], n, trace[n], next)
    ensures Traces(env, shape, script, n + 1, trace + [next])
  {
    hide Turn;
  }

  lemma TraceFront(env: Env, shape: Shape, script: seq<Request>, n: nat, trace: seq<Moment>)
    requires n > 0 && Traces(env, shape, script, n, trace)
    ensures Traces(env, shape, script, n - 1, trace[..n])
    ensures Turn(env, shape, script[n - 1], n - 1, trace[n - 1], trace[n])
  {
    hide Turn;
    assert trace[n - 1 + 1] == trace[n];
  }

  // ---- what follows for whole traces ----

  // Where a committed ref comes from: it was acknowledged, or the process died
  // appending it.
  ghost predicate Accounted(env: Env, shape: Shape, ref: Ref, script: seq<Request>, at: Moment) {
    || ref in at.acked
    || exists i :: i in at.died && i < |script| && script[i].AppendRequest? && ref == RefOf(env, shape, ref.ordinal, script[i])
  }

  // After n requests on files that committed base.
  ghost predicate Durable(env: Env, shape: Shape, base: seq<Ref>, script: seq<Request>, n: nat, at: Moment) {
    && base <= at.refs
    && (forall k :: 0 <= k < |at.refs| ==> at.refs[k].ordinal == k)
    && (forall a :: a in at.acked ==> a in at.refs)
    && (forall r :: r in at.refs ==> r in base || Accounted(env, shape, r, script, at))
    && |at.refs| <= |base| + |at.acked| + |at.died|
    && (forall i :: i in at.died ==> i < n)
  }

  lemma KeepsAccount(env: Env, shape: Shape, ref: Ref, script: seq<Request>, before: Moment, after: Moment)
    requires Accounted(env, shape, ref, script, before)
    requires before.acked <= after.acked && before.died <= after.died
    ensures Accounted(env, shape, ref, script, after)
  {
  }

  lemma AppendKeeps(env: Env, shape: Shape, base: seq<Ref>, script: seq<Request>, n: nat, before: Moment, after: Moment)
    requires n < |script| && script[n].AppendRequest? && Durable(env, shape, base, script, n, before)
    requires AppendTurn(env, RefOf(env, shape, |before.refs|, script[n]), n, before, after)
    ensures Durable(env, shape, base, script, n + 1, after)
  {
    hide Opens, Sound;
    var ref := RefOf(env, shape, |before.refs|, script[n]);
    assert n !in before.died;
    forall r | r in after.refs ensures r in base || Accounted(env, shape, r, script, after) {
      if r in before.refs {
        if r !in base {
          KeepsAccount(env, shape, r, script, before, after);
        }
      } else {
        assert r == ref && r == RefOf(env, shape, r.ordinal, script[n]);
      }
    }
  }

  lemma TurnKeeps(env: Env, shape: Shape, base: seq<Ref>, script: seq<Request>, n: nat, before: Moment, after: Moment)
    requires n < |script| && Durable(env, shape, base, script, n, before) && Turn(env, shape, script[n], n, before, after)
    ensures Durable(env, shape, base, script, n + 1, after)
  {
    hide Opens, AppendTurn, RefOf, Storable;
    if script[n].AppendRequest? && before.up && !HasKey(before.refs, KeyOf(script[n]))
       && Storable(shape, |before.refs|, script[n].record) {
      AppendKeeps(env, shape, base, script, n, before, after);
    } else {
      forall r | r in after.refs ensures r in base || Accounted(env, shape, r, script, after) {
        if r !in base {
          KeepsAccount(env, shape, r, script, before, after);
        }
      }
    }
  }

  // In every run each acknowledged ref stays committed at its ordinal, and each
  // committed ref was acknowledged or in flight at a crash.
  lemma {:induction false} TraceKeeps(env: Env, shape: Shape, base: seq<Ref>, script: seq<Request>, n: nat, trace: seq<Moment>)
    requires Traces(env, shape, script, n, trace)
    requires Durable(env, shape, base, script, 0, trace[0])
    ensures Durable(env, shape, base, script, n, trace[n])
    decreases n
  {
    hide Turn, Durable;
    if n > 0 {
      TraceFront(env, shape, script, n, trace);
      TraceKeeps(env, shape, base, script, n - 1, trace[..n]);
      TurnKeeps(env, shape, base, script, n - 1, trace[n - 1], trace[n]);
    }
  }

  // A request about to commit a ref that no recovery accepts: its source has no
  // name, or its line, which is known before the call, is too long.
  ghost predicate Fatal(env: Env, shape: Shape, at: Moment, request: Request) {
    && request.AppendRequest? && at.up
    && !HasKey(at.refs, KeyOf(request)) && Storable(shape, |at.refs|, request.record)
    && !Sound(env, RefOf(env, shape, |at.refs|, request))
  }

  lemma TurnOpens(env: Env, shape: Shape, request: Request, i: nat, before: Moment, after: Moment)
    requires Turn(env, shape, request, i, before, after)
    ensures Opens(after) ==> Opens(before)
    ensures Opens(before) && !Fatal(env, shape, before, request) ==> Opens(after) && after.refused == before.refused
    ensures Fatal(env, shape, before, request) && Opens(after) ==> after.refs == before.refs
  {
    hide Recoverable, Storable, HasKey, RefOf;
  }

  // A run whose requests are not fatal stays recoverable and is never refused ...
  lemma {:induction false} SoundRunsReopen(env: Env, shape: Shape, script: seq<Request>, n: nat, trace: seq<Moment>)
    requires Traces(env, shape, script, n, trace) && Opens(trace[0])
    requires forall i :: 0 <= i < n ==> !Fatal(env, shape, trace[i], script[i])
    ensures Opens(trace[n]) && trace[n].refused == trace[0].refused
    decreases n
  {
    hide Turn, Fatal, Opens;
    if n > 0 {
      TraceFront(env, shape, script, n, trace);
      SoundRunsReopen(env, shape, script, n - 1, trace[..n]);
      TurnOpens(env, shape, script[n - 1], n - 1, trace[n - 1], trace[n]);
    }
  }

  lemma {:induction false} OneRefARequest(env: Env, shape: Shape, script: seq<Request>, n: nat, trace: seq<Moment>)
    requires Traces(env, shape, script, n, trace)
    ensures |trace[n].refs| <= |trace[0].refs| + n
    decreases n
  {
    hide Opens, Sound, RefOf, HasKey, Storable;
    if n > 0 {
      TraceFront(env, shape, script, n, trace);
      OneRefARequest(env, shape, script, n - 1, trace[..n]);
    }
  }

  // ... which can be told from the script alone, for the requests name their refs
  // but for an ordinal that the length of the script bounds ...
  lemma SoundScriptsReopen(env: Env, shape: Shape, script: seq<Request>, trace: seq<Moment>)
    requires Traces(env, shape, script, |script|, trace) && Opens(trace[0])
    requires forall i, n: nat :: 0 <= i < |script| && script[i].AppendRequest? && n < |trace[0].refs| + |script| ==>
               Sound(env, RefOf(env, shape, n, script[i]))
    ensures Opens(trace[|script|]) && trace[|script|].refused == trace[0].refused
  {
    forall i | 0 <= i < |script| ensures !Fatal(env, shape, trace[i], script[i]) {
      TraceUpTo(env, shape, script, i, trace);
      OneRefARequest(env, shape, script, i, trace[..i + 1]);
    }
    SoundRunsReopen(env, shape, script, |script|, trace);
  }

  lemma TraceUpTo(env: Env, shape: Shape, script: seq<Request>, i: nat, trace: seq<Moment>)
    requires i <= |script| && Traces(env, shape, script, |script|, trace)
    ensures Traces(env, shape, script, i, trace[..i + 1]) && trace[..i + 1][i] == trace[i]
  {
    hide Turn;
  }

  // ... and after one that is, and whose ref was committed, no restart ever
  // succeeds.
  lemma {:induction false} FatalIsForever(env: Env, shape: Shape, script: seq<Request>, i: nat, n: nat, trace: seq<Moment>)
    requires i < n && Traces(env, shape, script, n, trace)
    requires Fatal(env, shape, trace[i], script[i]) && trace[i + 1].refs != trace[i].refs
    ensures !Opens(trace[n])
    decreases n
  {
    hide Turn, Fatal, Opens;
    TraceFront(env, shape, script, n, trace);
    TurnOpens(env, shape, script[n - 1], n - 1, trace[n - 1], trace[n]);
    if i < n - 1 {
      FatalIsForever(env, shape, script, i, n - 1, trace[..n]);
    }
  }

  // ---- the run ----

  // The generation is served by store, or by nobody.
  ghost predicate Served(env: Env, shape: Shape, store: Store?, at: Moment)
    reads store
  {
    && Committed(env, shape, at.files, at.refs) && (at.up <==> store != null)
    && (store != null ==> store.env == env && store.Consistent() && store.ShapeOf() == shape
                          && store.refs == at.refs && store.disk == at.files)
  }

  // One append.
  method Serve(ghost shape: Shape, store: Store, request: Request, ghost i: nat, ghost before: Moment)
    returns (r: AppendResult, ghost after: Moment)
    requires Lawful(store.env.codec) && request.AppendRequest?
    requires Served(store.env, shape, store, before)
    modifies store
    ensures Served(store.env, shape, if r.AppendCrashed? then null else store, after) && after.files == store.disk
    ensures Turn(store.env, shape, request, i, before, after)
    ensures after.acked == match r case Appended(ref) => before.acked + [ref] case Known(ref) => before.acked + [ref] case _ => before.acked
    ensures after.died == if r.AppendCrashed? then before.died + {i} else before.died
    ensures after.refused == before.refused
    ensures store.disk.manifest.onDisk.Some? && store.disk.manifest.onDisk.value.state == old(store.manifest.state)
  {
    hide Committed, Inverts, Recoverable, Lawful, Fits, AppendLeft, VectorOffset, Lines;
    ghost var env, files := store.env, store.disk;
    ghost var ref := RefOf(env, shape, |before.refs|, request);
    ServedFacts(store, request);
    r := store.Append(request.sourceType, request.sourceId, request.inputHash, request.record, request.now);
    after := before.(files := store.disk, refs := store.refs);
    match r {
      case Appended(_) =>
        after := after.(acked := before.acked + [ref]);
        ServedFacts(store, request);
      case Known(known) =>
        after := before.(acked := before.acked + [known]);
      case Refused =>
      case AppendCrashed =>
        ghost var left := AppendLeftRecoverable(env, shape, files, store.disk, before.refs, ref);
        after := Moment(false, store.disk, left, before.acked, before.died + {i}, before.refused);
    }
  }

  lemma ServedFacts(store: Store, request: Request)
    requires store.Consistent() && request.AppendRequest?
    ensures Committed(store.env, store.ShapeOf(), store.disk, store.refs)
    ensures store.header == HeaderAt(store.ShapeOf(), |store.refs|)
    ensures store.disk.map_.onDisk == Lines(store.env.codec, store.refs)
    ensures store.disk.manifest.onDisk == Some(store.manifest)
    ensures KeyOf(request) in store.bySource <==> HasKey(store.refs, KeyOf(request))
  {
  }

  // Recovery at a restart.
  method ServeRestart(env: Env, ghost shape: Shape, files: Files, now: int, ghost i: nat, ghost before: Moment)
    returns (store: Store?, refused: bool, left: Files, ghost after: Moment)
    requires Lawful(env.codec) && before.files == files
    requires Committed(env, shape, files, before.refs)
    ensures store != null ==> fresh(store)
    ensures Served(env, shape, store, after)
    ensures Turn(env, shape, Restart(now), i, before, after)
    ensures refused <==> !Opens(before)
    ensures after.acked == before.acked && after.died == before.died && after.refused == (before.refused || refused)
    ensures after.refs == before.refs && after.files == left
  {
    hide Committed, Inverts, Recoverable, Lawful;
    CommittedSynced(env, shape, files, before.refs);
    var recovered := new Store(env, files);
    var result := recovered.Recover(shape, before.refs, now);
    store, refused, left := if result.Recovered? then recovered else null, result.Corrupt?, recovered.disk;
    after := if refused then before.(up := false, refused := true) else before.(up := store != null, files := left);
  }

  // Serves a script on files that commit base. A crash may strike any I/O
  // call of any append and of any recovery; after one, nothing is served until
  // the next restart.
  method Run(env: Env, ghost shape: Shape, ghost base: seq<Ref>, disk: Files, script: seq<Request>)
    returns (acked: seq<Ref>, died: set<nat>, refused: bool, after: Files, ghost trace: seq<Moment>)
    requires Lawful(env.codec) && Committed(env, shape, disk, base)
    ensures Traces(env, shape, script, |script|, trace)
    ensures trace[0] == Moment(false, disk, base, [], {}, false)
    ensures var last := trace[|script|];
            && last == Moment(last.up, after, last.refs, acked, died, refused)
            && Committed(env, shape, after, last.refs)
            && Durable(env, shape, base, script, |script|, last)
    ensures refused ==> !Opens(trace[0]) || exists i :: 0 <= i < |script| && Fatal(env, shape, trace[i], script[i])
  {
    hide Committed, Inverts, Lawful, Turn, Traces, Fatal, Opens, Store.Consistent, Store.ShapeOf;
    var store: Store? := null;
    acked, died, refused, after := [], {}, false, disk;
    ghost var at := Moment(false, disk, base, [], {}, false);
    trace := [at];
    NothingServed(env, shape, base, disk, script, trace);
    for i := 0 to |script|
      invariant store != null ==> fresh(store)
      invariant Served(env, shape, store, at) && at == Moment(store != null, after, at.refs, acked, died, refused)
      invariant Traces(env, shape, script, i, trace) && |trace| == i + 1 && trace[i] == at
      invariant trace[0] == Moment(false, disk, base, [], {}, false)
    {
      match script[i] {
        case Restart(now) =>
          var corrupt;
          store, corrupt, after, at := ServeRestart(env, shape, after, now, i, at);
          refused := refused || corrupt;
        case AppendRequest(_, _, _, _, _) =>
          if store != null {
            var result;
            result, at := Serve(shape, store, script[i], i, at);
            after := store.disk;
            match result {
              case Appended(ref) => acked := acked + [ref];
              case Known(ref) => acked := acked + [ref];
              case Refused =>
              case AppendCrashed => died, store := died + {i}, null;
            }
          } else {
            DownTurn(env, shape, script[i], i, at);
          }
      }
      TraceOn(env, shape, script, i, trace, at);
      trace := trace + [at];
    }
    TraceKeeps(env, shape, base, script, |script|, trace);
    if refused && Opens(trace[0]) && forall i :: 0 <= i < |script| ==> !Fatal(env, shape, trace[i], script[i]) {
      SoundRunsReopen(env, shape, script, |script|, trace);
    }
  }

  lemma DownTurn(env: Env, shape: Shape, request: Request, i: nat, at: Moment)
    requires request.AppendRequest? && !at.up
    ensures Turn(env, shape, request, i, at, at)
  {
  }

  lemma NothingServed(env: Env, shape: Shape, base: seq<Ref>, disk: Files, script: seq<Request>, trace: seq<Moment>)
    requires Committed(env, shape, disk, base) && trace == [Moment(false, disk, base, [], {}, false)]
    ensures Served(env, shape, null, trace[0]) && Traces(env, shape, script, 0, trace)
    ensures Durable(env, shape, base, script, 0, trace[0])
  {
    forall k | 0 <= k < |base| ensures base[k].ordinal == k {
      assert RefAt(env, shape, disk.area.onDisk, base[k], k);
    }
  }

  // Append takes a vector without a source id, and if it acknowledges it the
  // generation does not open again, whatever else it holds.
  method UnnamedAppendIsFatal(store: Store, inputHash: string, record: Bytes, now: int)
    returns (answer: AppendResult, reopened: RecoverResult)
    requires store.Consistent() && Lawful(store.env.codec) && Key("", inputHash) !in store.bySource
    requires |record| == store.header.recordSize && VectorOffset(store.header, |store.refs| + 1).Some?
    modifies store
    ensures answer.Appended? || answer.AppendCrashed?
    ensures answer.Appended? ==> Committed(store.env, store.ShapeOf(), store.disk, store.refs) && !AllNamed(store.refs)
    ensures answer.Appended? ==> reopened.Corrupt?
  {
    hide Committed, Inverts, Scannable;
    answer := store.Append("MEMORY", "", inputHash, record, now);
    reopened := RecoverCrashed;
    if answer.Appended? {
      AppendedLast(store);
      CommittedSynced(store.env, store.ShapeOf(), store.disk, store.refs);
      assert store.refs[|store.refs| - 1].sourceId == "";
      var again := new Store(store.env, store.disk);
      reopened := again.Recover(store.ShapeOf(), store.refs, now);
    }
  }

  // A source id of a mebibyte makes its map line too long: Append acknowledges
  // the vector all the same, and the generation does not open again.
  method LongAppendIsFatal(store: Store, inputHash: string, record: Bytes, now: int)
    returns (answer: AppendResult, reopened: RecoverResult)
    requires store.Consistent() && Lawful(store.env.codec) && Key(LONG_ID, inputHash) !in store.bySource
    requires |record| == store.header.recordSize && VectorOffset(store.header, |store.refs| + 1).Some?
    requires forall ref: Ref :: |store.env.codec.encode(ref)| >= |ref.sourceId|
    modifies store
    ensures answer.Appended? || answer.AppendCrashed?
    ensures answer.Appended? ==> store.refs == old(store.refs) + [answer.ref] && answer.ref.sourceId == LONG_ID != ""
    ensures answer.Appended? ==> reopened.Corrupt?
  {
    hide Committed, Inverts, Scannable;
    answer := store.Append("MEMORY", LONG_ID, inputHash, record, now);
    reopened := RecoverCrashed;
    if answer.Appended? {
      AppendedLast(store);
      CommittedSynced(store.env, store.ShapeOf(), store.disk, store.refs);
      var again := new Store(store.env, store.disk);
      reopened := again.Recover(store.ShapeOf(), store.refs, now);
    }
  }

  const LONG_ID: string := seq(MAP_LINE_MAX, i => 'x')

  lemma CommittedSynced(env: Env, shape: Shape, files: Files, refs: seq<Ref>)
    requires Committed(env, shape, files, refs)
    ensures files.Synced()
  {
  }

  lemma AppendedLast(store: Store)
    requires store.Consistent() && |store.refs| > 0
    ensures store.refs[|store.refs| - 1].ordinal == |store.refs| - 1
    ensures Committed(store.env, store.ShapeOf(), store.disk, store.refs)
  {
    assert RefAt(store.env, store.ShapeOf(), store.disk.area.onDisk, store.refs[|store.refs| - 1], |store.refs| - 1);
  }
}
