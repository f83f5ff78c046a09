// Whole runs of the vector directory: rebuilds, appends, restarts and crashes.
module GenerationRuns {
  import opened Wrappers
  import opened Jsonl
  import opened CrashDisk
  import opened Format
  import opened VectorStore
  import VectorRuns
  import opened Generations

  datatype Request =
    | Rebuilding(name: string, dimensions: nat, items: seq<Item>, now: int)
    | Appending(item: Item, at: int)
    | Restarting(time: int)

  // The random part of a building generation's name makes every name new.
  ghost predicate NewNames(script: seq<Request>) {
    && (forall i :: 0 <= i < |script| && script[i].Rebuilding? ==> script[i].name != "")
    && (forall i, j :: 0 <= i < j < |script| && script[i].Rebuilding? && script[j].Rebuilding? ==>
          script[i].name != script[j].name)
  }

  // What a request is to the generation CURRENT names.
  function Inner(request: Request): VectorRuns.Request {
    match request
    case Rebuilding(_, _, _, now) => VectorRuns.Restart(now)
    case Appending(item, at) => VectorRuns.AppendRequest("MEMORY", item.sourceId, item.inputHash, item.record, at)
    case Restarting(time) => VectorRuns.Restart(time)
  }

  function InnerScript(script: seq<Request>): seq<VectorRuns.Request> {
    seq(|script|, i requires 0 <= i < |script| => Inner(script[i]))
  }

  // Where a run stands: whether the process lives, what CURRENT names, which
  // request built that generation, its shape, and how it stands itself.
  datatype Moment = Moment(alive: bool, current: string, made: nat, shape: Shape, gen: VectorRuns.Moment)

  function ShapeFor(request: Request): Option<Shape>
    requires request.Rebuilding?
  {
    var header := NewHeader(request.dimensions);
    if header.None? then None else Some(Shape(header.value, request.name))
  }

  // What the rebuild puts into its generation, if it can be built.
  ghost function BaseOf(env: Env, request: Request): Option<seq<Ref>>
    requires request.Rebuilding?
  {
    var shape := ShapeFor(request);
    if shape.None? || !Buildable(env, shape.value, request.items, request.now) then None
    else Some(Built(env, shape.value, request.items, request.now))
  }

  // ---- what every request does ----

  ghost predicate Turn(env: Env, request: Request, i: nat, before: Moment, after: Moment) {
    match request
    case Rebuilding(_, _, _, _) =>
      if !before.alive || BaseOf(env, request).None? then after == before || (before.alive && after == Died(before))
      else Switched(env, request, i, before, after) || after == Died(before)
    case Appending(_, _) =>
      && after == before.(alive := after.alive, gen := after.gen)
      && after.alive == (before.alive && (before.gen.up ==> after.gen.up))
      && VectorRuns.Turn(env, before.shape, Inner(request), i, before.gen, after.gen)
    case Restarting(_) =>
      if before.current == "" then after == before.(alive := true)
      else
        && after == before.(alive := after.alive, gen := after.gen)
        && (after.gen.up || !VectorRuns.Opens(before.gen) ==> after.alive)
        && (!after.alive ==> !after.gen.up)
        && VectorRuns.Turn(env, before.shape, Inner(request), i, before.gen, after.gen)
  }

  // The process died and CURRENT names what it named.
  function Died(before: Moment): Moment {
    before.(alive := false, gen := before.gen.(up := false))
  }

  // CURRENT names the new generation, which holds exactly what was to be built.
  // It opens if and only if each of its refs is named and has a short line.
  ghost predicate Switched(env: Env, request: Request, i: nat, before: Moment, after: Moment)
    requires request.Rebuilding? && BaseOf(env, request).Some?
  {
    var base := BaseOf(env, request).value;
    && after.current == request.name && after.made == i && after.shape == ShapeFor(request).value
    && after.gen == VectorRuns.Moment(after.alive, after.gen.files, base, [], {}, before.gen.refused)
    && (VectorRuns.Opens(after.gen) <==> forall r :: r in base ==> VectorRuns.Sound(env, r))
  }

  ghost predicate Traces(env: Env, script: seq<Request>, n: nat, trace: seq<Moment>) {
    n <= |script| && |trace| == n + 1 && forall i :: 0 <= i < n ==> Turn(env, script[i], i, trace[i], trace[i + 1])
  }

  lemma TraceOn(env: Env, script: seq<Request>, n: nat, trace: seq<Moment>, next: Moment)
    requires n < |script| && Traces(env, script, n, trace) && Turn(env, script[n], n, trace[n], next)
    ensures Traces(env, script, n + 1, trace + [next])
  {
    hide Turn;
  }

  lemma TraceFront(env: Env, script: seq<Request>, n: nat, trace: seq<Moment>)
    requires n > 0 && Traces(env, script, n, trace)
    ensures Traces(env, script, n - 1, trace[..n])
    ensures Turn(env, script[n - 1], n - 1, trace[n - 1], trace[n])
  {
    hide Turn;
    assert trace[n - 1 + 1] == trace[n];
  }

  // ---- what follows for whole traces ----

  // CURRENT names no generation, or one that some rebuild made and that holds
  // everything it was built from, everything acknowledged since, and nothing but
  // that and what was in flight when the process died.
  ghost predicate Durable(env: Env, script: seq<Request>, n: nat, at: Moment) {
    if at.current == "" then !at.gen.up
    else
      && at.made < n <= |script| && script[at.made].Rebuilding? && script[at.made].name == at.current
      && BaseOf(env, script[at.made]).Some? && at.shape == ShapeFor(script[at.made]).value
      && VectorRuns.Durable(env, at.shape, BaseOf(env, script[at.made]).value, InnerScript(script), n, at.gen)
      && (forall i :: i in at.gen.died ==> at.made < i)
  }

  lemma {:induction false} BuiltOrdinals(env: Env, shape: Shape, items: seq<Item>, now: int)
    ensures var refs := Built(env, shape, items, now); forall k :: 0 <= k < |refs| ==> refs[k].ordinal == k
    decreases |items|
  {
    hide HasKey;
    if items != [] {
      var front, last := items[..|items| - 1], items[|items| - 1];
      BuiltOrdinals(env, shape, front, now);
      BuiltSnoc(env, shape, front, last, now);
      assert items == front + [last];
    }
  }

  lemma SwitchedKeeps(env: Env, script: seq<Request>, n: nat, before: Moment, after: Moment)
    requires n < |script| && script[n].Rebuilding? && script[n].name != ""
    requires BaseOf(env, script[n]).Some? && Switched(env, script[n], n, before, after)
    ensures Durable(env, script, n + 1, after)
  {
    hide VectorRuns.Opens, VectorRuns.Sound, Buildable, Built;
    BuiltOrdinals(env, after.shape, script[n].items, script[n].now);
    var base := BaseOf(env, script[n]).value;
    assert base == Built(env, after.shape, script[n].items, script[n].now);
    assert VectorRuns.Durable(env, after.shape, base, InnerScript(script), n + 1, after.gen);
  }

  lemma TurnKeeps(env: Env, script: seq<Request>, n: nat, before: Moment, after: Moment)
    requires n < |script| && NewNames(script) && Durable(env, script, n, before) && Turn(env, script[n], n, before, after)
    ensures Durable(env, script, n + 1, after)
  {
    hide VectorRuns.Turn, VectorRuns.Durable, Switched, BaseOf, ShapeFor, VectorRuns.Opens;
    var inner := InnerScript(script);
    assert inner[n] == Inner(script[n]);
    if script[n].Rebuilding? && BaseOf(env, script[n]).Some? && Switched(env, script[n], n, before, after) {
      SwitchedKeeps(env, script, n, before, after);
    } else if after.current != "" {
      var base := BaseOf(env, script[before.made]).value;
      if script[n].Rebuilding? {
        StillDurable(env, before.shape, base, inner, n, before.gen, after.gen);
      } else {
        VectorRuns.TurnKeeps(env, before.shape, base, inner, n, before.gen, after.gen);
        DiedHere(env, before.shape, inner[n], n, before.gen, after.gen);
      }
    } else if script[n].Appending? {
      DiedHere(env, before.shape, inner[n], n, before.gen, after.gen);
    }
  }

  lemma StillDurable(env: Env, shape: Shape, base: seq<Ref>, script: seq<VectorRuns.Request>, n: nat,
                     before: VectorRuns.Moment, after: VectorRuns.Moment)
    requires VectorRuns.Durable(env, shape, base, script, n, before) && after == before.(up := after.up)
    ensures VectorRuns.Durable(env, shape, base, script, n + 1, after)
  {
    forall r | r in after.refs ensures r in base || VectorRuns.Accounted(env, shape, r, script, after) {
      if r !in base {
        VectorRuns.KeepsAccount(env, shape, r, script, before, after);
      }
    }
  }

  lemma DiedHere(env: Env, shape: Shape, request: VectorRuns.Request, n: nat, before: VectorRuns.Moment, after: VectorRuns.Moment)
    requires VectorRuns.Turn(env, shape, request, n, before, after)
    ensures after.died <= before.died + {n}
    ensures request.AppendRequest? && !before.up ==> after == before
  {
  }

  lemma {:induction false} TraceKeeps(env: Env, script: seq<Request>, n: nat, trace: seq<Moment>)
    requires NewNames(script) && Traces(env, script, n, trace) && Durable(env, script, 0, trace[0])
    ensures Durable(env, script, n, trace[n])
    decreases n
  {
    hide Turn, Durable, NewNames;
    if n > 0 {
      TraceFront(env, script, n, trace);
      TraceKeeps(env, script, n - 1, trace[..n]);
      TurnKeeps(env, script, n - 1, trace[n - 1], trace[n]);
    }
  }

  // A request about to commit a ref that no recovery accepts.
  ghost predicate Fatal(env: Env, at: Moment, request: Request) {
    match request
    case Rebuilding(_, _, _, _) =>
      at.alive && BaseOf(env, request).Some? && exists r :: r in BaseOf(env, request).value && !VectorRuns.Sound(env, r)
    case Appending(_, _) => VectorRuns.Fatal(env, at.shape, at.gen, Inner(request))
    case Restarting(_) => false
  }

  ghost predicate Opens(at: Moment) {
    at.current == "" || VectorRuns.Opens(at.gen)
  }

  lemma TurnOpens(env: Env, request: Request, i: nat, before: Moment, after: Moment)
    requires Turn(env, request, i, before, after) && (before.current == "" ==> !before.gen.up)
    requires Opens(before) && !Fatal(env, before, request)
    ensures Opens(after) && after.gen.refused == before.gen.refused
  {
    hide VectorRuns.Turn, VectorRuns.Sound, BaseOf, ShapeFor, VectorRuns.Opens;
    if !request.Rebuilding? && before.current != "" {
      VectorRuns.TurnOpens(env, before.shape, Inner(request), i, before.gen, after.gen);
    } else if request.Appending? {
      DiedHere(env, before.shape, Inner(request), i, before.gen, after.gen);
    }
    OpensIsOfFiles(before.gen, after.gen);
  }

  lemma OpensIsOfFiles(a: VectorRuns.Moment, b: VectorRuns.Moment)
    ensures a.files == b.files && a.refs == b.refs ==> (VectorRuns.Opens(a) <==> VectorRuns.Opens(b))
  {
  }

  // A run without fatal requests can always reopen what CURRENT names, and no
  // restart in it is refused.
  lemma {:induction false} SoundRunsReopen(env: Env, script: seq<Request>, n: nat, trace: seq<Moment>)
    requires NewNames(script) && Traces(env, script, n, trace) && Durable(env, script, 0, trace[0]) && Opens(trace[0])
    requires forall i :: 0 <= i < n ==> !Fatal(env, trace[i], script[i])
    ensures Opens(trace[n]) && trace[n].gen.refused == trace[0].gen.refused
    decreases n
  {
    hide Turn, Fatal, Opens, NewNames;
    if n > 0 {
      TraceFront(env, script, n, trace);
      SoundRunsReopen(env, script, n - 1, trace[..n]);
      TraceKeeps(env, script, n - 1, trace[..n]);
      assert trace[..n][n - 1] == trace[n - 1];
      TurnOpens(env, script[n - 1], n - 1, trace[n - 1], trace[n]);
    }
  }

  // Whatever became of the generation before, a rebuild that switches heals the
  // directory exactly when what it was built from is sound.
  lemma RebuildHeals(env: Env, request: Request, i: nat, before: Moment, after: Moment)
    requires request.Rebuilding? && request.name != before.current && Turn(env, request, i, before, after)
    requires after.current == request.name
    ensures Opens(after) <==> request.name == "" || !Fatal(env, before, request)
  {
    hide VectorRuns.Opens, VectorRuns.Sound;
  }

  // ---- the run ----

  // The directory is as the moment says, and store serves what CURRENT names.
  ghost predicate Stands(dir: VectorDir, store: Store?, at: Moment)
    reads dir, store
  {
    && dir.AtRest() && dir.current.onDisk == at.current && (store != null ==> at.alive)
    && if at.current == "" then store == null && !at.gen.up
       else
         && at.current in dir.dirs && dir.dirs[at.current] == at.gen.files && at.shape.generation == at.current
         && VectorRuns.Served(dir.env, at.shape, store, at.gen)
         && at.gen.files.manifest.onDisk.value.state == "READY"
  }

  // The header on disk says which shape it is.
  lemma ShapeIsUnique(env: Env, a: Shape, b: Shape, files: Files, refs: seq<Ref>)
    requires Committed(env, a, files, refs) && Committed(env, b, files, refs) && a.generation == b.generation
    ensures a == b
  {
    hide AreaHolds, MapHolds, HeaderBytes, DistinctKeys;
    DecodeEncode(HeaderAt(a, |refs|));
    DecodeEncode(HeaderAt(b, |refs|));
    assert HeaderAt(a, |refs|).(committedCount := 0) == a.header;
    assert HeaderAt(b, |refs|).(committedCount := 0) == b.header;
  }

  lemma RebuiltOpens(env: Env, at: VectorRuns.Moment, refs: seq<Ref>)
    requires Lawful(env.codec) && at.files.map_.onDisk == Lines(env.codec, refs) && at.refs == refs
    ensures VectorRuns.Opens(at) <==> forall r :: r in refs ==> VectorRuns.Sound(env, r)
  {
    ScannableIffShort(env.codec, MAP_LINE_MAX, refs);
    hide Lines, Scannable, Lawful;
    assert AllNamed(refs) <==> forall r :: r in refs ==> r.sourceId != "";
  }

  lemma StandsFacts(dir: VectorDir, store: Store?, at: Moment)
    requires Stands(dir, store, at)
    ensures at.gen.up <==> store != null
    ensures at.current != "" ==>
              && Committed(dir.env, at.shape, at.gen.files, at.gen.refs) && at.gen.files.Synced()
              && at.gen.files.manifest.onDisk.Some?
    ensures store != null ==>
              && VectorRuns.Served(dir.env, at.shape, store, at.gen) && store.env == dir.env
              && store.manifest.state == "READY" && at.current != ""
    ensures dir.AtRest() && dir.current.onDisk == at.current
  {
  }

  method ServeAppend(dir: VectorDir, store: Store, request: Request, ghost i: nat, ghost before: Moment)
    returns (r: AppendResult, ghost after: Moment)
    requires Lawful(dir.env.codec) && request.Appending? && Stands(dir, store, before)
    modifies dir`dirs, store
    ensures dir.dirs.Keys == old(dir.dirs.Keys)
    ensures Stands(dir, if r.AppendCrashed? then null else store, after)
    ensures Turn(dir.env, request, i, before, after)
    ensures after.alive == !r.AppendCrashed? && after.gen.refused == before.gen.refused
    ensures after.gen.acked == match r case Appended(ref) => before.gen.acked + [ref] case Known(ref) => before.gen.acked + [ref]
                                       case _ => before.gen.acked
  {
    hide Committed, VectorRuns.Turn, Lawful, Store.Consistent;
    StandsFacts(dir, store, before);
    ghost var gen;
    r, gen := VectorRuns.Serve(before.shape, store, Inner(request), i, before.gen);
    dir.dirs := dir.dirs[dir.current.cached := store.disk];
    after := before.(alive := !r.AppendCrashed?, gen := gen);
    SyncedFiles(dir.env, before.shape, gen.files, gen.refs);
  }

  lemma SyncedFiles(env: Env, shape: Shape, files: Files, refs: seq<Ref>)
    requires Committed(env, shape, files, refs)
    ensures files.Synced() && files.manifest.onDisk.Some?
  {
  }

  // openVectors: what CURRENT names, unless recovery refuses it.
  method ServeRestart(dir: VectorDir, ghost store: Store?, request: Request, ghost i: nat, ghost before: Moment)
    returns (r: OpenResult, ghost after: Moment)
    requires Lawful(dir.env.codec) && request.Restarting?
    requires Stands(dir, store, before)
    modifies dir`dirs
    ensures dir.dirs.Keys == old(dir.dirs.Keys)
    ensures r.Opened? ==> fresh(r.store)
    ensures Stands(dir, if r.Opened? then r.store else null, after)
    ensures Turn(dir.env, request, i, before, after)
    ensures after.alive == !r.OpenDied? && after.gen.acked == before.gen.acked
    ensures after.gen.refused == (before.gen.refused || (r.OpenFailed? && before.current != ""))
  {
    hide Committed, Lawful, Store.Consistent;
    StandsFacts(dir, store, before);
    r := dir.OpenCurrent(before.shape, before.gen.refs, request.time);
    if r.Opened? {
      var ok := r.store.Verify(false);
      if !ok {
        r := OpenFailed;
      }
    }
    if before.current == "" {
      after := before.(alive := true);
    } else {
      ghost var files := dir.dirs[before.current];
      after := before.(alive := !r.OpenDied?, gen :=
        if r.OpenFailed? then before.gen.(up := false, refused := true) else before.gen.(up := r.Opened?, files := files));
    }
  }

  method ServeRebuild(dir: VectorDir, store: Store?, request: Request, ghost i: nat, ghost before: Moment)
    returns (r: SwitchResult, served: Store?, ghost after: Moment)
    requires Lawful(dir.env.codec) && request.Rebuilding? && request.name !in dir.dirs && request.name != ""
    requires Stands(dir, store, before) && before.alive
    modifies dir
    ensures dir.dirs.Keys <= old(dir.dirs.Keys) + {request.name}
    ensures served == null || fresh(served) || (served == store && r.NotSwitched?)
    ensures Stands(dir, served, after) && after.alive == !r.SwitchDied?
    ensures Turn(dir.env, request, i, before, after)
    ensures after.gen.refused == before.gen.refused
    ensures dir.current.onDisk == old(dir.current.onDisk) ==> after.gen.acked == before.gen.acked
    ensures dir.current.onDisk != old(dir.current.onDisk) ==> after.gen.acked == []
  {
    hide Committed, Lawful, Store.Consistent, Built, Buildable, VectorRuns.Sound, Lines, VectorRuns.Opens;
    ghost var env, was := dir.env, dir.current.onDisk;
    var fresh_;
    r, fresh_ := dir.Rebuild(request.name, request.dimensions, request.items, request.now);
    served := if r.Switched? then fresh_ else if r.NotSwitched? then store else null;
    after := if r.NotSwitched? then before else Died(before);
    if dir.current.onDisk != was {
      ghost var shape := ShapeFor(request).value;
      ghost var base := BaseOf(env, request).value;
      after := Moment(r.Switched?, request.name, i, shape,
                      VectorRuns.Moment(r.Switched?, dir.dirs[request.name], base, [], {}, before.gen.refused));
      RebuiltOpens(env, after.gen, base);
    }
  }

  ghost predicate NamedBy(script: seq<Request>, n: nat, name: string) {
    exists i :: 0 <= i < |script| && i < n && script[i].Rebuilding? && script[i].name == name
  }

  lemma NewName(script: seq<Request>, i: nat, names: set<string>)
    requires NewNames(script) && i < |script| && script[i].Rebuilding?
    requires forall name :: name in names ==> NamedBy(script, i, name)
    ensures script[i].name != "" && script[i].name !in names
    ensures forall name :: name in names + {script[i].name} ==> NamedBy(script, i + 1, name)
  {
  }

  lemma DownTurn(env: Env, request: Request, i: nat, at: Moment)
    requires (request.Rebuilding? && !at.alive) || (request.Appending? && !at.gen.up)
    ensures Turn(env, request, i, at, at)
  {
  }

  const NoShape := Shape(Header(0, 0, false, 0, 0, 0), "")
  const Empty := Moment(true, "", 0, NoShape, VectorRuns.Moment(false, NewFiles, [], [], {}, false))

  lemma NothingStands(dir: VectorDir, script: seq<Request>, trace: seq<Moment>)
    requires dir.AtRest() && dir.current.onDisk == "" && trace == [Empty]
    ensures Stands(dir, null, Empty) && Traces(dir.env, script, 0, trace) && Durable(dir.env, script, 0, Empty) && Opens(Empty)
  {
  }

  // Serves a script on an empty vector directory. A crash may strike any I/O
  // call of any rebuild, append or recovery; after one, nothing is served until
  // the next restart.
  method Run(dir: VectorDir, script: seq<Request>)
    returns (served: Store?, acked: seq<Ref>, refused: bool, ghost trace: seq<Moment>)
    requires Lawful(dir.env.codec) && NewNames(script)
    requires dir.AtRest() && dir.dirs == map[] && dir.current.onDisk == ""
    modifies dir
    ensures Traces(dir.env, script, |script|, trace) && trace[0] == Empty
    ensures var last := trace[|script|];
            && Stands(dir, served, last) && acked == last.gen.acked && refused == last.gen.refused
            && Durable(dir.env, script, |script|, last)
    ensures refused ==> exists i :: 0 <= i < |script| && Fatal(dir.env, trace[i], script[i])
  {
    hide Stands, Turn, Traces, Fatal, Lawful, NewNames, NamedBy, Durable;
    var alive := true;
    served, acked, refused := null, [], false;
    ghost var at := Empty;
    trace := [at];
    NothingStands(dir, script, trace);
    for i := 0 to |script|
      invariant served != null ==> fresh(served)
      invariant Stands(dir, served, at) && at.alive == alive && at.gen.acked == acked && at.gen.refused == refused
      invariant Traces(dir.env, script, i, trace) && |trace| == i + 1 && trace[0] == Empty && trace[i] == at
      invariant forall name :: name in dir.dirs ==> NamedBy(script, i, name)
    {
      StandsFacts(dir, served, at);
      NamedSoFar(script, i, dir.dirs.Keys);
      match script[i] {
        case Rebuilding(_, _, _, _) =>
          if alive {
            NewName(script, i, dir.dirs.Keys);
            var was, r := dir.current.cached, NotSwitched;
            r, served, at := ServeRebuild(dir, served, script[i], i, at);
            StandsFacts(dir, served, at);
            alive, acked := !r.SwitchDied?, if dir.current.cached == was then acked else [];
          } else {
            DownTurn(dir.env, script[i], i, at);
          }
        case Appending(_, _) =>
          if served != null {
            var r;
            r, at := ServeAppend(dir, served, script[i], i, at);
            match r {
              case Appended(ref) => acked := acked + [ref];
              case Known(ref) => acked := acked + [ref];
              case Refused =>
              case AppendCrashed =>
            }
            alive, served := !r.AppendCrashed?, if r.AppendCrashed? then null else served;
          } else {
            DownTurn(dir.env, script[i], i, at);
          }
        case Restarting(_) =>
          var r;
          r, at := ServeRestart(dir, served, script[i], i, at);
          refused := refused || (r.OpenFailed? && dir.current.cached != "");
          alive, served := !r.OpenDied?, if r.Opened? then r.store else null;
      }
      TraceOn(dir.env, script, i, trace, at);
      trace := trace + [at];
    }
    TraceKeeps(dir.env, script, |script|, trace);
    if forall i :: 0 <= i < |script| ==> !Fatal(dir.env, trace[i], script[i]) {
      SoundRunsReopen(dir.env, script, |script|, trace);
    }
  }

  lemma NamedSoFar(script: seq<Request>, i: nat, names: set<string>)
    requires forall name :: name in names ==> NamedBy(script, i, name)
    ensures forall name :: name in names ==> NamedBy(script, i + 1, name)
  {
  }
}
