// Building a generation beside the current one and switching CURRENT to it.
module Generations {
  import opened Wrappers
  import opened Jsonl
  import opened CrashDisk
  import opened Format
  import opened VectorStore

  datatype Item = Item(sourceId: string, inputHash: string, record: Bytes)

  datatype OpenResult = Opened(store: Store) | OpenFailed | OpenDied

  datatype SwitchResult = Switched | NotSwitched | SwitchDied

  function ItemKey(item: Item): string {
    Key(item.sourceId, item.inputHash)
  }

  // The ref of an item, but for its place and time.
  ghost predicate Answers(env: Env, ref: Ref, item: Item) {
    && ref.sourceType == "MEMORY" && ref.sourceId == item.sourceId && ref.inputHash == item.inputHash
    && ref.checksum == env.sha256(item.record)
  }

  ghost predicate FromItems(env: Env, ref: Ref, items: seq<Item>) {
    exists i :: 0 <= i < |items| && Answers(env, ref, items[i])
  }

  // The refs of a generation built from items: nothing missing, nothing else.
  ghost predicate Holds(env: Env, refs: seq<Ref>, items: seq<Item>) {
    && (forall i :: 0 <= i < |items| ==> HasKey(refs, ItemKey(items[i])))
    && (forall i :: 0 <= i < |refs| ==> FromItems(env, refs[i], items))
  }

  function ItemRef(env: Env, shape: Shape, n: nat, item: Item, now: int): Ref {
    NextRef(env, shape, n, "MEMORY", item.sourceId, item.inputHash, item.record, now)
  }

  // What appending the items one after the other commits: the first of each key.
  ghost function Built(env: Env, shape: Shape, items: seq<Item>, now: int): seq<Ref> {
    if items == [] then []
    else
      var front, last := Built(env, shape, items[..|items| - 1], now), items[|items| - 1];
      if HasKey(front, ItemKey(last)) then front else front + [ItemRef(env, shape, |front|, last, now)]
  }

  // Every item is known when its turn comes, or fits.
  ghost predicate Buildable(env: Env, shape: Shape, items: seq<Item>, now: int) {
    forall k :: 0 <= k < |items| ==> Takes(shape, Built(env, shape, items[..k], now), items[k])
  }

  ghost predicate Takes(shape: Shape, refs: seq<Ref>, item: Item) {
    HasKey(refs, ItemKey(item)) || Storable(shape, |refs|, item.record)
  }

  lemma BuiltSnoc(env: Env, shape: Shape, items: seq<Item>, item: Item, now: int)
    ensures var front := Built(env, shape, items, now);
            Built(env, shape, items + [item], now)
            == if HasKey(front, ItemKey(item)) then front else front + [ItemRef(env, shape, |front|, item, now)]
  {
    assert (items + [item])[..|items|] == items;
  }

  // Nothing missing, nothing else, each key once.
  lemma {:induction false} BuiltHolds(env: Env, shape: Shape, items: seq<Item>, now: int)
    ensures Holds(env, Built(env, shape, items, now), items) && DistinctKeys(Built(env, shape, items, now))
    decreases |items|
  {
    hide HasKey, Holds, DistinctKeys, Built;
    if items == [] {
      NothingHolds(env, shape, now);
    } else {
      var front, last := items[..|items| - 1], items[|items| - 1];
      BuiltHolds(env, shape, front, now);
      assert items == front + [last];
      BuiltSnoc(env, shape, front, last, now);
      var refs := Built(env, shape, front, now);
      if HasKey(refs, ItemKey(last)) {
        var known := KnownRef(refs, ItemKey(last));
        HoldsKnown(env, refs, front, last, known);
      } else {
        var ref := ItemRef(env, shape, |refs|, last, now);
        HoldsAppended(env, refs, front, last, ref);
        DistinctSnoc(refs, ref);
      }
    }
  }

  lemma NothingHolds(env: Env, shape: Shape, now: int)
    ensures Holds(env, Built(env, shape, [], now), []) && DistinctKeys(Built(env, shape, [], now))
  {
  }

  lemma KnownRef(refs: seq<Ref>, key: string) returns (known: Ref)
    requires HasKey(refs, key)
    ensures known in refs && RefKey(known) == key
  {
    var at :| 0 <= at < |refs| && RefKey(refs[at]) == key;
    known := refs[at];
  }

  lemma DistinctSnoc(refs: seq<Ref>, ref: Ref)
    requires DistinctKeys(refs) && !HasKey(refs, RefKey(ref))
    ensures DistinctKeys(refs + [ref])
  {
  }

  // files are the READY generation that a build called name leaves.
  ghost predicate Rebuilt(env: Env, files: Files, name: string, dimensions: int, items: seq<Item>, now: int) {
    var header := NewHeader(dimensions);
    && header.Some? && Buildable(env, Shape(header.value, name), items, now)
    && var refs := Built(env, Shape(header.value, name), items, now);
       && Committed(env, Shape(header.value, name), files, refs)
       && files.manifest.onDisk.value.state == "READY"
       && files.map_.onDisk == Lines(env.codec, refs)
  }

  lemma HoldsKnown(env: Env, refs: seq<Ref>, items: seq<Item>, item: Item, known: Ref)
    requires Holds(env, refs, items)
    requires known in refs && RefKey(known) == ItemKey(item)
    ensures Holds(env, refs, items + [item])
  {
    var at :| 0 <= at < |refs| && refs[at] == known;
    forall i | 0 <= i < |refs| ensures FromItems(env, refs[i], items + [item]) {
      var j :| 0 <= j < |items| && Answers(env, refs[i], items[j]);
      assert (items + [item])[j] == items[j];
    }
  }

  lemma HoldsAppended(env: Env, refs: seq<Ref>, items: seq<Item>, item: Item, ref: Ref)
    requires Holds(env, refs, items)
    requires Answers(env, ref, item)
    ensures Holds(env, refs + [ref], items + [item])
  {
    forall i | 0 <= i < |items| + 1 ensures HasKey(refs + [ref], ItemKey((items + [item])[i])) {
      if i < |items| {
        var j :| 0 <= j < |refs| && RefKey(refs[j]) == ItemKey(items[i]);
        assert (refs + [ref])[j] == refs[j];
      } else {
        assert (refs + [ref])[|refs|] == ref;
      }
    }
    forall i | 0 <= i < |refs| + 1 ensures FromItems(env, (refs + [ref])[i], items + [item]) {
      if i < |refs| {
        var j :| 0 <= j < |items| && Answers(env, refs[i], items[j]);
        assert (items + [item])[j] == items[j];
      } else {
        assert (items + [item])[|items|] == item;
      }
    }
  }

  lemma ManifestOnDisk(store: Store)
    requires store.Consistent()
    ensures store.disk.Synced()
    ensures store.disk.manifest.onDisk == Some(store.manifest)
    ensures store.header.recordSize == store.header.dimensions * 4
    ensures store.header.(committedCount := 0) == Header(FORMAT_VERSION, FLOAT32_LE, true, store.header.dimensions, 0, store.header.recordSize)
  {
  }

  // The vector directory: the CURRENT file ("" when absent) and the files of
  // every generation directory as its last user left them.
  class VectorDir {
    const env: Env
    var current: Slot<string>
    var dirs: map<string, Files>

    ghost predicate AtRest()
      reads this
    {
      current.Synced() && forall name :: name in dirs ==> dirs[name].Synced()
    }

    // writeAtomic of CURRENT.
    method WriteCurrent(name: string) returns (died: bool)
      requires current.Synced()
      modifies this`current
      ensures current.Synced()
      ensures current.onDisk == name || (died && current == old(current))
    {
      current := current.Replace(name);
      died := *;
      if died {
        var renamed: bool := *;
        current := if renamed then Slot(name, name) else Slot(current.onDisk, current.onDisk);
        return;
      }
      current := current.Sync();
      died := *;
    }

    // Open: recovery of one generation directory.
    method Open(name: string, ghost shape: Shape, ghost committed: seq<Ref>, now: int) returns (r: OpenResult)
      requires AtRest() && Lawful(env.codec)
      modifies this`dirs
      ensures AtRest()
      ensures name !in old(dirs) ==> r.OpenFailed? && dirs == old(dirs)
      ensures name in old(dirs) ==> dirs.Keys == old(dirs.Keys) && forall n :: n in dirs && n != name ==> dirs[n] == old(dirs[n])
      ensures r.OpenFailed? ==> dirs == old(dirs)
      ensures r.Opened? ==> fresh(r.store) && r.store.env == env && r.store.disk == dirs[name]
      ensures r.Opened? ==> dirs[name].manifest.onDisk == Some(r.store.manifest)
      ensures name in old(dirs) && Committed(env, shape, old(dirs[name]), committed) ==>
                && (r.OpenFailed? <==> !Recoverable(old(dirs[name]), committed))
                && (Recoverable(old(dirs[name]), committed) ==> Recoverable(dirs[name], committed))
                && (r.Opened? ==> r.store.Consistent() && r.store.refs == committed && r.store.ShapeOf() == shape)
                && (r.Opened? ==> r.store.manifest.state == old(dirs[name].manifest.onDisk.value.state))
                && Committed(env, shape, dirs[name], committed)
                && dirs[name].manifest.onDisk.value.state == old(dirs[name].manifest.onDisk.value.state)
    {
      hide Committed, Inverts, Indexable, Recoverable;
      if name !in dirs {
        return OpenFailed;
      }
      var store := new Store(env, dirs[name]);
      var result := store.Recover(shape, committed, now);
      dirs := dirs[name := store.disk];
      match result
      case Corrupt => r := OpenFailed;
      case RecoverCrashed => r := OpenDied;
      case Recovered => r := Opened(store);
    }

    // createGeneration. A new directory gets an empty generation; an existing
    // one is opened. Only activate touches CURRENT, and only for READY files.
    method CreateGeneration(name: string, dimensions: nat, activate: bool, now: int, ghost shape: Shape, ghost committed: seq<Ref>)
      returns (r: OpenResult)
      requires AtRest() && Lawful(env.codec)
      modifies this
      ensures AtRest()
      ensures dirs.Keys <= old(dirs.Keys) + {name}
      ensures forall n :: n in old(dirs) && n != name ==> n in dirs && dirs[n] == old(dirs[n])
      ensures current.onDisk == old(current.onDisk)
              || (activate && current.onDisk == name && name in dirs
                  && dirs[name].manifest.onDisk.Some? && dirs[name].manifest.onDisk.value.state == "READY")
      ensures r.Opened? ==> fresh(r.store) && r.store.env == env && name in dirs && r.store.disk == dirs[name]
      ensures r.Opened? && activate ==> current.onDisk == name
      ensures r.Opened? && name !in old(dirs) ==>
                && r.store.Consistent() && r.store.refs == [] && r.store.header.dimensions == dimensions
                && 0 < dimensions <= MAX_DIMENSIONS && r.store.manifest.generation == name
                && r.store.manifest.state == (if activate then "READY" else "BUILDING")
      ensures r.OpenFailed? && name !in old(dirs) ==> !(0 < dimensions <= MAX_DIMENSIONS)
      ensures name in old(dirs) && Committed(env, shape, old(dirs[name]), committed) ==>
                && name in dirs && Committed(env, shape, dirs[name], committed)
                && dirs[name].manifest.onDisk.value.state == old(dirs[name].manifest.onDisk.value.state)
                && (r.Opened? ==> r.store.Consistent() && r.store.refs == committed && r.store.ShapeOf() == shape)
                && (r.OpenFailed? <==> !(0 < dimensions <= MAX_DIMENSIONS) || !Recoverable(old(dirs[name]), committed)
                                       || (activate && !r.OpenDied?
                                           && old(dirs[name].manifest.onDisk.value.state) != "READY"))
    {
      hide Committed, Inverts, Indexable;
      var header := NewHeader(dimensions);
      if header.None? {
        return OpenFailed;
      }
      var store: Store;
      if name in dirs {
        r := Open(name, shape, committed, now);
        if !r.Opened? || !activate {
          return;
        }
        store := r.store;
        if store.manifest.state != "READY" {
          return OpenFailed;
        }
      } else {
        store := new Store(env, NewFiles);
        var state := if activate then "READY" else "BUILDING";
        var died := store.Initialize(dimensions, Manifest(name, state, dimensions, 0, now));
        dirs := dirs[name := store.disk];
        if died {
          return OpenDied;
        }
        ManifestOnDisk(store);
      }
      if activate {
        var died := WriteCurrent(name);
        if died {
          return OpenDied;
        }
      }
      r := Opened(store);
    }

    // Activate verifies every record, marks the generation READY and only then
    // swings CURRENT to it.
    method Activate(store: Store, now: int) returns (r: SwitchResult)
      requires current.Synced() && store.disk.Synced()
      modifies this, store
      ensures current.Synced() && store.disk.Synced()
      ensures store.refs == old(store.refs) && store.ShapeOf() == old(store.ShapeOf())
      ensures dirs == old(dirs)[store.manifest.generation := store.disk] && store.disk.map_ == old(store.disk.map_)
      ensures r.Switched? ==> current.onDisk == store.manifest.generation && store.manifest.state == "READY"
                              && forall i :: 0 <= i < |store.refs| ==> store.ChecksumHolds(i)
      ensures r.NotSwitched? ==> current == old(current) && store.disk == old(store.disk)
      ensures current.onDisk == old(current.onDisk)
              || (current.onDisk == store.manifest.generation && store.disk.manifest.onDisk == Some(store.manifest)
                  && store.manifest.state == "READY")
      ensures old(store.Consistent()) ==>
                && Committed(store.env, store.ShapeOf(), store.disk, store.refs)
                && (!r.SwitchDied? ==> store.Consistent())
                && (r.NotSwitched? ==> old(store.manifest.state) != "BUILDING" && old(store.manifest.state) != "READY")
    {
      hide HeadHolds, AreaHolds, MapHolds, Inverts, Lines, VectorOffset;
      var ok := store.Verify(true);
      if !ok || (store.manifest.state != "BUILDING" && store.manifest.state != "READY") {
        dirs := dirs[store.manifest.generation := store.disk];
        return NotSwitched;
      }
      label verified:
      store.manifest := store.manifest.(state := "READY", updatedAt := now);
      var died := store.WriteManifest();
      dirs := dirs[store.manifest.generation := store.disk];
      if died {
        return SwitchDied;
      }
      died := WriteCurrent(store.manifest.generation);
      forall i | 0 <= i < |store.refs| ensures store.ChecksumHolds(i) {
        assert old@verified(store.ChecksumHolds(i));
        assert store.ReadRecord(i) == old@verified(store.ReadRecord(i));
      }
      r := if died then SwitchDied else Switched;
    }

    // OpenCurrent: whatever CURRENT names must be READY.
    method OpenCurrent(ghost shape: Shape, ghost committed: seq<Ref>, now: int) returns (r: OpenResult)
      requires AtRest() && Lawful(env.codec)
      modifies this`dirs
      ensures AtRest()
      ensures dirs.Keys == old(dirs.Keys) && forall n :: n in dirs && n != current.onDisk ==> dirs[n] == old(dirs[n])
      ensures current.onDisk == "" ==> r.OpenFailed?
      ensures r.Opened? ==> r.store.manifest.state == "READY"
      ensures r.Opened? ==> fresh(r.store) && r.store.env == env && current.onDisk in dirs && r.store.disk == dirs[current.onDisk]
      ensures current.onDisk in old(dirs) && Committed(env, shape, old(dirs[current.onDisk]), committed) ==>
                || r.OpenDied?
                || (r.Opened? <==> current.onDisk != "" && Recoverable(old(dirs[current.onDisk]), committed)
                                   && old(dirs[current.onDisk].manifest.onDisk.value.state) == "READY")
      ensures current.onDisk in old(dirs) && Committed(env, shape, old(dirs[current.onDisk]), committed) ==>
                && (r.Opened? ==> r.store.Consistent() && r.store.refs == committed && r.store.ShapeOf() == shape)
                && (!Recoverable(old(dirs[current.onDisk]), committed) ==> r.OpenFailed? && dirs == old(dirs))
                && Committed(env, shape, dirs[current.onDisk], committed)
                && dirs[current.onDisk].manifest.onDisk.value.state == old(dirs[current.onDisk].manifest.onDisk.value.state)
                && (Recoverable(old(dirs[current.onDisk]), committed) ==> Recoverable(dirs[current.onDisk], committed))
    {
      hide Committed, Inverts, Indexable, Recoverable;
      if current.cached == "" {
        return OpenFailed;
      }
      r := Open(current.cached, shape, committed, now);
      if r.Opened? && r.store.manifest.state != "READY" {
        r := OpenFailed;
      }
    }

    // The branch of SyncVectors that replaces the generation: build it beside
    // the current one, append every vector, then switch. Wherever the process
    // dies, CURRENT is what it was or names a READY generation holding them all.
    method Rebuild(name: string, dimensions: nat, items: seq<Item>, now: int)
      returns (r: SwitchResult, served: Store?)
      requires AtRest() && Lawful(env.codec)
      requires name !in dirs && name != ""
      modifies this
      ensures AtRest()
      ensures dirs.Keys <= old(dirs.Keys) + {name}
      ensures forall n :: n in old(dirs) ==> n in dirs && dirs[n] == old(dirs[n])
      ensures current.onDisk == old(current.onDisk)
              || (current.onDisk == name && name in dirs && Rebuilt(env, dirs[name], name, dimensions, items, now))
      ensures r.Switched? ==> current.onDisk == name && name in dirs && Rebuilt(env, dirs[name], name, dimensions, items, now)
      ensures r.Switched? ==>
                && served != null && fresh(served) && served.env == env && served.Consistent() && served.disk == dirs[name]
                && served.ShapeOf() == Shape(NewHeader(dimensions).value, name)
                && served.refs == Built(env, served.ShapeOf(), items, now)
      ensures r.NotSwitched? ==> current == old(current)
      ensures r.NotSwitched? && 0 < dimensions <= MAX_DIMENSIONS ==>
                !Buildable(env, Shape(NewHeader(dimensions).value, name), items, now)
    {
      hide Committed, Inverts, VectorOffset, Built, Buildable, Storable, HasKey;
      served := null;
      var created := CreateGeneration(name, dimensions, false, now, Shape(NewHeader(1).value, name), []);
      if created.OpenFailed? {
        return NotSwitched, served;
      }
      if created.OpenDied? {
        return SwitchDied, served;
      }
      var store := created.store;
      ManifestOnDisk(store);
      ghost var shape := store.ShapeOf();
      var stored := AppendAll(store, dimensions, items, now);
      dirs := dirs[name := store.disk];
      if stored.Switched? {
        MapIsLines(store);
        r := Activate(store, now);
        served := store;
      } else {
        r := stored;
      }
    }
  }

  lemma MapIsLines(store: Store)
    requires store.Consistent()
    ensures store.disk.map_.onDisk == Lines(store.env.codec, store.refs)
  {
  }

  // The append loop of a build; Switched means that every append succeeded.
  method AppendAll(store: Store, dimensions: nat, items: seq<Item>, now: int) returns (r: SwitchResult)
    requires store.Consistent() && Lawful(store.env.codec)
    requires store.refs == [] && store.manifest.state == "BUILDING"
    requires store.header.dimensions == dimensions && 0 < dimensions <= MAX_DIMENSIONS
    modifies store
    ensures store.disk.Synced()
    ensures r.Switched? ==> store.Consistent() && store.ShapeOf() == old(store.ShapeOf()) && store.manifest.state == "BUILDING"
    ensures r.Switched? ==> store.refs == Built(store.env, store.ShapeOf(), items, now)
    ensures r.Switched? ==> Buildable(store.env, store.ShapeOf(), items, now)
    ensures r.NotSwitched? ==> !Buildable(store.env, old(store.ShapeOf()), items, now)
  {
    hide Committed, Inverts, VectorOffset, Built, Buildable, BuiltTo, Storable, HasKey, Takes;
    ghost var env, shape := store.env, store.ShapeOf();
    NothingBuilt(env, shape, items, now);
    ManifestOnDisk(store);
    for i := 0 to |items|
      invariant store.Consistent() && store.ShapeOf() == shape && store.manifest.state == "BUILDING"
      invariant BuiltTo(env, shape, items, now, i, store.refs)
    {
      var item := items[i];
      TakesIt(store, item);
      BuildTurn(env, shape, items, now, i, store.refs);
      var result := store.Append("MEMORY", item.sourceId, item.inputHash, item.record, now);
      match result {
        case Known(_) =>
        case Appended(_) =>
        case Refused =>
          ManifestOnDisk(store);
          return NotSwitched;
        case AppendCrashed => return SwitchDied;
      }
    }
    AllBuilt(env, shape, items, now, store.refs);
    ManifestOnDisk(store);
    r := Switched;
  }

  // The append loop after i items.
  ghost predicate BuiltTo(env: Env, shape: Shape, items: seq<Item>, now: int, i: nat, refs: seq<Ref>) {
    && i <= |items| && refs == Built(env, shape, items[..i], now)
    && forall k :: 0 <= k < i ==> Takes(shape, Built(env, shape, items[..k], now), items[k])
  }

  lemma NothingBuilt(env: Env, shape: Shape, items: seq<Item>, now: int)
    ensures BuiltTo(env, shape, items, now, 0, [])
  {
    assert items[..0] == [];
  }

  lemma BuildTurn(env: Env, shape: Shape, items: seq<Item>, now: int, i: nat, refs: seq<Ref>)
    requires i < |items| && BuiltTo(env, shape, items, now, i, refs)
    ensures Takes(shape, refs, items[i]) ==>
              BuiltTo(env, shape, items, now, i + 1,
                      if HasKey(refs, ItemKey(items[i])) then refs else refs + [ItemRef(env, shape, |refs|, items[i], now)])
    ensures !Takes(shape, refs, items[i]) ==> !Buildable(env, shape, items, now)
  {
    hide Takes, HasKey;
    BuiltSnoc(env, shape, items[..i], items[i], now);
    assert items[..i + 1] == items[..i] + [items[i]];
  }

  lemma AllBuilt(env: Env, shape: Shape, items: seq<Item>, now: int, refs: seq<Ref>)
    requires BuiltTo(env, shape, items, now, |items|, refs)
    ensures refs == Built(env, shape, items, now) && Buildable(env, shape, items, now)
  {
    hide Takes;
    assert items[..|items|] == items;
  }

  // Whether Append knows or takes an item.
  lemma TakesIt(store: Store, item: Item)
    requires store.Consistent()
    ensures Takes(store.ShapeOf(), store.refs, item) <==>
            Key(item.sourceId, item.inputHash) in store.bySource
            || (|item.record| == store.header.recordSize && VectorOffset(store.header, |store.refs| + 1).Some?)
    ensures HasKey(store.refs, ItemKey(item)) <==> Key(item.sourceId, item.inputHash) in store.bySource
  {
    KeyIsKnown(store, ItemKey(item));
    assert store.header == HeaderAt(store.ShapeOf(), |store.refs|);
  }

  lemma KeyIsKnown(store: Store, key: string)
    requires store.Consistent()
    ensures key in store.bySource <==> HasKey(store.refs, key)
  {
  }
}
