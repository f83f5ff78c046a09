// One generation of the persistent vector store: append, crash, recover.
module VectorStore {
  import opened Wrappers
  import opened Jsonl
  import opened CrashDisk
  import opened Format

  datatype Ref = Ref(
    generation: string, ordinal: nat, sourceType: string, sourceId: string,
    inputHash: string, checksum: string, createdAt: int)

  datatype Manifest = Manifest(
    generation: string, state: string, dimensions: nat, committedVectors: nat, updatedAt: int)

  // The JSON codec of a map line and the record digest.
  datatype Env = Env(codec: Codec<Ref>, sha256: Bytes -> string)

  // The files of one generation directory. vectors.bin is its header and its
  // record area; vector-map.jsonl is map; manifest.json is replaced whole.
  datatype Files = Files(head: File, area: File, map_: File, manifest: Slot<Option<Manifest>>) {
    predicate Synced() {
      head.Synced() && area.Synced() && map_.Synced() && manifest.Synced()
    }
  }

  const NewFiles: Files := Files(NoFile, NoFile, NoFile, Slot(None, None))

  ghost predicate CrashImage(before: Files, after: Files) {
    && after.Synced()
    && Survives(before.head, after.head.onDisk)
    && Survives(before.area, after.area.onDisk)
    && Survives(before.map_, after.map_.onDisk)
    && (after.manifest.onDisk == before.manifest.onDisk || after.manifest.onDisk == before.manifest.cached)
  }

  // The dedup key of a vector.
  function Key(sourceId: string, inputHash: string): string {
    sourceId + "\0" + inputHash
  }

  function RefKey(ref: Ref): string {
    Key(ref.sourceId, ref.inputHash)
  }

  // ---- what the files mean ----

  // A generation apart from how much is committed in it.
  datatype Shape = Shape(header: Header, generation: string) {
    function RecordSize(): nat {
      header.recordSize
    }
  }

  function HeaderAt(shape: Shape, count: nat): Header {
    shape.header.(committedCount := count)
  }

  // The extent of n records.
  function Span(n: nat, size: nat): nat {
    if n == 0 then 0 else Span(n - 1, size) + size
  }

  function Record(area: Bytes, i: nat, size: nat): Bytes {
    if Span(i, size) + size <= |area| then area[Span(i, size)..Span(i, size) + size] else []
  }

  lemma {:induction false} SpanIsProduct(n: nat, size: nat)
    ensures Span(n, size) == n * size
    decreases n
  {
    if n > 0 {
      SpanIsProduct(n - 1, size);
      assert n * size == (n - 1) * size + size;
    }
  }

  lemma {:induction false} SpanAtLeast(n: nat, size: nat)
    requires size > 0
    ensures n <= Span(n, size)
    decreases n
  {
    if n > 0 {
      SpanAtLeast(n - 1, size);
    }
  }

  lemma {:induction false} SpanGrows(i: nat, n: nat, size: nat)
    requires i <= n
    ensures Span(i, size) <= Span(n, size)
    decreases n
  {
    if i < n {
      SpanGrows(i, n - 1, size);
    }
  }

  ghost predicate RefAt(env: Env, shape: Shape, area: Bytes, ref: Ref, i: nat) {
    && ref.ordinal == i
    && ref.generation == shape.generation
    && |Record(area, i, shape.RecordSize())| == shape.RecordSize()
    && ref.checksum == env.sha256(Record(area, i, shape.RecordSize()))
  }

  ghost predicate HasKey(refs: seq<Ref>, key: string) {
    exists i :: 0 <= i < |refs| && RefKey(refs[i]) == key
  }

  ghost predicate DistinctKeys(refs: seq<Ref>) {
    forall i, j :: 0 <= i < j < |refs| ==> RefKey(refs[i]) != RefKey(refs[j])
  }

  // The map file holds the lines of refs and perhaps part of one more.
  ghost predicate MapHolds(env: Env, data: Bytes, refs: seq<Ref>) {
    Lines(env.codec, refs) <= data && TornLine(env.codec, data[|Lines(env.codec, refs)|..])
  }

  ghost predicate HeadHolds(shape: Shape, head: Bytes, count: nat) {
    && Valid(shape.header) && shape.header.committedCount == 0
    && InRange(HeaderAt(shape, count))
    && HEADER_SIZE + Span(count, shape.RecordSize()) <= MAX_INT64
    && head == HeaderBytes(HeaderAt(shape, count))
  }

  ghost predicate AreaHolds(env: Env, shape: Shape, area: Bytes, refs: seq<Ref>) {
    && Span(|refs|, shape.RecordSize()) <= |area|
    && forall i :: 0 <= i < |refs| ==> RefAt(env, shape, area, refs[i], i)
  }

  ghost predicate ManifestHolds(shape: Shape, manifest: Option<Manifest>) {
    && manifest.Some?
    && manifest.value.generation == shape.generation
    && manifest.value.dimensions == shape.header.dimensions
  }

  // These files commit exactly refs: whatever lies beyond is not committed.
  ghost predicate Committed(env: Env, shape: Shape, files: Files, refs: seq<Ref>) {
    && files.Synced()
    && HeadHolds(shape, files.head.onDisk, |refs|)
    && AreaHolds(env, shape, files.area.onDisk, refs)
    && DistinctKeys(refs)
    && MapHolds(env, files.map_.onDisk, refs)
    && ManifestHolds(shape, files.manifest.onDisk)
  }

  // bySource is the inverse of refs on their keys.
  ghost predicate Inverts(bySource: map<string, nat>, refs: seq<Ref>) {
    && (forall i :: 0 <= i < |refs| ==> RefKey(refs[i]) in bySource && bySource[RefKey(refs[i])] == i)
    && (forall k :: k in bySource ==> bySource[k] < |refs| && RefKey(refs[bySource[k]]) == k)
  }

  ghost predicate AllNamed(refs: seq<Ref>) {
    forall i :: 0 <= i < |refs| ==> refs[i].sourceId != ""
  }

  // The scanner recovery reads the map with holds no line as long as this.
  const MAP_LINE_MAX := 0x10_0000

  ghost predicate Fits(env: Env, ref: Ref) {
    |env.codec.encode(ref)| < MAP_LINE_MAX
  }

  // Committed files that recovery does not refuse.
  ghost predicate Recoverable(files: Files, refs: seq<Ref>) {
    AllNamed(refs) && Scannable(MAP_LINE_MAX, files.map_.onDisk)
  }

  // What recovery demands of a committed mapping.
  ghost predicate Indexable(refs: seq<Ref>, generation: string) {
    && (forall i :: 0 <= i < |refs| ==>
          refs[i].ordinal == i && refs[i].generation == generation && refs[i].sourceId != "")
    && DistinctKeys(refs)
  }

  // The one ref an Append of these arguments can commit as the n-th.
  function NextRef(
    env: Env, shape: Shape, n: nat, sourceType: string, sourceId: string, inputHash: string, record: Bytes, now: int): Ref
  {
    Ref(shape.generation, n, sourceType, sourceId, inputHash, env.sha256(record), now)
  }

  // The record has the size of the generation and there is room for one more.
  predicate Storable(shape: Shape, n: nat, record: Bytes) {
    |record| == shape.RecordSize() && VectorOffset(HeaderAt(shape, n), n + 1).Some?
  }

  // What a crash inside the append of ref leaves: everything committed before and
  // any part of one more line, or that line whole and the ref committed with it.
  ghost predicate AppendLeft(env: Env, shape: Shape, files: Files, refs: seq<Ref>, ref: Ref) {
    || (Committed(env, shape, files, refs)
        && Lines(env.codec, refs) <= files.map_.onDisk <= Lines(env.codec, refs) + Line(env.codec, ref))
    || (Committed(env, shape, files, refs + [ref]) && files.map_.onDisk == Lines(env.codec, refs + [ref]))
  }

  // The record of ref and its line are durable but not yet counted.
  ghost predicate Placed(env: Env, shape: Shape, files: Files, refs: seq<Ref>, ref: Ref) {
    && Committed(env, shape, files, refs)
    && AreaHolds(env, shape, files.area.onDisk, refs + [ref])
    && |files.area.onDisk| == Span(|refs| + 1, shape.RecordSize())
    && DistinctKeys(refs + [ref])
    && files.map_.onDisk == Lines(env.codec, refs + [ref])
  }

  // ---- lemmas about the layout ----

  lemma SliceOfPrefix(data: Bytes, n: nat, from: nat, to: nat)
    requires from <= to <= n <= |data|
    ensures data[..n][from..to] == data[from..to]
  {
  }

  lemma RecordStable(area: Bytes, longer: Bytes, i: nat, n: nat, size: nat)
    requires i < n && Span(n, size) <= |area| && Span(n, size) <= |longer|
    requires area[..Span(n, size)] == longer[..Span(n, size)]
    ensures Record(area, i, size) == Record(longer, i, size)
    ensures |Record(area, i, size)| == size
  {
    SpanGrows(i + 1, n, size);
    var at := Span(i, size);
    SliceOfPrefix(area, Span(n, size), at, at + size);
    SliceOfPrefix(longer, Span(n, size), at, at + size);
  }

  // The records of refs are in their committed bytes alone.
  lemma AreaElsewhere(env: Env, shape: Shape, area: Bytes, other: Bytes, refs: seq<Ref>)
    requires AreaHolds(env, shape, area, refs)
    requires Span(|refs|, shape.RecordSize()) <= |other|
    requires other[..Span(|refs|, shape.RecordSize())] == area[..Span(|refs|, shape.RecordSize())]
    ensures AreaHolds(env, shape, other, refs)
  {
    forall i | 0 <= i < |refs|
      ensures RefAt(env, shape, other, refs[i], i)
    {
      RecordStable(area, other, i, |refs|, shape.RecordSize());
    }
  }

  lemma TruncatedArea(env: Env, shape: Shape, area: Bytes, other: Bytes, refs: seq<Ref>)
    requires AreaHolds(env, shape, area, refs)
    requires area[..Span(|refs|, shape.RecordSize())] <= other <= area
    ensures AreaHolds(env, shape, other, refs)
  {
    AreaElsewhere(env, shape, area, other, refs);
  }

  lemma AreaSnoc(env: Env, shape: Shape, area: Bytes, refs: seq<Ref>, record: Bytes, ref: Ref)
    requires AreaHolds(env, shape, area, refs)
    requires |area| == Span(|refs|, shape.RecordSize())
    requires |record| == shape.RecordSize()
    requires ref.ordinal == |refs| && ref.generation == shape.generation && ref.checksum == env.sha256(record)
    ensures Record(area + record, |refs|, shape.RecordSize()) == record
    ensures AreaHolds(env, shape, area + record, refs + [ref])
  {
    AreaElsewhere(env, shape, area, area + record, refs);
  }

  lemma WholeMapHolds(env: Env, refs: seq<Ref>)
    ensures MapHolds(env, Lines(env.codec, refs), refs)
  {
    var any := Ref("", 0, "", "", "", "", 0);
    assert [] <= Line(env.codec, any);
  }

  lemma CommittedIndexable(env: Env, shape: Shape, files: Files, refs: seq<Ref>)
    requires Committed(env, shape, files, refs)
    ensures Indexable(refs, shape.generation) <==> AllNamed(refs)
  {
    if AllNamed(refs) {
      forall i | 0 <= i < |refs| ensures refs[i].ordinal == i && refs[i].generation == shape.generation {
        assert RefAt(env, shape, files.area.onDisk, refs[i], i);
      }
    }
  }

  // Swapping the committed lines in never loses one, finished or not.
  lemma RewriteHolds(env: Env, before: Bytes, after: Bytes, refs: seq<Ref>)
    requires MapHolds(env, before, refs)
    requires Survives(File(before, Lines(env.codec, refs)), after)
    ensures MapHolds(env, after, refs) && Lines(env.codec, refs) <= after <= before
  {
    WholeMapHolds(env, refs);
    var lines := Lines(env.codec, refs);
    var tail := before[|lines|..];
    var row :| tail <= Line(env.codec, row);
    assert before == lines + tail;
    assert lines <= after <= before;
    assert after[|lines|..] <= tail;
    assert after[|lines|..] <= Line(env.codec, row);
  }

  lemma TornMapHolds(env: Env, data: Bytes, refs: seq<Ref>, next: Ref)
    requires Lines(env.codec, refs) <= data <= Lines(env.codec, refs) + Line(env.codec, next)
    ensures MapHolds(env, data, refs)
  {
    var tail := data[|Lines(env.codec, refs)|..];
    assert tail <= Line(env.codec, next);
    assert data == Lines(env.codec, refs) + tail;
  }

  lemma CountInRange(shape: Shape, count: nat)
    requires Valid(shape.header) && InRange(HeaderAt(shape, 0))
    requires HEADER_SIZE + Span(count, shape.RecordSize()) <= MAX_INT64
    ensures InRange(HeaderAt(shape, count))
  {
    SpanAtLeast(count, shape.RecordSize());
  }

  // Append's two bounds checks leave room for one more committed record.
  lemma AppendRoom(shape: Shape, header: Header, ordinal: nat)
    requires shape.header == header.(committedCount := 0)
    requires Valid(header) && InRange(header)
    ensures var offset := VectorOffset(header, ordinal);
            && (VectorOffset(header, ordinal + 1).Some? <==> offset.Some? && offset.value + header.recordSize <= MAX_INT64)
            && (VectorOffset(header, ordinal + 1).Some? <==> HEADER_SIZE + Span(ordinal + 1, header.recordSize) <= MAX_INT64)
            && (offset.Some? ==> offset.value == HEADER_SIZE + Span(ordinal, header.recordSize))
            && (VectorOffset(header, ordinal + 1).Some? ==> InRange(HeaderAt(shape, ordinal + 1)))
  {
    VectorOffsetExact(header, ordinal);
    VectorOffsetExact(header, ordinal + 1);
    SpanIsProduct(ordinal, header.recordSize);
    SpanIsProduct(ordinal + 1, header.recordSize);
    if VectorOffset(header, ordinal + 1).Some? {
      CountInRange(shape, ordinal + 1);
    }
  }

  // Once the record and its line are durable, the count alone decides whether
  // the new ref is committed.
  lemma AfterCount(env: Env, shape: Shape, files: Files, image: Files, refs: seq<Ref>, ref: Ref)
    requires Placed(env, shape, files, refs, ref)
    requires image.Synced() && image.manifest == files.manifest && image.area == files.area && image.map_ == files.map_
    ensures image.head == files.head ==> Committed(env, shape, image, refs)
    ensures HeadHolds(shape, image.head.onDisk, |refs| + 1) ==> Committed(env, shape, image, refs + [ref])
  {
    WholeMapHolds(env, refs + [ref]);
  }

  // Scanning a committed map yields refs first, unless a line is too long to hold.
  lemma ScanCommitted(env: Env, max: nat, data: Bytes, refs: seq<Ref>)
    requires Lawful(env.codec)
    requires MapHolds(env, data, refs)
    ensures var scan := ParseUntilMalformed(env.codec, max, Tokens(data));
            && (scan.tooLong <==> !Scannable(max, data))
            && (!scan.tooLong ==>
                  && refs <= scan.rows
                  && (|scan.rows| == |refs| && !scan.malformed ==> data == Lines(env.codec, refs)))
  {
    var tail := data[|Lines(env.codec, refs)|..];
    var next :| tail <= Line(env.codec, next);
    assert data == Lines(env.codec, refs) + tail;
    ScanTornJournal(env.codec, max, refs, next, tail);
    hide Scannable, Tokens, Lines, ParseUntilMalformed;
    if tail == [] {
      assert data == Lines(env.codec, refs);
    }
  }

  // Cutting a torn map shorter makes no line longer.
  lemma CutStaysScannable(env: Env, max: nat, data: Bytes, shorter: Bytes, refs: seq<Ref>)
    requires Lawful(env.codec)
    requires MapHolds(env, data, refs) && Lines(env.codec, refs) <= shorter <= data
    requires Scannable(max, data)
    ensures Scannable(max, shorter)
  {
    var lines := Lines(env.codec, refs);
    var tail, kept := data[|lines|..], shorter[|lines|..];
    var next :| tail <= Line(env.codec, next);
    assert data == lines + tail && shorter == lines + kept && kept <= tail;
    TornScannableIff(env.codec, max, refs, next, tail);
    TornScannableIff(env.codec, max, refs, next, kept);
  }

  // Appending a line to whole lines, of which any part may reach the disk.
  lemma AppendScannable(env: Env, max: nat, refs: seq<Ref>, ref: Ref, data: Bytes)
    requires Lawful(env.codec)
    requires Lines(env.codec, refs) <= data <= Lines(env.codec, refs) + Line(env.codec, ref)
    ensures Scannable(max, Lines(env.codec, refs)) && |env.codec.encode(ref)| < max ==> Scannable(max, data)
    ensures Scannable(max, data) ==> Scannable(max, Lines(env.codec, refs))
    ensures data == Lines(env.codec, refs) + Line(env.codec, ref) ==>
              (Scannable(max, data) <==> Scannable(max, Lines(env.codec, refs)) && |env.codec.encode(ref)| < max)
  {
    var lines := Lines(env.codec, refs);
    var tail := data[|lines|..];
    assert data == lines + tail;
    TornScannableIff(env.codec, max, refs, ref, tail);
    TornScannableIff(env.codec, max, refs, ref, []);
    assert lines + [] == lines;
  }

  // What a death inside an append does to recovery.
  lemma AppendLeftRecoverable(env: Env, shape: Shape, files: Files, after: Files, refs: seq<Ref>, ref: Ref) returns (left: seq<Ref>)
    requires Lawful(env.codec) && files.map_.onDisk == Lines(env.codec, refs)
    requires AppendLeft(env, shape, after, refs, ref)
    ensures left == refs || left == refs + [ref]
    ensures Committed(env, shape, after, left)
    ensures Recoverable(after, left) ==> Recoverable(files, refs)
    ensures Recoverable(files, refs) && ref.sourceId != "" && Fits(env, ref) ==> Recoverable(after, left)
    ensures left != refs && Recoverable(after, left) ==> ref.sourceId != "" && Fits(env, ref)
  {
    hide Committed, Scannable, Lines, Lawful, Recoverable, Fits;
    if Committed(env, shape, after, refs)
       && Lines(env.codec, refs) <= after.map_.onDisk <= Lines(env.codec, refs) + Line(env.codec, ref) {
      left := refs;
      PartRecoverable(env, files, after, refs, ref);
    } else {
      left := refs + [ref];
      AppendedRecoverable(env, files, after, refs, ref);
    }
  }

  lemma PartRecoverable(env: Env, files: Files, after: Files, refs: seq<Ref>, ref: Ref)
    requires Lawful(env.codec) && files.map_.onDisk == Lines(env.codec, refs)
    requires Lines(env.codec, refs) <= after.map_.onDisk <= Lines(env.codec, refs) + Line(env.codec, ref)
    ensures Recoverable(after, refs) ==> Recoverable(files, refs)
    ensures Recoverable(files, refs) && Fits(env, ref) ==> Recoverable(after, refs)
  {
    AppendScannable(env, MAP_LINE_MAX, refs, ref, after.map_.onDisk);
    hide Scannable, Lines, Lawful, AllNamed;
  }

  // What one more committed ref does to recovery.
  lemma AppendedRecoverable(env: Env, files: Files, after: Files, refs: seq<Ref>, ref: Ref)
    requires Lawful(env.codec)
    requires files.map_.onDisk == Lines(env.codec, refs) && after.map_.onDisk == Lines(env.codec, refs + [ref])
    ensures Recoverable(after, refs + [ref]) <==> Recoverable(files, refs) && ref.sourceId != "" && Fits(env, ref)
  {
    LinesSnoc(env.codec, refs, ref);
    AppendScannable(env, MAP_LINE_MAX, refs, ref, after.map_.onDisk);
    hide Scannable, Lines;
    assert AllNamed(refs + [ref]) <==> AllNamed(refs) && ref.sourceId != "" by {
      assert (refs + [ref])[|refs|] == ref;
      assert forall i :: 0 <= i < |refs| ==> (refs + [ref])[i] == refs[i];
    }
  }

  // One source id and a NUL begin the other source id.
  predicate Shadows(a: string, b: string) {
    a + "\0" <= b
  }

  lemma SharedKeyShadows(a: string, x: string, b: string, y: string)
    requires Key(a, x) == Key(b, y) && |a| < |b|
    ensures Shadows(a, b)
  {
    var k := Key(a, x);
    assert k[..|a| + 1] == a + "\0";
    assert k[..|b|] == b && b[..|a| + 1] == k[..|a| + 1];
  }

  lemma ShadowSharesKey(a: string, b: string)
    requires Shadows(a, b)
    ensures exists x, y :: Key(a, x) == Key(b, y)
  {
    var x := b[|a| + 1..] + "\0";
    assert b == a + "\0" + b[|a| + 1..];
    assert Key(a, x) == Key(b, "");
  }

  lemma SameLengthKey(a: string, x: string, b: string, y: string)
    requires |a| == |b|
    ensures Key(a, x) == Key(b, y) <==> a == b && x == y
  {
    assert Key(a, x)[..|a|] == a && Key(b, y)[..|b|] == b;
    assert Key(a, x)[|a| + 1..] == x && Key(b, y)[|b| + 1..] == y;
  }

  lemma ShadowHasNul(a: string, b: string)
    ensures Shadows(a, b) ==> '\0' in b
  {
    if Shadows(a, b) {
      assert b[|a|] == (a + "\0")[|a|];
    }
  }

  // Two different source ids can share a key exactly when one shadows the other:
  // a NUL elsewhere in an id is harmless.
  lemma SourcesShareAKeyIff(a: string, b: string)
    requires a != b
    ensures (exists x, y :: Key(a, x) == Key(b, y)) <==> Shadows(a, b) || Shadows(b, a)
  {
    if x, y :| Key(a, x) == Key(b, y) {
      if |a| < |b| {
        SharedKeyShadows(a, x, b, y);
      } else if |b| < |a| {
        SharedKeyShadows(b, y, a, x);
      } else {
        SameLengthKey(a, x, b, y);
      }
    }
    if Shadows(a, b) {
      ShadowSharesKey(a, b);
    }
    if Shadows(b, a) {
      ShadowSharesKey(b, a);
      var x, y :| Key(b, x) == Key(a, y);
      assert Key(a, y) == Key(b, x);
    }
  }

  // Under one source id the hash tells keys apart, and so do ids without NUL.
  lemma KeyIsInjective(a: string, x: string, b: string, y: string)
    requires a == b || ('\0' !in a && '\0' !in b)
    ensures Key(a, x) == Key(b, y) <==> a == b && x == y
  {
    if a == b {
      SameLengthKey(a, x, b, y);
    } else {
      SourcesShareAKeyIff(a, b);
      ShadowHasNul(a, b);
      ShadowHasNul(b, a);
    }
  }

  lemma KeyCollidesOnNul()
    ensures Key("a\0b", "c") == Key("a", "b\0c")
  {
    assert Key("a\0b", "c") == "a\0b\0c" == Key("a", "b\0c");
  }

  // ---- loops over refs ----

  // recoverLocked's loop: it rebuilds bySource and rejects a bad mapping.
  method IndexRefs(all: seq<Ref>, count: nat, generation: string) returns (ok: bool, bySource: map<string, nat>)
    requires count <= |all|
    ensures ok <==> Indexable(all[..count], generation)
    ensures ok ==> Inverts(bySource, all[..count])
  {
    var seen: set<string> := {};
    bySource := map[];
    for i := 0 to count
      invariant Indexable(all[..i], generation)
      invariant Inverts(bySource, all[..i])
      invariant seen == bySource.Keys
    {
      var ref := all[i];
      assert all[..count][i] == ref && all[..i + 1] == all[..i] + [ref];
      if ref.ordinal != i || ref.generation != generation || ref.sourceId == "" || RefKey(ref) in seen {
        if RefKey(ref) in seen {
          var j := bySource[RefKey(ref)];
          assert all[..count][j] == all[..i][j];
        }
        return false, bySource;
      }
      InvertsSnoc(bySource, all[..i], ref);
      seen := seen + {RefKey(ref)};
      bySource := bySource[RefKey(ref) := i];
    }
    ok := true;
  }

  lemma InvertsSnoc(bySource: map<string, nat>, refs: seq<Ref>, ref: Ref)
    requires Inverts(bySource, refs) && RefKey(ref) !in bySource
    ensures Inverts(bySource[RefKey(ref) := |refs|], refs + [ref])
    ensures DistinctKeys(refs + [ref])
  {
  }

  // rewriteRefs' loop.
  method EncodeRefs(codec: Codec<Ref>, refs: seq<Ref>) returns (b: Bytes)
    ensures b == Lines(codec, refs)
  {
    b := [];
    for i := 0 to |refs|
      invariant b == Lines(codec, refs[..i])
    {
      LinesSnoc(codec, refs[..i], refs[i]);
      assert refs[..i + 1] == refs[..i] + [refs[i]];
      b := b + Line(codec, refs[i]);
    }
    assert refs[..|refs|] == refs;
  }

  // ---- the store ----

  datatype AppendResult =
    | Appended(ref: Ref)       // committed now and acknowledged
    | Known(known: Ref)        // acknowledged from an earlier commit
    | Refused                  // an error before anything was changed
    | AppendCrashed            // the process died; only the files remain

  datatype RecoverResult = Recovered | Corrupt | RecoverCrashed

  class Store {
    const env: Env
    var disk: Files
    var header: Header
    var manifest: Manifest
    var refs: seq<Ref>
    var bySource: map<string, nat>

    constructor (env: Env, disk: Files)
      ensures this.env == env && this.disk == disk
    {
      this.env := env;
      this.disk := disk;
      header := Header(0, 0, false, 0, 0, 0);
      manifest := Manifest("", "", 0, 0, 0);
      refs := [];
      bySource := map[];
    }

    function ShapeOf(): Shape
      reads this
    {
      Shape(header.(committedCount := 0), manifest.generation)
    }

    ghost predicate Consistent()
      reads this
    {
      && Committed(env, ShapeOf(), disk, refs)
      && header.committedCount == |refs|
      && |disk.area.onDisk| == Span(|refs|, header.recordSize)
      && disk.map_.onDisk == Lines(env.codec, refs)
      && disk.manifest.onDisk == Some(manifest) && manifest.committedVectors == |refs|
      && Inverts(bySource, refs)
    }

    // The process may die after any I/O call; what is left is a crash image.
    method Tick() returns (crashed: bool)
      modifies this`disk
      ensures !crashed ==> disk == old(disk)
      ensures crashed ==> CrashImage(old(disk), disk)
    {
      crashed := *;
      if crashed {
        var a: nat, b: nat, c: nat, d: bool := *, *, *, *;
        var head, area, lines := Remains(disk.head, a), Remains(disk.area, b), Remains(disk.map_, c);
        var kept := if d then disk.manifest.cached else disk.manifest.onDisk;
        disk := Files(File(head, head), File(area, area), File(lines, lines), Slot(kept, kept));
      }
    }

    // WriteAt of the record and the fsync that follows it.
    method WriteRecord(record: Bytes) returns (crashed: bool)
      requires disk.Synced()
      modifies this`disk
      ensures disk.Synced() && disk.head == old(disk.head) && disk.map_ == old(disk.map_) && disk.manifest == old(disk.manifest)
      ensures old(disk.area.onDisk) <= disk.area.onDisk
      ensures !crashed ==> disk.area.onDisk == old(disk.area.onDisk) + record
    {
      disk := disk.(area := disk.area.Append(record));
      crashed := Tick();
      if crashed {
        return;
      }
      disk := disk.(area := disk.area.Sync());
      crashed := Tick();
    }

    // The O_APPEND write of one map line and its fsync.
    method WriteLine(line: Bytes) returns (crashed: bool)
      requires disk.Synced()
      modifies this`disk
      ensures disk.Synced() && disk.head == old(disk.head) && disk.area == old(disk.area) && disk.manifest == old(disk.manifest)
      ensures old(disk.map_.onDisk) <= disk.map_.onDisk <= old(disk.map_.onDisk) + line
      ensures !crashed ==> disk.map_.onDisk == old(disk.map_.onDisk) + line
    {
      disk := disk.(map_ := disk.map_.Append(line));
      crashed := Tick();
      if crashed {
        return;
      }
      disk := disk.(map_ := disk.map_.Sync());
      crashed := Tick();
    }

    // The eight count bytes are overwritten in place, then synced.
    method WriteCount(count: nat) returns (crashed: bool)
      requires disk.Synced() && |disk.head.cached| == HEADER_SIZE
      modifies this`disk
      ensures disk.Synced() && disk.area == old(disk.area) && disk.map_ == old(disk.map_) && disk.manifest == old(disk.manifest)
      ensures var patched := Overwrite(old(disk.head.cached), COUNT_OFFSET, LittleEndian(count, 8));
              disk.head.onDisk == patched || (crashed && disk.head == old(disk.head))
    {
      var patched := Overwrite(disk.head.cached, COUNT_OFFSET, LittleEndian(count, 8));
      disk := disk.(head := disk.head.Write(patched));
      crashed := Tick();
      if crashed {
        return;
      }
      disk := disk.(head := disk.head.Sync());
      crashed := Tick();
    }

    // writeManifestLocked: a synced temporary file, a rename, a directory fsync.
    method WriteManifest() returns (crashed: bool)
      requires disk.Synced()
      modifies this`disk
      ensures disk.Synced() && disk.head == old(disk.head) && disk.area == old(disk.area) && disk.map_ == old(disk.map_)
      ensures disk.manifest.onDisk == Some(manifest) || (crashed && disk.manifest == old(disk.manifest))
    {
      disk := disk.(manifest := disk.manifest.Replace(Some(manifest)));
      crashed := Tick();
      if crashed {
        return;
      }
      disk := disk.(manifest := disk.manifest.Sync());
      crashed := Tick();
    }

    // The first writes of a new generation: the header, then the manifest. A
    // crash in between leaves a directory that recovery refuses.
    method Initialize(dimensions: nat, fresh_: Manifest) returns (crashed: bool)
      requires disk == NewFiles
      requires 0 < dimensions <= MAX_DIMENSIONS && fresh_.dimensions == dimensions && fresh_.committedVectors == 0
      modifies this
      ensures disk.Synced()
      ensures !crashed ==> Consistent() && refs == [] && manifest == fresh_ && header == NewHeader(dimensions).value
    {
      header := NewHeader(dimensions).value;
      manifest := fresh_;
      refs, bySource := [], map[];
      var bytes := Encode(header);
      disk := disk.(head := disk.head.Append(bytes.value));
      crashed := Tick();
      if crashed {
        return;
      }
      disk := disk.(head := disk.head.Sync());
      crashed := Tick();
      if crashed {
        return;
      }
      crashed := WriteManifest();
      WholeMapHolds(env, []);
    }

    // Steps one and two of an append: the record, then its map line.
    method Place(record: Bytes, ref: Ref) returns (crashed: bool)
      requires Consistent()
      requires |record| == header.recordSize
      requires ref.ordinal == |refs| && ref.generation == manifest.generation && ref.checksum == env.sha256(record)
      requires RefKey(ref) !in bySource
      modifies this`disk
      ensures Committed(env, ShapeOf(), disk, refs)
      ensures Lines(env.codec, refs) <= disk.map_.onDisk <= Lines(env.codec, refs) + Line(env.codec, ref)
      ensures disk.head == old(disk.head) && disk.manifest == old(disk.manifest)
      ensures !crashed ==> Placed(env, ShapeOf(), disk, refs, ref) && disk.map_.onDisk == Lines(env.codec, refs + [ref])
      ensures !crashed ==> Record(disk.area.onDisk, |refs|, header.recordSize) == record
    {
      hide Lines;
      ghost var area := disk.area.onDisk;
      crashed := WriteRecord(record);
      AreaElsewhere(env, ShapeOf(), area, disk.area.onDisk, refs);
      if crashed {
        return;
      }
      crashed := WriteLine(Line(env.codec, ref));
      TornMapHolds(env, disk.map_.onDisk, refs, ref);
      AreaSnoc(env, ShapeOf(), area, refs, record, ref);
      LinesSnoc(env.codec, refs, ref);
    }

    // Step three and the rest: the count, then memory, then the manifest.
    method Count(ref: Ref, now: int) returns (crashed: bool)
      requires Placed(env, ShapeOf(), disk, refs, ref)
      requires header.committedCount == |refs| && HeadHolds(ShapeOf(), HeaderBytes(HeaderAt(ShapeOf(), |refs| + 1)), |refs| + 1)
      requires disk.manifest.onDisk == Some(manifest)
      requires Inverts(bySource, refs) && RefKey(ref) !in bySource
      modifies this
      ensures ShapeOf() == old(ShapeOf()) && disk.area == old(disk.area) && disk.map_ == old(disk.map_)
      ensures crashed ==> Committed(env, ShapeOf(), disk, old(refs)) || Committed(env, ShapeOf(), disk, old(refs) + [ref])
      ensures !crashed ==> Consistent() && refs == old(refs) + [ref]
      ensures !crashed ==> manifest == old(manifest).(committedVectors := |refs|, updatedAt := now)
      ensures disk.manifest.onDisk.Some? && disk.manifest.onDisk.value.state == old(manifest.state) == manifest.state
    {
      hide Lines, AreaHolds, MapHolds, HeaderBytes, Overwrite, LittleEndian, TornLine;
      ghost var files := disk;
      CountPatchIsReencoding(HeaderAt(ShapeOf(), |refs|), |refs| + 1);
      header := header.(committedCount := header.committedCount + 1);
      crashed := WriteCount(header.committedCount);
      AfterCount(env, ShapeOf(), files, disk, refs, ref);
      if crashed {
        return;
      }
      bySource := bySource[RefKey(ref) := |refs|];
      refs := refs + [ref];
      manifest := manifest.(committedVectors := header.committedCount, updatedAt := now);
      crashed := WriteManifest();
    }

    lemma RoomForOne()
      requires Consistent()
      ensures var offset := VectorOffset(header, |refs|);
              && (VectorOffset(header, |refs| + 1).Some? <==> offset.Some? && offset.value + header.recordSize <= MAX_INT64)
              && (VectorOffset(header, |refs| + 1).Some? ==>
                    HeadHolds(ShapeOf(), HeaderBytes(HeaderAt(ShapeOf(), |refs| + 1)), |refs| + 1))
    {
      AppendRoom(ShapeOf(), header, |refs|);
    }

    // Commits at most one new ref, and acknowledges only what is durable.
    method Append(sourceType: string, sourceId: string, inputHash: string, record: Bytes, now: int)
      returns (r: AppendResult)
      requires Consistent() && Lawful(env.codec)
      modifies this
      ensures disk.Synced()
      ensures !r.AppendCrashed? ==> Consistent() && ShapeOf() == old(ShapeOf()) && manifest.state == old(manifest.state)
      ensures r.Known? <==> Key(sourceId, inputHash) in old(bySource)
      ensures r.Known? ==> r.known in refs && RefKey(r.known) == Key(sourceId, inputHash)
      ensures r.Known? || r.Refused? ==> refs == old(refs) && disk == old(disk) && manifest == old(manifest)
      ensures r.Refused? ==>
                |record| != old(header.recordSize) || VectorOffset(old(header), |old(refs)| + 1).None?
      ensures r.Appended? || r.AppendCrashed? ==>
                |record| == old(header.recordSize) && VectorOffset(old(header), |old(refs)| + 1).Some?
      ensures r.Appended? ==> refs == old(refs) + [r.ref]
      ensures r.Appended? ==> manifest == old(manifest).(committedVectors := |refs|, updatedAt := now)
      ensures r.Appended? ==>
                r.ref == NextRef(env, old(ShapeOf()), |old(refs)|, sourceType, sourceId, inputHash, record, now)
      ensures r.Appended? ==> Record(disk.area.onDisk, |old(refs)|, header.recordSize) == record
      ensures r.AppendCrashed? ==>
                AppendLeft(env, old(ShapeOf()), disk, old(refs),
                           NextRef(env, old(ShapeOf()), |old(refs)|, sourceType, sourceId, inputHash, record, now))
      ensures r.AppendCrashed? ==> disk.manifest.onDisk.Some? && disk.manifest.onDisk.value.state == old(manifest.state)
      ensures r.Appended? ==>
                (Recoverable(disk, refs) <==> Recoverable(old(disk), old(refs)) && sourceId != "" && Fits(env, r.ref))
    {
      hide Lines, Scannable, Recoverable, Lawful, AreaHolds, MapHolds, HeadHolds, RefAt, Record, HeaderBytes, VectorOffset, Span, Placed;
      var key := Key(sourceId, inputHash);
      if key in bySource {
        return Known(refs[bySource[key]]);
      }
      if |record| != header.recordSize {
        return Refused;
      }
      var ordinal := header.committedCount;
      var offset := VectorOffset(header, ordinal);
      RoomForOne();
      if offset.None? || offset.value + |record| > MAX_INT64 {
        return Refused;  // past the largest file offset the write itself fails
      }
      var ref := Ref(manifest.generation, ordinal, sourceType, sourceId, inputHash, env.sha256(record), now);
      var crashed := Place(record, ref);
      if crashed {
        return AppendCrashed;
      }
      LinesSnoc(env.codec, refs, ref);
      crashed := Count(ref, now);
      if crashed {
        return AppendCrashed;
      }
      AppendedRecoverable(env, old(disk), disk, old(refs), ref);
      return Appended(ref);
    }

    // ---- recovery ----

    method TruncateArea(size: nat) returns (crashed: bool)
      requires disk.Synced() && size <= |disk.area.cached|
      modifies this`disk
      ensures disk.Synced() && disk.head == old(disk.head) && disk.map_ == old(disk.map_) && disk.manifest == old(disk.manifest)
      ensures old(disk.area.onDisk)[..size] <= disk.area.onDisk <= old(disk.area.onDisk)
      ensures !crashed ==> |disk.area.onDisk| == size
    {
      disk := disk.(area := disk.area.Write(disk.area.cached[..size]));
      crashed := Tick();
      if crashed {
        return;
      }
      disk := disk.(area := disk.area.Sync());
      crashed := Tick();
    }

    // rewriteRefs: the committed lines alone, swapped in by a rename.
    method RewriteRefs() returns (crashed: bool)
      requires disk.Synced()
      modifies this`disk
      ensures disk.Synced() && disk.head == old(disk.head) && disk.area == old(disk.area) && disk.manifest == old(disk.manifest)
      ensures !crashed ==> disk.map_.onDisk == Lines(env.codec, refs)
      ensures crashed ==> Survives(old(disk.map_).Write(Lines(env.codec, refs)), disk.map_.onDisk)
    {
      var b := EncodeRefs(env.codec, refs);
      disk := disk.(map_ := disk.map_.Write(b));
      crashed := Tick();
      if crashed {
        return;
      }
      disk := disk.(map_ := disk.map_.Sync());
      crashed := Tick();
    }

    // recoverLocked reads the header, the manifest and the map: everything it
    // can refuse, it refuses before it writes.
    method ReadState(ghost shape: Shape, ghost committed: seq<Ref>) returns (ok: bool, excess: bool)
      requires disk.Synced() && Lawful(env.codec)
      modifies this
      ensures disk == old(disk)
      ensures ok ==> Inverts(bySource, refs) && Indexable(refs, manifest.generation)
      ensures ok ==> |refs| == header.committedCount && Span(|refs|, header.recordSize) <= |disk.area.cached|
      ensures ok ==> disk.manifest.cached == Some(manifest)
      ensures Committed(env, shape, disk, committed) ==>
                && (ok <==> Recoverable(disk, committed))
                && (ok ==> refs == committed && ShapeOf() == shape)
                && (ok && !excess ==> disk.map_.onDisk == Lines(env.codec, committed))
    {
      hide Lines, HeaderBytes, Tokens, ParseUntilMalformed, RefAt, Scannable;
      ghost var intact := Committed(env, shape, disk, committed);
      ok, excess := false, false;
      var h := DecodeHeader(disk.head.cached);
      if intact {
        DecodeEncode(HeaderAt(shape, |committed|));
        ScanCommitted(env, MAP_LINE_MAX, disk.map_.cached, committed);
      }
      if h.None? || disk.manifest.cached.None? {
        return;
      }
      header := h.value;
      manifest := disk.manifest.cached.value;
      if manifest.dimensions != header.dimensions {
        return;
      }
      var scan := ScanRows(env.codec, MAP_LINE_MAX, disk.map_.cached);
      if scan.tooLong {
        return;
      }
      if |scan.rows| < header.committedCount {
        return;
      }
      var indexed, index := IndexRefs(scan.rows, header.committedCount, manifest.generation);
      if intact {
        CommittedIndexable(env, shape, disk, committed);
      }
      if !indexed {
        return;
      }
      refs, bySource := scan.rows[..header.committedCount], index;
      ok := |disk.area.cached| >= Span(|refs|, header.recordSize);
      excess := |scan.rows| > header.committedCount || scan.malformed;
    }

    // recoverLocked. On files that commit refs it restores exactly refs, wherever
    // it may itself be interrupted; it refuses them exactly for an unnamed source or
    // for a line, committed or torn, that the scanner cannot hold.
    method Recover(ghost shape: Shape, ghost committed: seq<Ref>, now: int) returns (r: RecoverResult)
      requires disk.Synced() && Lawful(env.codec)
      modifies this
      ensures disk.Synced()
      ensures r.Corrupt? ==> disk == old(disk)
      ensures r.Recovered? ==> disk.manifest.onDisk == Some(manifest) && manifest.committedVectors == |refs|
      ensures r.Recovered? && old(disk.manifest.onDisk).Some? ==>
                var was := old(disk.manifest.onDisk).value;
                manifest == if was.committedVectors == |refs| then was else was.(committedVectors := |refs|, updatedAt := now)
      ensures r.Recovered? ==> Inverts(bySource, refs) && Indexable(refs, manifest.generation)
      ensures r.Recovered? ==> |disk.area.onDisk| == Span(|refs|, header.recordSize)
      ensures Committed(env, shape, old(disk), committed) ==>
                && (r.Corrupt? <==> !Recoverable(old(disk), committed))
                && (Recoverable(old(disk), committed) ==> Recoverable(disk, committed))
                && (r.Recovered? ==> Consistent() && refs == committed)
                && (r.Recovered? ==> ShapeOf() == shape)
                && Committed(env, shape, disk, committed)
                && disk.manifest.onDisk.value.state == old(disk.manifest.onDisk.value.state)
                && (r.Recovered? ==> manifest.state == disk.manifest.onDisk.value.state)
    {
      hide Lines, HeaderBytes, HeadHolds, AreaHolds, MapHolds, Record, RefAt, TornLine, Scannable, Lawful;
      ghost var intact := Committed(env, shape, disk, committed);
      ghost var files := disk;
      var ok, excess := ReadState(shape, committed);
      if !ok {
        return Corrupt;
      }
      var crashed := false;
      if |disk.area.cached| > Span(|refs|, header.recordSize) {
        crashed := TruncateArea(Span(|refs|, header.recordSize));
        if intact {
          TruncatedArea(env, shape, files.area.onDisk, disk.area.onDisk, committed);
        }
        if crashed {
          return RecoverCrashed;
        }
      }
      if excess {
        ghost var lines := disk.map_.onDisk;
        crashed := RewriteRefs();
        if intact {
          RewriteHolds(env, lines, disk.map_.onDisk, committed);
          CutStaysScannable(env, MAP_LINE_MAX, lines, disk.map_.onDisk, committed);
        }
        if crashed {
          return RecoverCrashed;
        }
      }
      if manifest.committedVectors != header.committedCount {
        manifest := manifest.(committedVectors := header.committedCount, updatedAt := now);
        crashed := WriteManifest();
        if crashed {
          return RecoverCrashed;
        }
      }
      r := Recovered;
    }

    // ---- verification ----

    function ReadRecord(ordinal: nat): Option<Bytes>
      reads this
    {
      var offset := VectorOffset(header, ordinal);
      if offset.None? then None
      else
        var at := offset.value - HEADER_SIZE;
        if at < 0 || at + header.recordSize > |disk.area.cached| then None
        else Some(disk.area.cached[at..at + header.recordSize])
    }

    ghost predicate ChecksumHolds(i: nat)
      reads this
      requires i < |refs|
    {
      ReadRecord(i).Some? && env.sha256(ReadRecord(i).value) == refs[i].checksum
    }

    // The ordinals Verify reads: all of them, or the first, middle and last.
    function Sample(full: bool): (indices: seq<nat>)
      reads this
      ensures forall i :: 0 <= i < |indices| ==> indices[i] < |refs|
    {
      var n := |refs|;
      if full then seq(n, i requires 0 <= i < n => i) else if n > 0 then [0, n / 2, n - 1] else []
    }

    method Verify(full: bool) returns (ok: bool)
      ensures ok <==> forall i :: 0 <= i < |Sample(full)| ==> ChecksumHolds(Sample(full)[i])
      ensures full ==> (ok <==> forall i :: 0 <= i < |refs| ==> ChecksumHolds(i))
      ensures !full ==> (ok <==> refs == [] || (ChecksumHolds(0) && ChecksumHolds(|refs| / 2) && ChecksumHolds(|refs| - 1)))
      ensures Consistent() ==> ok
    {
      hide VectorOffset, Consistent;
      var indices := Sample(full);
      assert full ==> |indices| == |refs|;
      if Consistent() {
        forall i | 0 <= i < |refs| ensures ChecksumHolds(i) {
          ConsistentRecord(i);
        }
      }
      assert !full && refs != [] ==> indices[0] == 0 && indices[1] == |refs| / 2 && indices[2] == |refs| - 1;
      var last: int := -1;
      for k := 0 to |indices|
        invariant forall j :: 0 <= j < k ==> ChecksumHolds(indices[j])
        invariant k > 0 ==> last == indices[k - 1]
        invariant k == 0 ==> last == -1
      {
        var i := indices[k];
        if i != last {
          last := i;
          var record := ReadRecord(i);
          if record.None? || env.sha256(record.value) != refs[i].checksum {
            assert !ChecksumHolds(i);
            return false;
          }
        }
      }
      if full {
        forall i | 0 <= i < |refs| ensures ChecksumHolds(i) {
          assert indices[i] == i;
        }
      }
      ok := true;
    }

    lemma ConsistentRecord(i: nat)
      requires Consistent() && i < |refs|
      ensures ReadRecord(i) == Some(Record(disk.area.onDisk, i, header.recordSize))
      ensures ChecksumHolds(i)
    {
      var size := header.recordSize;
      assert RefAt(env, ShapeOf(), disk.area.onDisk, refs[i], i);
      SpanIsProduct(i, size);
      SpanGrows(i + 1, |refs|, size);
      VectorOffsetExact(header, i);
    }
  }

  // ---- what recovery demands, spelled out ----

  // A mapping is accepted when each ref stands at its own ordinal, names this
  // generation and a source, and no two share source id and input hash as joined.
  lemma IndexableIff(refs: seq<Ref>, generation: string)
    ensures Indexable(refs, generation) <==>
            && (forall i :: 0 <= i < |refs| ==> refs[i].ordinal == i)
            && (forall i :: 0 <= i < |refs| ==> refs[i].generation == generation)
            && (forall i :: 0 <= i < |refs| ==> refs[i].sourceId != "")
            && (forall i, j :: 0 <= i < j < |refs| ==>
                  refs[i].sourceId + "\0" + refs[i].inputHash != refs[j].sourceId + "\0" + refs[j].inputHash)
  {
    forall i, j | 0 <= i < j < |refs|
      ensures RefKey(refs[i]) == refs[i].sourceId + "\0" + refs[i].inputHash
      ensures RefKey(refs[j]) == refs[j].sourceId + "\0" + refs[j].inputHash
    {
    }
  }
}
