// Files that survive a crash only as far as they were synced.
//
// A write lands in the page cache; fsync makes the cached content durable. A
// crash keeps the durable content, or the cached content, or any length in
// between when one extends the other. Whole-value replacement (rename over a
// temporary file that was written and synced first) keeps the old or the new.
module CrashDisk {
  import opened Wrappers

  datatype File = File(onDisk: Bytes, cached: Bytes) {
    predicate Synced() {
      onDisk == cached
    }

    function Write(data: Bytes): File {
      File(onDisk, data)
    }

    function Append(data: Bytes): File {
      File(onDisk, cached + data)
    }

    function Sync(): File {
      File(cached, cached)
    }
  }

  const NoFile: File := File([], [])

  ghost predicate Survives(f: File, image: Bytes) {
    || image == f.onDisk
    || image == f.cached
    || f.onDisk <= image <= f.cached
    || f.cached <= image <= f.onDisk
  }

  // The content a crash leaves, for one way the crash may go.
  function Remains(f: File, keep: nat): (image: Bytes)
    ensures Survives(f, image)
  {
    if f.onDisk <= f.cached then f.cached[..Clip(keep, |f.onDisk|, |f.cached|)]
    else if f.cached <= f.onDisk then f.onDisk[..Clip(keep, |f.cached|, |f.onDisk|)]
    else if keep == 0 then f.onDisk else f.cached
  }

  function Clip(n: nat, low: nat, high: nat): (r: nat)
    requires low <= high
    ensures low <= r <= high
  {
    if n < low then low else if n > high then high else n
  }

  datatype Slot<T(==)> = Slot(onDisk: T, cached: T) {
    predicate Synced() {
      onDisk == cached
    }

    function Replace(value: T): Slot<T> {
      Slot(onDisk, value)
    }

    function Sync(): Slot<T> {
      Slot(cached, cached)
    }
  }
}
