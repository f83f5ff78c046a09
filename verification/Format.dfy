// The fixed binary header of a vector file and the placement of its records.
module Format {
  import opened Wrappers

  const HEADER_SIZE := 64
  const FORMAT_VERSION := 1
  const FLOAT32_LE := 1
  const MAX_DIMENSIONS := 0x10_0000
  const MAX_INT64 := 0x7FFF_FFFF_FFFF_FFFF
  const TWO_64 := 0x1_0000_0000_0000_0000
  const COUNT_OFFSET := 16

  // ASCII "MMVEC001".
  const MAGIC: Bytes := [77, 77, 86, 69, 67, 48, 48, 49]

  datatype Header = Header(
    version: nat, dtype: nat, normalized: bool, dimensions: nat, committedCount: nat, recordSize: nat)

  // The Go field widths: uint16, uint8, uint32, uint64, uint64.
  predicate InRange(h: Header) {
    && h.version < 0x1_0000
    && h.dtype < 0x100
    && h.dimensions < 0x1_0000_0000
    && h.committedCount < TWO_64
    && h.recordSize < TWO_64
  }

  predicate Valid(h: Header) {
    && h.version == FORMAT_VERSION
    && h.dtype == FLOAT32_LE
    && h.normalized
    && h.dimensions != 0
    && h.recordSize == h.dimensions * 4
  }

  function NewHeader(dimensions: int): (r: Option<Header>)
    ensures r.Some? <==> 0 < dimensions <= MAX_DIMENSIONS
    ensures r.Some? ==> Valid(r.value) && InRange(r.value)
                        && r.value.dimensions == dimensions && r.value.committedCount == 0
  {
    if dimensions <= 0 || dimensions > MAX_DIMENSIONS then None
    else Some(Header(FORMAT_VERSION, FLOAT32_LE, true, dimensions, 0, dimensions * 4))
  }

  // ---- little-endian integers ----

  function Pow256(k: nat): (p: nat)
    ensures p > 0
  {
    if k == 0 then 1 else 256 * Pow256(k - 1)
  }

  lemma PowerTable()
    ensures Pow256(1) == 0x100 && Pow256(2) == 0x1_0000 && Pow256(4) == 0x1_0000_0000 && Pow256(8) == TWO_64
  {
    assert Pow256(3) == 0x100_0000;
    assert Pow256(4) == 0x1_0000_0000;
    assert Pow256(6) == 0x1_0000_0000_0000;
  }

  function LittleEndian(n: nat, width: nat): (b: Bytes)
    ensures |b| == width
  {
    if width == 0 then [] else [n % 256] + LittleEndian(n / 256, width - 1)
  }

  function FromLittleEndian(b: Bytes): nat {
    if b == [] then 0 else b[0] + 256 * FromLittleEndian(b[1..])
  }

  lemma {:induction false} LittleEndianRoundTrip(n: nat, width: nat)
    requires n < Pow256(width)
    ensures FromLittleEndian(LittleEndian(n, width)) == n
    decreases width
  {
    if width > 0 {
      LittleEndianRoundTrip(n / 256, width - 1);
      assert LittleEndian(n, width)[1..] == LittleEndian(n / 256, width - 1);
    }
  }

  lemma {:induction false} FromLittleEndianRoundTrip(b: Bytes)
    ensures FromLittleEndian(b) < Pow256(|b|)
    ensures LittleEndian(FromLittleEndian(b), |b|) == b
    decreases |b|
  {
    if b != [] {
      FromLittleEndianRoundTrip(b[1..]);
      var n := FromLittleEndian(b);
      assert n % 256 == b[0] && n / 256 == FromLittleEndian(b[1..]);
      assert b == [b[0]] + b[1..];
    }
  }

  // ---- the header codec ----

  function Zeros(n: nat): Bytes {
    seq(n, _ => 0)
  }

  function HeaderBytes(h: Header): (b: Bytes)
    requires h.dtype < 256
    ensures |b| == HEADER_SIZE
  {
    MAGIC + LittleEndian(h.version, 2) + [h.dtype, 1] + LittleEndian(h.dimensions, 4)
    + LittleEndian(h.committedCount, 8) + LittleEndian(h.recordSize, 8) + Zeros(32)
  }

  method PutLittleEndian(b: array<byte>, at: nat, n: nat, width: nat)
    requires at + width <= b.Length
    modifies b
    ensures b[at..at + width] == LittleEndian(n, width)
    ensures forall i :: 0 <= i < b.Length && !(at <= i < at + width) ==> b[i] == old(b[i])
    decreases width
  {
    if width > 0 {
      b[at] := n % 256;
      PutLittleEndian(b, at + 1, n / 256, width - 1);
      assert b[at..at + width] == [b[at]] + b[at + 1..at + 1 + (width - 1)];
    }
  }

  lemma Parts(b: Bytes)
    requires |b| == HEADER_SIZE
    ensures b == b[0..8] + b[8..10] + b[10..12] + b[12..16] + b[16..24] + b[24..32] + b[32..64]
  {
    assert b[0..8] + b[8..10] == b[0..10];
    assert b[0..10] + b[10..12] == b[0..12];
    assert b[0..12] + b[12..16] == b[0..16];
    assert b[0..16] + b[16..24] == b[0..24];
    assert b[0..24] + b[24..32] == b[0..32];
  }

  // Header.Encode: refuses an inconsistent header, otherwise fills a buffer.
  method Encode(h: Header) returns (r: Option<Bytes>)
    ensures r == if Valid(h) then Some(HeaderBytes(h)) else None
  {
    if !Valid(h) {
      return None;
    }
    var b := new byte[HEADER_SIZE](_ => 0);
    for i := 0 to 8
      invariant forall j :: 0 <= j < i ==> b[j] == MAGIC[j]
      invariant forall j :: i <= j < HEADER_SIZE ==> b[j] == 0
    {
      b[i] := MAGIC[i];
    }
    PutLittleEndian(b, 8, h.version, 2);
    b[10], b[11] := h.dtype, 1;
    PutLittleEndian(b, 12, h.dimensions, 4);
    PutLittleEndian(b, 16, h.committedCount, 8);
    PutLittleEndian(b, 24, h.recordSize, 8);
    assert b[0..8] == MAGIC;
    assert b[10..12] == [h.dtype, 1];
    assert b[8..10] == LittleEndian(h.version, 2);
    assert b[12..16] == LittleEndian(h.dimensions, 4);
    assert b[16..24] == LittleEndian(h.committedCount, 8);
    assert b[32..64] == Zeros(32);
    r := Some(b[..]);
    Parts(r.value);
  }

  function RawHeader(b: Bytes): Header
    requires |b| >= HEADER_SIZE
  {
    Header(FromLittleEndian(b[8..10]), b[10], b[11] == 1, FromLittleEndian(b[12..16]),
           FromLittleEndian(b[16..24]), FromLittleEndian(b[24..32]))
  }

  function DecodeHeader(b: Bytes): Option<Header> {
    if |b| < HEADER_SIZE || b[..8] != MAGIC then None
    else if Valid(RawHeader(b)) then Some(RawHeader(b)) else None
  }

  lemma HeaderFields(h: Header)
    requires h.dtype < 256
    ensures var b := HeaderBytes(h);
            && b[..8] == MAGIC && b[8..10] == LittleEndian(h.version, 2) && b[10] == h.dtype && b[11] == 1
            && b[12..16] == LittleEndian(h.dimensions, 4) && b[16..24] == LittleEndian(h.committedCount, 8)
            && b[24..32] == LittleEndian(h.recordSize, 8)
  {
  }

  // Every valid header survives the file.
  lemma DecodeEncode(h: Header)
    requires InRange(h) && Valid(h)
    ensures DecodeHeader(HeaderBytes(h)) == Some(h)
  {
    HeaderFields(h);
    PowerTable();
    LittleEndianRoundTrip(h.version, 2);
    LittleEndianRoundTrip(h.dimensions, 4);
    LittleEndianRoundTrip(h.committedCount, 8);
    LittleEndianRoundTrip(h.recordSize, 8);
  }

  lemma FieldRoundTrip(b: Bytes, from: nat, to: nat)
    requires from <= to <= |b|
    ensures FromLittleEndian(b[from..to]) < Pow256(to - from)
    ensures LittleEndian(FromLittleEndian(b[from..to]), to - from) == b[from..to]
  {
    FromLittleEndianRoundTrip(b[from..to]);
  }

  // Only the encoding of a header decodes to it, up to the reserved bytes.
  lemma EncodeDecode(b: Bytes)
    requires DecodeHeader(b).Some?
    ensures InRange(DecodeHeader(b).value)
    ensures HeaderBytes(DecodeHeader(b).value)[..32] == b[..32]
  {
    var h := RawHeader(b);
    FieldRoundTrip(b, 8, 10);
    FieldRoundTrip(b, 12, 16);
    FieldRoundTrip(b, 16, 24);
    FieldRoundTrip(b, 24, 32);
    PowerTable();
    assert b[..32] == b[..8] + b[8..10] + [b[10], b[11]] + b[12..16] + b[16..24] + b[24..32];
    assert HeaderBytes(h)[..32] ==
           MAGIC + LittleEndian(h.version, 2) + [h.dtype, 1] + LittleEndian(h.dimensions, 4)
           + LittleEndian(h.committedCount, 8) + LittleEndian(h.recordSize, 8);
  }

  // The lowest byte comes first.
  lemma LowestByteFirst(b: Bytes)
    ensures |b| == 4 ==> FromLittleEndian(b) == b[0] as int + 0x100 * (b[1] as int) + 0x1_0000 * (b[2] as int) + 0x100_0000 * (b[3] as int)
    ensures |b| == 8 ==> FromLittleEndian(b) == FromLittleEndian(b[..4]) + 0x1_0000_0000 * FromLittleEndian(b[4..])
  {
    if |b| == 4 {
      var c := b[1..];
      var d := c[1..];
      var e := d[1..];
      assert e[1..] == [] && c[0] == b[1] && d[0] == b[2] && e[0] == b[3];
      assert FromLittleEndian(e) == e[0];
      assert FromLittleEndian(d) == d[0] as int + 256 * FromLittleEndian(e);
      assert FromLittleEndian(c) == c[0] as int + 256 * FromLittleEndian(d);
    } else if |b| == 8 {
      var tail := b[4..];
      HighBytes(b, 4);
      assert Pow256(4) == 0x1_0000_0000 by {
        PowerTable();
      }
    }
  }

  lemma Distributes(a: nat, low: nat, power: nat, high: nat)
    ensures a * (low + power * high) == a * low + (a * power) * high
  {
  }

  lemma PowStep(k: nat)
    requires k > 0
    ensures Pow256(k) == 256 * Pow256(k - 1)
  {
  }

  lemma {:induction false} HighBytes(b: Bytes, k: nat)
    requires k <= |b|
    ensures FromLittleEndian(b) == FromLittleEndian(b[..k]) + Pow256(k) * FromLittleEndian(b[k..])
    decreases k
  {
    if k > 0 {
      HighBytes(b[1..], k - 1);
      var low, high, power := FromLittleEndian(b[1..][..k - 1]), FromLittleEndian(b[1..][k - 1..]), Pow256(k - 1);
      assert b[..k][1..] == b[1..][..k - 1] && b[1..][k - 1..] == b[k..];
      assert FromLittleEndian(b) == b[0] as int + 256 * FromLittleEndian(b[1..]);
      assert FromLittleEndian(b[..k]) == b[0] as int + 256 * low;
      hide FromLittleEndian, Pow256;
      Distributes(256, low, power, high);
      assert Pow256(k) == 256 * power by {
        PowStep(k);
      }
    } else {
      assert b[..0] == [] && b[0..] == b;
    }
  }

  // A header is read from 64 bytes exactly when they begin with the magic text,
  // say version one, float32 and normalized, and name a dimension and a record of
  // four bytes for each.
  lemma DecodesIff(b: Bytes)
    ensures DecodeHeader(b).Some? <==>
            && |b| >= 64 && b[..8] == [77, 77, 86, 69, 67, 48, 48, 49]
            && b[8] == 1 && b[9] == 0 && b[10] == 1 && b[11] == 1
            && FromLittleEndian(b[12..16]) != 0 && FromLittleEndian(b[24..32]) == 4 * FromLittleEndian(b[12..16])
    ensures DecodeHeader(b).Some? ==>
              && DecodeHeader(b).value.dimensions == FromLittleEndian(b[12..16])
              && DecodeHeader(b).value.committedCount == FromLittleEndian(b[16..24])
  {
    if |b| >= 64 {
      var v := b[8..10];
      assert v[1..][1..] == [];
      assert FromLittleEndian(v) == v[0] + 256 * (v[1] + 256 * FromLittleEndian([]));
      assert v[0] == b[8] && v[1] == b[9];
    }
  }

  // WriteAt(data, offset) inside the file.
  function Overwrite(b: Bytes, offset: nat, data: Bytes): (r: Bytes)
    requires offset + |data| <= |b|
    ensures |r| == |b|
  {
    b[..offset] + data + b[offset + |data|..]
  }

  // Rewriting only the eight count bytes is re-encoding the whole header.
  lemma CountPatchIsReencoding(h: Header, count: nat)
    requires h.dtype < 256
    ensures Overwrite(HeaderBytes(h), COUNT_OFFSET, LittleEndian(count, 8)) == HeaderBytes(h.(committedCount := count))
  {
    var b, c := HeaderBytes(h), HeaderBytes(h.(committedCount := count));
    HeaderFields(h);
    HeaderFields(h.(committedCount := count));
    assert b[..16] == c[..16];
    assert b[24..] == c[24..];
    assert c == c[..16] + c[16..24] + c[24..];
  }

  // ---- record placement ----

  // Conversion of a uint64 to int64 keeps the bits.
  function ToInt64(u: nat): int
    requires u < TWO_64
  {
    if u <= MAX_INT64 then u else u - TWO_64
  }

  function VectorOffset(h: Header, ordinal: nat): (r: Option<int>) {
    if !Valid(h) || ordinal > (MAX_INT64 - HEADER_SIZE) / h.recordSize then None
    else Some(HEADER_SIZE + ToInt64(ordinal * h.recordSize % TWO_64))
  }

  lemma QuotientBound(ordinal: nat, size: nat, room: nat)
    requires size > 0
    ensures ordinal <= room / size <==> ordinal * size <= room
  {
    assert room == (room / size) * size + room % size;
    if ordinal <= room / size {
      assert ordinal * size <= (room / size) * size;
    } else {
      assert ordinal * size >= (room / size + 1) * size;
    }
  }

  // The guard is exactly the one that keeps the 64-bit arithmetic exact.
  lemma VectorOffsetExact(h: Header, ordinal: nat)
    requires Valid(h)
    ensures VectorOffset(h, ordinal).Some? <==> HEADER_SIZE + ordinal * h.recordSize <= MAX_INT64
    ensures VectorOffset(h, ordinal).Some? ==> VectorOffset(h, ordinal).value == HEADER_SIZE + ordinal * h.recordSize
  {
    QuotientBound(ordinal, h.recordSize, MAX_INT64 - HEADER_SIZE);
  }

  lemma RecordSlotsDisjoint(h: Header, i: nat, j: nat)
    requires i < j
    requires VectorOffset(h, i).Some? && VectorOffset(h, j).Some?
    ensures HEADER_SIZE <= VectorOffset(h, i).value
    ensures VectorOffset(h, i).value + h.recordSize <= VectorOffset(h, j).value <= MAX_INT64
  {
    VectorOffsetExact(h, i);
    VectorOffsetExact(h, j);
    assert (i + 1) * h.recordSize <= j * h.recordSize;
    assert (i + 1) * h.recordSize == i * h.recordSize + h.recordSize;
  }

  // The guard admits one ordinal whose record would end past the largest file
  // offset; a record fits exactly when the next ordinal still passes the guard.
  lemma RecordEndFits(h: Header, ordinal: nat)
    requires VectorOffset(h, ordinal).Some?
    ensures VectorOffset(h, ordinal).value + h.recordSize <= MAX_INT64 <==> VectorOffset(h, ordinal + 1).Some?
  {
    VectorOffsetExact(h, ordinal);
    VectorOffsetExact(h, ordinal + 1);
    assert (ordinal + 1) * h.recordSize == ordinal * h.recordSize + h.recordSize;
  }

  lemma LastAdmittedRecordOverflows()
    ensures var h := NewHeader(1).value; var last := 0x1FFF_FFFF_FFFF_FFEF;
            VectorOffset(h, last).Some? && VectorOffset(h, last).value + h.recordSize == MAX_INT64 + 1
  {
    VectorOffsetExact(NewHeader(1).value, 0x1FFF_FFFF_FFFF_FFEF);
  }
}
