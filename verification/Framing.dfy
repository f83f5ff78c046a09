// Length-framed hashing: every field is preceded by its length in eight bytes.
module Framing {
  import opened Wrappers

  const LENGTH_BYTES := 8
  const MAX_LENGTH := 0x1_0000_0000_0000_0000

  function BigEndian(n: nat, width: nat): (b: Bytes)
    ensures |b| == width
  {
    if width == 0 then [] else BigEndian(n / 256, width - 1) + [n % 256]
  }

  function FromBigEndian(b: Bytes): nat {
    if b == [] then 0 else 256 * FromBigEndian(b[..|b| - 1]) + b[|b| - 1]
  }

  function Power(width: nat): nat {
    if width == 0 then 1 else 256 * Power(width - 1)
  }

  lemma {:induction false} BigEndianRoundTrip(n: nat, width: nat)
    requires n < Power(width)
    ensures FromBigEndian(BigEndian(n, width)) == n
    decreases width
  {
    if width > 0 {
      BigEndianRoundTrip(n / 256, width - 1);
      assert BigEndian(n, width)[..width - 1] == BigEndian(n / 256, width - 1);
    }
  }

  lemma LengthsFit()
    ensures Power(LENGTH_BYTES) == MAX_LENGTH
  {
    assert Power(2) == 0x1_0000;
    assert Power(4) == 0x1_0000_0000;
    assert Power(6) == 0x1_0000_0000_0000;
  }

  function Field(value: Bytes): Bytes {
    BigEndian(|value|, LENGTH_BYTES) + value
  }

  function Frame(values: seq<Bytes>): Bytes {
    if values == [] then [] else Field(values[0]) + Frame(values[1..])
  }

  ghost predicate Representable(values: seq<Bytes>) {
    forall i :: 0 <= i < |values| ==> |values[i]| < MAX_LENGTH
  }

  // The parser that undoes the framing.
  function Unframe(data: Bytes): Option<seq<Bytes>>
    decreases |data|
  {
    if data == [] then Some([])
    else if |data| < LENGTH_BYTES then None
    else
      var n := FromBigEndian(data[..LENGTH_BYTES]);
      if |data| < LENGTH_BYTES + n then None
      else
        match Unframe(data[LENGTH_BYTES + n..])
        case None => None
        case Some(rest) => Some([data[LENGTH_BYTES..LENGTH_BYTES + n]] + rest)
  }

  lemma UnframeField(value: Bytes, rest: Bytes)
    requires |value| < MAX_LENGTH
    ensures Unframe(Field(value) + rest) ==
            match Unframe(rest)
            case None => None
            case Some(values) => Some([value] + values)
  {
    hide BigEndian, FromBigEndian;
    LengthsFit();
    BigEndianRoundTrip(|value|, LENGTH_BYTES);
    var data := Field(value) + rest;
    assert data[..LENGTH_BYTES] == BigEndian(|value|, LENGTH_BYTES);
    assert data[LENGTH_BYTES..LENGTH_BYTES + |value|] == value;
    assert data[LENGTH_BYTES + |value|..] == rest;
  }

  lemma {:induction false} UnframeFrame(values: seq<Bytes>)
    requires Representable(values)
    ensures Unframe(Frame(values)) == Some(values)
    decreases |values|
  {
    hide Field, Unframe;
    if values == [] {
      NothingFramed();
    } else {
      UnframeFrame(values[1..]);
      UnframeField(values[0], Frame(values[1..]));
      assert values == [values[0]] + values[1..];
    }
  }

  lemma NothingFramed()
    ensures Unframe([]) == Some([])
  {
  }

  // Two tuples of any lengths with one framing are the same tuple.
  lemma FrameIsInjective(a: seq<Bytes>, b: seq<Bytes>)
    requires Representable(a) && Representable(b)
    ensures Frame(a) == Frame(b) <==> a == b
  {
    UnframeFrame(a);
    UnframeFrame(b);
  }

  lemma {:induction false} FrameSnoc(values: seq<Bytes>, value: Bytes)
    ensures Frame(values + [value]) == Frame(values) + Field(value)
    decreases |values|
  {
    hide Field;
    if values == [] {
      assert values + [value] == [value];
      assert Frame([value]) == Field(value) + Frame([value][1..]) == Field(value);
    } else {
      FrameSnoc(values[1..], value);
      assert (values + [value])[1..] == values[1..] + [value];
      assert Field(values[0]) + (Frame(values[1..]) + Field(value)) == (Field(values[0]) + Frame(values[1..])) + Field(value);
    }
  }

  // The loop of RequestHash and tupleHash: what reaches the digest.
  method WriteFields(values: seq<Bytes>) returns (digested: Bytes)
    ensures digested == Frame(values)
  {
    hide Field, BigEndian;
    digested := [];
    for i := 0 to |values|
      invariant digested == Frame(values[..i])
    {
      FrameSnoc(values[..i], values[i]);
      assert values[..i + 1] == values[..i] + [values[i]];
      digested := digested + BigEndian(|values[i]|, LENGTH_BYTES);
      digested := digested + values[i];
      FieldParts(Frame(values[..i]), values[i]);
    }
    assert values[..|values|] == values;
  }

  lemma FieldParts(prefix: Bytes, value: Bytes)
    ensures prefix + BigEndian(|value|, LENGTH_BYTES) + value == prefix + Field(value)
  {
  }

  lemma {:induction false} BigEndianIsAtMost(n: nat, width: nat)
    ensures FromBigEndian(BigEndian(n, width)) <= n
    decreases width
  {
    if width > 0 {
      BigEndianIsAtMost(n / 256, width - 1);
      assert BigEndian(n, width)[..width - 1] == BigEndian(n / 256, width - 1);
    }
  }

  lemma FrameStarts(values: seq<Bytes>)
    requires values != []
    ensures |Frame(values)| >= LENGTH_BYTES + |values[0]|
    ensures FromBigEndian(Frame(values)[..LENGTH_BYTES]) <= |values[0]|
  {
    hide FromBigEndian, BigEndian;
    BigEndianIsAtMost(|values[0]|, LENGTH_BYTES);
    assert Frame(values) == BigEndian(|values[0]|, LENGTH_BYTES) + (values[0] + Frame(values[1..]));
    assert Frame(values)[..LENGTH_BYTES] == BigEndian(|values[0]|, LENGTH_BYTES);
  }

  // A text is the framing of no tuple, of whatever lengths, when its first eight
  // bytes read as a length announce more than follows.
  lemma ShortTextIsNoFrame(text: Bytes, values: seq<Bytes>)
    requires values != []
    requires LENGTH_BYTES <= |text| < LENGTH_BYTES + FromBigEndian(text[..LENGTH_BYTES])
    ensures text != Frame(values)
  {
    FrameStarts(values);
    hide FromBigEndian, Frame;
  }
}
