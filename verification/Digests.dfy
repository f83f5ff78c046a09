// Where the protocol's assumption about digests comes from.
module Digests {
  import opened Wrappers
  import opened Memory
  import opened Encoding
  import opened Framing
  import PR = ProposalRecords
  import G = Governance
  import opened GovernanceProof

  // The text adminRetireMemory hashes.
  function RetireText(id: string, version: int): string {
    "admin-retire:" + id + ":" + Decimal(version)
  }

  // The code's digests, all of them SHA-256 of bytes.
  function WithDigests(env: G.Env, sha256: Bytes -> string): G.Env {
    env.(requestHash := i => PR.RequestHash(sha256, i),
         retireHash := (id, v) => sha256(Utf8(RetireText(id, v))),
         sha256 := text => sha256(Utf8(text)))
  }

  lemma RetireTextIsInjective(a: string, v: int, b: string, w: int)
    requires RetireText(a, v) == RetireText(b, w)
    ensures a == b && v == w
  {
    var x, y := Decimal(v), Decimal(w);
    DecimalIsInjective(v, w);
    DecimalIsInjective(w, v);
    var s, t := RetireText(a, v), RetireText(b, w);
    assert s == ("admin-retire:" + a) + [':'] + x && t == ("admin-retire:" + b) + [':'] + y;
    LastColon("admin-retire:" + a, x, "admin-retire:" + b, y);
    assert ("admin-retire:" + a)[13..] == a && ("admin-retire:" + b)[13..] == b;
  }

  lemma LastColon(p: string, x: string, q: string, y: string)
    requires p + [':'] + x == q + [':'] + y && ':' !in x && ':' !in y
    ensures p == q && x == y
  {
    var s, t := p + [':'] + x, q + [':'] + y;
    assert s[|p|] == ':' && t[|q|] == ':';
    assert forall i :: |p| < i < |s| ==> s[i] == x[i - |p| - 1];
    assert forall i :: |q| < i < |t| ==> t[i] == y[i - |q| - 1];
    assert |p| == |q|;
    assert p == s[..|p|] && q == t[..|q|] && x == s[|p| + 1..] && y == t[|q| + 1..];
  }

  // Read as a length, "admin-re" announces more bytes than the text has.
  lemma RetireTextIsNoFrame(id: string, version: int, i: Identity)
    requires G.InRange(id, version)
    ensures Utf8(RetireText(id, version)) != Frame(PR.HashedFields(i))
  {
    hide Utf8, RetireText, FromBigEndian, Frame, PR.HashedFields;
    RetireBytes(id, version);
    AdminLength();
    ShortTextIsNoFrame(Utf8(RetireText(id, version)), PR.HashedFields(i));
  }

  lemma RetireBytes(id: string, version: int)
    requires G.InRange(id, version)
    ensures var text := Utf8(RetireText(id, version));
            8 <= |text| < 0x1000_0000_0000 && text[..8] == [97, 100, 109, 105, 110, 45, 114, 101]
  {
    var rest := "tire:" + id + ":" + Decimal(version);
    assert RetireText(id, version) == "admin-re" + rest;
    AdminBytes();
    DecimalIsShort(version);
    hide Utf8, Decimal, RetireText;
    Utf8Concat("admin-re", rest);
    Utf8Length(rest);
  }

  lemma AdminBytes()
    ensures Utf8("admin-re") == [97, 100, 109, 105, 110, 45, 114, 101]
  {
    assert Utf8("re") == [114, 101];
    assert Utf8("n-re") == [110, 45, 114, 101];
    assert Utf8("min-re") == [109, 105, 110, 45, 114, 101];
  }

  lemma AdminLength()
    ensures FromBigEndian([97, 100, 109, 105, 110, 45, 114, 101]) >= 0x6000_0000_0000_0000
  {
    var b1: Bytes := [97];
    var b2, b3, b4 := b1 + [100], b1 + [100] + [109], b1 + [100] + [109] + [105];
    var b5, b6, b7 := b4 + [110], b4 + [110] + [45], b4 + [110] + [45] + [114];
    OneMoreByte([], 97);
    assert [] + b1 == b1;
    OneMoreByte(b1, 100);
    OneMoreByte(b2, 109);
    OneMoreByte(b3, 105);
    OneMoreByte(b4, 110);
    OneMoreByte(b5, 45);
    OneMoreByte(b6, 114);
    OneMoreByte(b7, 101);
    assert b7 + [101] == [97, 100, 109, 105, 110, 45, 114, 101];
    hide FromBigEndian;
  }

  lemma OneMoreByte(b: Bytes, last: byte)
    ensures FromBigEndian(b + [last]) == 256 * FromBigEndian(b) + last
  {
    assert (b + [last])[..|b|] == b;
  }

  lemma DecimalIsShort(v: int)
    requires -0x8000_0000_0000_0000 <= v < 0x8000_0000_0000_0000
    ensures |Decimal(v)| <= 20
  {
    assert Tens(19) > 0x8000_0000_0000_0000 by {
      assert Tens(6) == 1000000;
      assert Tens(12) == 1000000000000;
      assert Tens(18) == 1000000000000000000;
    }
    DigitsOf(if v < 0 then -v else v, 19);
  }

  // With a digest that has no collisions and no empty value, the code's digests
  // are as sound as the protocol needs.
  lemma DigestsAreSound(env: G.Env, sha256: Bytes -> string)
    requires PR.CollisionFree(sha256) && forall b :: sha256(b) != ""
    ensures SoundDigests(WithDigests(env, sha256))
  {
    hide Utf8, Frame, PR.HashedFields, RetireText, G.InRange;
    var coded := WithDigests(env, sha256);
    assert forall t :: coded.sha256(t) == sha256(Utf8(t));
    assert forall i :: coded.requestHash(i) == PR.RequestHash(sha256, i) == sha256(Frame(PR.HashedFields(i)));
    assert forall id, v :: coded.retireHash(id, v) == sha256(Utf8(RetireText(id, v)));
    forall i, id, v | G.InRange(id, v) ensures coded.requestHash(i) != coded.retireHash(id, v) {
      RetireTextIsNoFrame(id, v, i);
    }
    forall a, v, b, w | coded.retireHash(a, v) == coded.retireHash(b, w) ensures a == b && v == w {
      Utf8IsInjective(RetireText(a, v), RetireText(b, w));
      RetireTextIsInjective(a, v, b, w);
    }
  }

  function Tagged(b: Bytes): string {
    "#" + KeepAll(b)
  }

  // There are such digests.
  lemma SoundDigestsExist(env: G.Env)
    ensures SoundDigests(WithDigests(env, Tagged))
  {
    PR.KeepAllIsCollisionFree();
    forall a, b | Tagged(a) == Tagged(b) ensures a == b {
      assert Tagged(a)[1..] == KeepAll(a) && Tagged(b)[1..] == KeepAll(b);
    }
    DigestsAreSound(env, Tagged);
  }
}
