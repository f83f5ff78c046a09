// Text as the code hashes it: the UTF-8 bytes of a string and the decimal form
// of an integer.
module Encoding {
  import opened Wrappers

  // UTF-8 (section 3 of RFC 3629).
  function EncodeChar(c: char): Bytes {
    var n := c as int;
    if n < 0x80 then [n]
    else if n < 0x800 then [0xC0 + n / 64, 0x80 + n % 64]
    else if n < 0x1_0000 then [0xE0 + n / 64 / 64, 0x80 + n / 64 % 64, 0x80 + n % 64]
    else [0xF0 + n / 64 / 64 / 64, 0x80 + n / 64 / 64 % 64, 0x80 + n / 64 % 64, 0x80 + n % 64]
  }

  function Utf8(s: string): Bytes {
    if s == "" then [] else EncodeChar(s[0]) + Utf8(s[1..])
  }

  lemma LeadByteTellsLength(c: char, d: char)
    requires EncodeChar(c)[0] == EncodeChar(d)[0]
    ensures |EncodeChar(c)| == |EncodeChar(d)|
  {
  }

  // A character is known from its bytes, whatever follows.
  lemma CharIsPrefixFree(c: char, x: Bytes, d: char, y: Bytes)
    requires EncodeChar(c) + x == EncodeChar(d) + y
    ensures c == d && x == y
  {
    assert |EncodeChar(c)| > 0 && |EncodeChar(d)| > 0;
    assert (EncodeChar(c) + x)[0] == EncodeChar(c)[0] && (EncodeChar(d) + y)[0] == EncodeChar(d)[0];
    LeadByteTellsLength(c, d);
    hide EncodeChar;
    var n := |EncodeChar(c)|;
    assert (EncodeChar(c) + x)[..n] == EncodeChar(c) && (EncodeChar(d) + y)[..n] == EncodeChar(d);
    assert (EncodeChar(c) + x)[n..] == x && (EncodeChar(d) + y)[n..] == y;
    SameBytesSameChar(c, d);
  }

  lemma SameQuotient(m: nat, n: nat)
    requires m / 64 == n / 64 && m % 64 == n % 64
    ensures m == n
  {
  }

  lemma SameBytesSameChar(c: char, d: char)
    requires EncodeChar(c) == EncodeChar(d)
    ensures c == d
  {
    var x, y, m, n := EncodeChar(c), EncodeChar(d), c as int, d as int;
    assert x[|x| - 1] == y[|x| - 1];
    if |x| > 1 {
      assert x[|x| - 2] == y[|x| - 2] && x[0] == y[0];
      if |x| > 2 {
        assert x[|x| - 3] == y[|x| - 3];
        if |x| > 3 {
          SameQuotient(m / 64 / 64, n / 64 / 64);
        }
        SameQuotient(m / 64, n / 64);
      }
      SameQuotient(m, n);
    }
    assert m == n;
  }

  lemma {:induction false} Utf8IsInjective(a: string, b: string)
    ensures Utf8(a) == Utf8(b) <==> a == b
    decreases |a|
  {
    if Utf8(a) == Utf8(b) && a != "" && b != "" {
      hide EncodeChar;
      CharIsPrefixFree(a[0], Utf8(a[1..]), b[0], Utf8(b[1..]));
      Utf8IsInjective(a[1..], b[1..]);
      assert a == [a[0]] + a[1..] && b == [b[0]] + b[1..];
    }
  }

  lemma {:induction false} Utf8Concat(a: string, b: string)
    ensures Utf8(a + b) == Utf8(a) + Utf8(b)
    decreases |a|
  {
    hide EncodeChar;
    if a == "" {
      assert a + b == b;
    } else {
      Utf8Concat(a[1..], b);
      assert (a + b)[1..] == a[1..] + b;
    }
  }

  lemma {:induction false} Utf8Length(s: string)
    ensures |Utf8(s)| <= 4 * |s|
    decreases |s|
  {
    if s != "" {
      Utf8Length(s[1..]);
    }
  }

  // ---- integers ----

  function Digits(n: nat): string {
    var last := [(48 + n % 10) as char];
    if n < 10 then last else Digits(n / 10) + last
  }

  // strconv.FormatInt in base ten.
  function Decimal(v: int): string {
    if v < 0 then "-" + Digits(-v) else Digits(v)
  }

  lemma {:induction false} DigitsAreDigits(n: nat)
    ensures |Digits(n)| > 0 && forall i :: 0 <= i < |Digits(n)| ==> '0' <= Digits(n)[i] <= '9'
    decreases n
  {
    if n >= 10 {
      DigitsAreDigits(n / 10);
    }
  }

  lemma {:induction false} DigitsAreInjective(m: nat, n: nat)
    ensures Digits(m) == Digits(n) ==> m == n
    decreases m
  {
    if Digits(m) == Digits(n) {
      var a, b := Digits(m), Digits(n);
      assert a[|a| - 1] == (48 + m % 10) as char && b[|b| - 1] == (48 + n % 10) as char;
      DigitsAreDigits(m / 10);
      DigitsAreDigits(n / 10);
      if m >= 10 && n >= 10 {
        assert a[..|a| - 1] == Digits(m / 10) && b[..|b| - 1] == Digits(n / 10);
        DigitsAreInjective(m / 10, n / 10);
      }
    }
  }

  lemma DecimalIsInjective(v: int, w: int)
    ensures Decimal(v) == Decimal(w) ==> v == w
    ensures ':' !in Decimal(v)
  {
    hide Digits;
    DigitsAreDigits(if v < 0 then -v else v);
    DigitsAreDigits(if w < 0 then -w else w);
    DigitsAreInjective(if v < 0 then -v else v, if w < 0 then -w else w);
    if Decimal(v) == Decimal(w) {
      assert Decimal(v)[0] == Decimal(w)[0];
      if v < 0 {
        assert Decimal(v)[1..] == Digits(-v) && Decimal(w)[1..] == Digits(-w);
      }
    }
  }

  lemma {:induction false} DigitsOf(n: nat, width: nat)
    requires n < Tens(width) && width > 0
    ensures |Digits(n)| <= width
    decreases width
  {
    if n >= 10 {
      DigitsOf(n / 10, width - 1);
    }
  }

  function Tens(width: nat): nat {
    if width == 0 then 1 else 10 * Tens(width - 1)
  }

  // ---- codes without collisions ----

  // Every byte as the character of that number.
  function KeepAll(b: Bytes): (s: string)
    ensures |s| == |b| && forall i :: 0 <= i < |b| ==> s[i] as int == b[i]
  {
    seq(|b|, i requires 0 <= i < |b| => b[i] as char)
  }

  lemma KeepAllIsInjective(a: Bytes, b: Bytes)
    ensures KeepAll(a) == KeepAll(b) ==> a == b
  {
    if KeepAll(a) == KeepAll(b) {
      assert |a| == |KeepAll(a)| == |b|;
      forall k | 0 <= k < |a| ensures a[k] == b[k] {
        assert KeepAll(a)[k] as int == a[k] && KeepAll(b)[k] as int == b[k];
      }
    }
  }

  // A text that shows where it ends.
  function Delimited(s: string): string {
    if s == "" then "0" else ['1', s[0]] + Delimited(s[1..])
  }

  lemma {:induction false} DelimitedIsPrefixFree(a: string, x: string, b: string, y: string)
    requires Delimited(a) + x == Delimited(b) + y
    ensures a == b && x == y
    decreases |a|
  {
    var p, q := Delimited(a) + x, Delimited(b) + y;
    assert p[0] == q[0];
    if a == "" {
      assert b == "" && x == p[1..] && y == q[1..];
    } else {
      assert b != "" && p[1] == q[1];
      assert p[2..] == Delimited(a[1..]) + x && q[2..] == Delimited(b[1..]) + y;
      DelimitedIsPrefixFree(a[1..], x, b[1..], y);
      assert a == [a[0]] + a[1..] && b == [b[0]] + b[1..];
    }
  }
}
