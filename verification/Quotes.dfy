// Occurrences of one sequence inside another, and binding an evidence quote to
// the single place it comes from. Text is a sequence of bytes, one char each.
module Quotes {
  import opened Wrappers

  predicate OccursAt<T(==)>(text: seq<T>, part: seq<T>, i: int) {
    0 <= i && i + |part| <= |text| && text[i..i + |part|] == part
  }

  // The first occurrence at or after from.
  function FindFrom<T(==)>(text: seq<T>, part: seq<T>, from: nat): (r: Option<nat>)
    ensures r.Some? ==> from <= r.value && OccursAt(text, part, r.value)
    ensures r.Some? ==> forall j :: from <= j < r.value ==> !OccursAt(text, part, j)
    ensures r.None? ==> forall j :: from <= j ==> !OccursAt(text, part, j)
    decreases |text| - from
  {
    if from + |part| > |text| then None
    else if OccursAt(text, part, from) then Some(from)
    else if from == |text| then None
    else FindFrom(text, part, from + 1)
  }

  // indexBytes: compare every window in turn.
  method IndexOf<T(==)>(text: seq<T>, part: seq<T>) returns (r: Option<nat>)
    ensures r.Some? ==> OccursAt(text, part, r.value) && forall j :: 0 <= j < r.value ==> !OccursAt(text, part, j)
    ensures r.None? ==> forall j :: 0 <= j ==> !OccursAt(text, part, j)
  {
    var i := 0;
    while i + |part| <= |text|
      invariant forall j :: 0 <= j < i ==> !OccursAt(text, part, j)
      decreases |text| - i
    {
      if text[i..i + |part|] == part {
        return Some(i);
      }
      i := i + 1;
    }
    r := None;
  }

  datatype Binding = BoundAt(hash: string, startByte: nat, endByte: nat) | NotBound(reason: string)

  const QUOTE_REQUIRED := "EXACT_EVIDENCE_QUOTE_REQUIRED"
  const AMBIGUOUS := "EVIDENCE_AMBIGUOUS"

  ghost predicate OccursOnlyAt(content: string, quote: string, i: nat) {
    OccursAt(content, quote, i) && forall j: nat :: OccursAt(content, quote, j) ==> j == i
  }

  function Bind(sha256: string -> string, content: string, quote: string): Binding {
    if quote == "" then NotBound(QUOTE_REQUIRED)
    else
      match FindFrom(content, quote, 0)
      case None => NotBound(QUOTE_REQUIRED)
      case Some(first) =>
        if FindFrom(content, quote, first + 1).Some? then NotBound(AMBIGUOUS)
        else BoundAt(sha256(quote), first, first + |quote|)
  }

  // A quote binds exactly when it occurs once, overlapping occurrences counted.
  lemma BindsIffUnique(sha256: string -> string, content: string, quote: string, i: nat)
    ensures Bind(sha256, content, quote) == BoundAt(sha256(quote), i, i + |quote|)
            <==> quote != "" && OccursOnlyAt(content, quote, i)
    ensures Bind(sha256, content, quote).BoundAt? ==>
              var b := Bind(sha256, content, quote);
              b.hash == sha256(quote) && b.endByte == b.startByte + |quote| && OccursOnlyAt(content, quote, b.startByte)
  {
  }

  lemma AmbiguousIffRepeated(sha256: string -> string, content: string, quote: string)
    ensures Bind(sha256, content, quote) == NotBound(AMBIGUOUS)
            <==> quote != "" && exists i: nat, j: nat :: i < j && OccursAt(content, quote, i) && OccursAt(content, quote, j)
  {
    var first := FindFrom(content, quote, 0);
    if quote != "" && first.Some? {
      var second := FindFrom(content, quote, first.value + 1);
      if second.Some? {
        assert first.value < second.value && OccursAt(content, quote, first.value) && OccursAt(content, quote, second.value);
      }
    }
  }

  predicate QuoteMatches(sha256: string -> string, content: string, startByte: int, endByte: int, hash: string) {
    0 <= startByte < endByte <= |content| && hash == sha256(content[startByte..endByte])
  }

  // bindExactQuote: scan for the quote, stop at a second occurrence.
  method BindExactQuote(sha256: string -> string, content: string, quote: string) returns (r: Binding)
    ensures r == Bind(sha256, content, quote)
  {
    if |quote| == 0 {
      return NotBound(QUOTE_REQUIRED);
    }
    var first: int := -1;
    var count, offset := 0, 0;
    while offset <= |content| - |quote|
      invariant 0 <= offset <= |content| + 1 && count <= 1
      invariant count == 0 ==> first == -1 && forall j :: 0 <= j < offset ==> !OccursAt(content, quote, j)
      invariant count == 1 ==> 0 <= first < offset && OccursAt(content, quote, first)
      invariant count == 1 ==> forall j :: 0 <= j < offset && j != first ==> !OccursAt(content, quote, j)
      decreases |content| + 1 - offset
    {
      var index := IndexOf(content[offset..], quote);
      Shifted(content, quote, offset);
      if index.None? {
        offset := |content| + 1;
        break;
      }
      var absolute := offset + index.value;
      if first < 0 {
        first := absolute;
      }
      count := count + 1;
      if count > 1 {
        assert first < absolute && OccursAt(content, quote, absolute);
        return NotBound(AMBIGUOUS);
      }
      offset := absolute + 1;
    }
    if count == 0 {
      return NotBound(QUOTE_REQUIRED);
    }
    if !QuoteMatches(sha256, content, first, first + |quote|, sha256(quote)) {
      return NotBound(QUOTE_REQUIRED);
    }
    r := BoundAt(sha256(quote), first, first + |quote|);
  }

  lemma Shifted(text: string, part: string, offset: nat)
    requires offset <= |text|
    ensures forall j :: 0 <= j ==> (OccursAt(text[offset..], part, j) <==> OccursAt(text, part, offset + j))
    ensures forall j :: offset <= j ==> (OccursAt(text[offset..], part, j - offset) <==> OccursAt(text, part, j))
  {
    forall j | 0 <= j ensures OccursAt(text[offset..], part, j) <==> OccursAt(text, part, offset + j) {
      if offset + j + |part| <= |text| {
        assert text[offset..][j..j + |part|] == text[offset + j..offset + j + |part|];
      }
    }
    forall j | offset <= j ensures OccursAt(text[offset..], part, j - offset) <==> OccursAt(text, part, j) {
      assert OccursAt(text[offset..], part, j - offset) <==> OccursAt(text, part, offset + (j - offset));
    }
  }

  // supportedReplacement on word tokens: the replacement's words must stand in
  // the evidence next to each other and in order.
  method SupportedReplacement(needle: seq<string>, haystack: seq<string>) returns (supported: bool)
    ensures supported <==> |needle| > 0 && exists start: nat :: OccursAt(haystack, needle, start)
  {
    if |needle| == 0 || |needle| > |haystack| {
      return false;
    }
    var start := 0;
    while start + |needle| <= |haystack|
      invariant forall j: nat :: j < start ==> !OccursAt(haystack, needle, j)
      decreases |haystack| - start
    {
      var matched, offset := true, 0;
      while offset < |needle| && matched
        invariant offset <= |needle|
        invariant matched ==> forall k :: 0 <= k < offset ==> needle[k] == haystack[start + k]
        invariant !matched ==> exists k :: 0 <= k < |needle| && needle[k] != haystack[start + k]
        decreases |needle| - offset, matched
      {
        if needle[offset] != haystack[start + offset] {
          matched := false;
        } else {
          offset := offset + 1;
        }
      }
      if matched {
        assert haystack[start..start + |needle|] == needle;
        assert OccursAt(haystack, needle, start);
        return true;
      }
      ghost var k :| 0 <= k < |needle| && needle[k] != haystack[start + k];
      assert haystack[start..start + |needle|][k] == haystack[start + k];
      start := start + 1;
    }
    supported := false;
  }
}
