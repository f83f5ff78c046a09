// Newline-delimited records: how a journal file is written, and how a reader
// that may meet a torn tail takes it apart again.
module Jsonl {
  import opened Wrappers

  const NEWLINE: byte := 10

  predicate White(b: byte) {
    9 <= b <= 13 || b == 32
  }

  // encoding/json on one record type. The two directions are parameters.
  datatype Codec<!T> = Codec(encode: T -> Bytes, decode: Bytes -> Option<T>)

  // What the journals rely on: a record is one non-empty line that neither begins
  // nor ends with white space, decoding inverts encoding, and no strict prefix of
  // a line parses.
  ghost predicate Lawful<T(!new)>(c: Codec<T>) {
    && (forall r :: |c.encode(r)| > 0)
    && (forall r :: !White(c.encode(r)[0]) && !White(c.encode(r)[|c.encode(r)| - 1]))
    && (forall r :: NEWLINE !in c.encode(r))
    && (forall r :: c.decode(c.encode(r)) == Some(r))
    && (forall r, k {:trigger c.encode(r)[..k]} :: 0 <= k < |c.encode(r)| ==> c.decode(c.encode(r)[..k]) == None)
  }

  function Line<T>(c: Codec<T>, row: T): Bytes {
    c.encode(row) + [NEWLINE]
  }

  function Lines<T>(c: Codec<T>, rows: seq<T>): Bytes {
    if rows == [] then [] else Lines(c, rows[..|rows| - 1]) + Line(c, rows[|rows| - 1])
  }

  lemma LinesSnoc<T>(c: Codec<T>, rows: seq<T>, row: T)
    ensures Lines(c, rows + [row]) == Lines(c, rows) + Line(c, row)
  {
    assert (rows + [row])[..|rows|] == rows;
  }

  lemma {:induction false} LinesCons<T>(c: Codec<T>, row: T, rows: seq<T>)
    ensures Lines(c, [row] + rows) == Line(c, row) + Lines(c, rows)
    decreases |rows|
  {
    if rows == [] {
      assert [row] + rows == [] + [row];
      LinesSnoc(c, [], row);
    } else {
      var front, last := rows[..|rows| - 1], rows[|rows| - 1];
      LinesCons(c, row, front);
      assert [row] + rows == ([row] + front) + [last];
      LinesSnoc(c, [row] + front, last);
      assert Line(c, row) + (Lines(c, front) + Line(c, last)) == (Line(c, row) + Lines(c, front)) + Line(c, last);
    }
  }

  // ---- reading ----

  // The index of the first newline at or after from, or |data|.
  function LineEnd(data: Bytes, from: nat): (end: nat)
    requires from <= |data|
    ensures from <= end <= |data|
    ensures NEWLINE !in data[from..end]
    ensures end < |data| ==> data[end] == NEWLINE
    decreases |data| - from
  {
    if from == |data| || data[from] == NEWLINE then from else LineEnd(data, from + 1)
  }

  // bufio.ScanLines: the newline-free stretches; a non-empty tail without a
  // newline is still a token.
  function Tokens(data: Bytes): seq<Bytes>
    decreases |data|
  {
    if data == [] then []
    else
      var end := LineEnd(data, 0);
      if end == |data| then [data] else [data[..end]] + Tokens(data[end + 1..])
  }

  lemma TokensOfLine(line: Bytes, rest: Bytes)
    requires NEWLINE !in line
    ensures Tokens(line + [NEWLINE] + rest) == [line] + Tokens(rest)
  {
    var data := line + [NEWLINE] + rest;
    var end := LineEnd(data, 0);
    assert data[|line|] == NEWLINE;
    assert forall i :: 0 <= i < |line| ==> data[i] == line[i];
    assert forall i :: 0 <= i < end ==> data[0..end][i] == data[i];
    assert end == |line|;
    assert data[..end] == line;
    assert data[end + 1..] == rest;
  }

  lemma NewlineFreePrefix(line: Bytes, tail: Bytes)
    requires NEWLINE !in line
    requires tail <= line
    ensures NEWLINE !in tail
  {
    assert forall i :: 0 <= i < |tail| ==> tail[i] == line[i];
  }

  lemma TokensOfTail(tail: Bytes)
    requires NEWLINE !in tail
    ensures Tokens(tail) == if tail == [] then [] else [tail]
  {
    assert LineEnd(tail, 0) == |tail|;
  }

  // ---- a scanner with a longest line ----

  // No line is as long as the scanner's buffer may grow.
  ghost predicate Scannable(max: nat, data: Bytes) {
    AllBelow(max, Tokens(data))
  }

  ghost predicate AllBelow(max: nat, tokens: seq<Bytes>) {
    forall t :: t in tokens ==> |t| < max
  }

  lemma AllBelowCons(max: nat, token: Bytes, tokens: seq<Bytes>)
    ensures AllBelow(max, [token] + tokens) <==> |token| < max && AllBelow(max, tokens)
  {
    assert token in [token] + tokens;
    assert forall t :: t in tokens ==> t in [token] + tokens;
  }

  lemma AllBelowOne(max: nat, token: Bytes)
    ensures AllBelow(max, [token]) <==> |token| < max
  {
    assert token in [token];
  }

  lemma ScannableStep(max: nat, data: Bytes)
    requires data != []
    ensures var end := LineEnd(data, 0);
            Scannable(max, data) <==> end < max && Scannable(max, if end == |data| then [] else data[end + 1..])
  {
    var end := LineEnd(data, 0);
    if end < |data| {
      assert Tokens(data) == [data[..end]] + Tokens(data[end + 1..]);
      AllBelowCons(max, data[..end], Tokens(data[end + 1..]));
    } else {
      assert Tokens(data) == [data] && Tokens([]) == [];
      AllBelowOne(max, data);
    }
    hide AllBelow;
  }

  lemma NothingToScan(max: nat)
    ensures Scannable(max, [])
  {
  }

  // How long the last token of a torn journal is.
  function TornLength<T>(c: Codec<T>, row: T, tail: Bytes): nat {
    if |tail| < |c.encode(row)| then |tail| else |c.encode(row)|
  }

  ghost predicate Short<T>(c: Codec<T>, max: nat, rows: seq<T>) {
    forall row :: row in rows ==> |c.encode(row)| < max
  }

  lemma ShortCons<T>(c: Codec<T>, max: nat, first: T, rest: seq<T>)
    ensures Short(c, max, [first] + rest) <==> |c.encode(first)| < max && Short(c, max, rest)
  {
    assert first in [first] + rest;
    assert forall row :: row in rest ==> row in [first] + rest;
  }

  // A journal, perhaps torn, can be scanned exactly when every line is short and
  // so is what is left of the torn one.
  lemma {:induction false} TornScannableIff<T(!new)>(c: Codec<T>, max: nat, rows: seq<T>, row: T, tail: Bytes)
    requires Lawful(c) && tail <= Line(c, row)
    ensures Scannable(max, Lines(c, rows) + tail) <==> Short(c, max, rows) && (tail == [] || TornLength(c, row, tail) < max)
    decreases |rows|
  {
    if rows == [] {
      assert Lines(c, rows) + tail == tail;
      TailTokens(c, row, tail);
      if tail != [] {
        assert Tokens(tail) == [Tokens(tail)[0]];
        AllBelowOne(max, Tokens(tail)[0]);
      }
    } else {
      var first, rest := rows[0], rows[1..];
      assert rows == [first] + rest;
      LinesCons(c, first, rest);
      var data := Lines(c, rest) + tail;
      assert Lines(c, rows) + tail == c.encode(first) + [NEWLINE] + data;
      TokensOfLine(c.encode(first), data);
      TornScannableIff(c, max, rest, row, tail);
      AllBelowCons(max, c.encode(first), Tokens(data));
      ShortCons(c, max, first, rest);
      hide Lines, Tokens, Line, Lawful, AllBelow, Short;
    }
  }

  lemma TailTokens<T(!new)>(c: Codec<T>, row: T, tail: Bytes)
    requires Lawful(c) && tail <= Line(c, row)
    ensures tail == [] ==> Tokens(tail) == []
    ensures tail != [] ==> |Tokens(tail)| == 1 && |Tokens(tail)[0]| == TornLength(c, row, tail)
  {
    var line := c.encode(row);
    if |tail| <= |line| {
      assert tail == Line(c, row)[..|tail|] == line[..|tail|];
      NewlineFreePrefix(line, tail);
      TokensOfTail(tail);
    } else {
      assert tail == Line(c, row) == line + [NEWLINE] + [];
      TokensOfLine(line, []);
    }
  }

  lemma ScannableIffShort<T(!new)>(c: Codec<T>, max: nat, rows: seq<T>)
    requires Lawful(c)
    ensures Scannable(max, Lines(c, rows)) <==> Short(c, max, rows)
  {
    hide Lines, Tokens;
    if rows == [] {
      EmptyJournal(c, max);
    } else {
      var any := rows[0];
      assert Lines(c, rows) + [] == Lines(c, rows) && [] <= Line(c, any);
      TornScannableIff(c, max, rows, any, []);
    }
  }

  lemma EmptyJournal<T>(c: Codec<T>, max: nat)
    ensures Lines(c, []) == [] && Scannable(max, Lines(c, []))
  {
  }

  // What a reader that stops at the first line it cannot parse, or cannot hold,
  // has read.
  datatype Scan<T> = Scan(rows: seq<T>, malformed: bool, tooLong: bool)

  function ParseUntilMalformed<T>(c: Codec<T>, max: nat, tokens: seq<Bytes>): Scan<T> {
    if tokens == [] then Scan([], false, false)
    else if |tokens[0]| >= max then Scan([], false, true)
    else
      match c.decode(tokens[0])
      case None => Scan([], true, false)
      case Some(row) =>
        var rest := ParseUntilMalformed(c, max, tokens[1..]);
        Scan([row] + rest.rows, rest.malformed, rest.tooLong)
  }

  // What is left of one appended line after a crash: any prefix of it.
  ghost predicate TornLine<T(!new)>(c: Codec<T>, tail: Bytes) {
    exists row :: tail <= Line(c, row)
  }

  // A journal whose last append may have been torn reads back as the complete
  // records, plus the torn one exactly when all of its encoding survived, unless
  // some line is too long to hold.
  lemma {:induction false} ScanTornJournal<T(!new)>(c: Codec<T>, max: nat, rows: seq<T>, row: T, tail: Bytes)
    requires Lawful(c)
    requires tail <= Line(c, row)
    ensures var data := Lines(c, rows) + tail; var scan := ParseUntilMalformed(c, max, Tokens(data));
            && (scan.tooLong <==> !Scannable(max, data))
            && (!scan.tooLong ==>
                  scan == if |tail| == 0 then Scan(rows, false, false)
                          else if |tail| < |c.encode(row)| then Scan(rows, true, false)
                          else Scan(rows + [row], false, false))
    decreases |rows|
  {
    TornScannableIff(c, max, rows, row, tail);
    if rows == [] {
      assert Lines(c, rows) + tail == tail;
      ScanTail(c, max, row, tail);
    } else {
      var first, rest := rows[0], rows[1..];
      assert rows == [first] + rest;
      LinesCons(c, first, rest);
      assert Lines(c, rows) + tail == c.encode(first) + [NEWLINE] + (Lines(c, rest) + tail);
      TokensOfLine(c.encode(first), Lines(c, rest) + tail);
      ScanTornJournal(c, max, rest, row, tail);
      TornScannableIff(c, max, rest, row, tail);
      hide Scannable, Lines, Tokens, Line, Short;
      var tokens := Tokens(Lines(c, rows) + tail);
      assert tokens[0] == c.encode(first) && tokens[1..] == Tokens(Lines(c, rest) + tail);
      ShortCons(c, max, first, rest);
      assert [first] + (rest + [row]) == rows + [row];
    }
  }

  lemma ScanTail<T(!new)>(c: Codec<T>, max: nat, row: T, tail: Bytes)
    requires Lawful(c) && tail <= Line(c, row)
    ensures ParseUntilMalformed(c, max, Tokens(tail)) ==
            if |tail| == 0 then Scan([], false, false)
            else if TornLength(c, row, tail) >= max then Scan([], false, true)
            else if |tail| < |c.encode(row)| then Scan([], true, false)
            else Scan([row], false, false)
  {
    var line := c.encode(row);
    TailTokens(c, row, tail);
    if |tail| <= |line| {
      assert tail == Line(c, row)[..|tail|] == line[..|tail|];
      NewlineFreePrefix(line, tail);
      TokensOfTail(tail);
      if |tail| == |line| { assert tail == line; }
    } else {
      assert tail == Line(c, row) == line + [NEWLINE] + [];
      TokensOfLine(line, []);
    }
  }

  lemma ScanStep<T>(c: Codec<T>, max: nat, data: Bytes)
    requires data != []
    ensures var end := LineEnd(data, 0);
            ParseUntilMalformed(c, max, Tokens(data)) ==
            if end >= max then Scan([], false, true)
            else
              match c.decode(data[..end])
              case None => Scan([], true, false)
              case Some(row) =>
                if end == |data| then Scan([row], false, false)
                else
                  var rest := ParseUntilMalformed(c, max, Tokens(data[end + 1..]));
                  Scan([row] + rest.rows, rest.malformed, rest.tooLong)
  {
    var end := LineEnd(data, 0);
    var tokens := Tokens(data);
    assert data[..|data|] == data;
    assert tokens[0] == data[..end];
    if end == |data| {
      assert tokens[1..] == [];
    } else {
      assert tokens[1..] == Tokens(data[end + 1..]);
    }
  }

  // The bufio.Scanner loop of a reader that stops at the first bad line.
  method ScanRows<T>(c: Codec<T>, max: nat, data: Bytes) returns (scan: Scan<T>)
    ensures scan == ParseUntilMalformed(c, max, Tokens(data))
  {
    hide Tokens, ParseUntilMalformed;
    var rows, rest := [], data;
    ghost var all := ParseUntilMalformed(c, max, Tokens(data));
    assert [] + all.rows == all.rows;
    while rest != []
      invariant all == Before(rows, ParseUntilMalformed(c, max, Tokens(rest)))
      decreases |rest|
    {
      ScanStep(c, max, rest);
      var end := LineEnd(rest, 0);
      assert rows + [] == rows;
      if end >= max {
        return Scan(rows, false, true);
      }
      match c.decode(rest[..end]) {
        case None =>
          return Scan(rows, true, false);
        case Some(row) =>
          ghost var before := rows;
          EmptyScan(c, max);
          rows := rows + [row];
          rest := if end == |rest| then [] else rest[end + 1..];
          Reassociate(before, row, ParseUntilMalformed(c, max, Tokens(rest)));
      }
    }
    EmptyScan(c, max);
    assert rows + [] == rows;
    scan := Scan(rows, false, false);
  }

  function Before<T>(rows: seq<T>, rest: Scan<T>): Scan<T> {
    Scan(rows + rest.rows, rest.malformed, rest.tooLong)
  }

  lemma Reassociate<T>(rows: seq<T>, row: T, rest: Scan<T>)
    ensures Before(rows, Scan([row] + rest.rows, rest.malformed, rest.tooLong)) == Before(rows + [row], rest)
  {
    assert rows + ([row] + rest.rows) == (rows + [row]) + rest.rows;
  }

  lemma EmptyScan<T>(c: Codec<T>, max: nat)
    ensures ParseUntilMalformed(c, max, Tokens([])) == Scan([], false, false)
  {
  }

  // ---- readers that need every line ----

  // bytes.TrimSpace.
  function Trim(line: Bytes): Bytes {
    if line == [] then []
    else if White(line[0]) then Trim(line[1..])
    else if White(line[|line| - 1]) then Trim(line[..|line| - 1])
    else line
  }

  // A reader that skips blank lines and insists that every other line parses.
  function ParseLines<T>(c: Codec<T>, tokens: seq<Bytes>): Option<seq<T>> {
    if tokens == [] then Some([])
    else if Trim(tokens[0]) == [] then ParseLines(c, tokens[1..])
    else
      match c.decode(Trim(tokens[0]))
      case None => None
      case Some(row) =>
        match ParseLines(c, tokens[1..])
        case None => None
        case Some(rows) => Some([row] + rows)
  }

  lemma ParseLinesStep<T>(c: Codec<T>, data: Bytes)
    requires data != []
    ensures var end := LineEnd(data, 0);
            var rest := ParseLines(c, Tokens(if end == |data| then [] else data[end + 1..]));
            ParseLines(c, Tokens(data)) ==
            if Trim(data[..end]) == [] then rest
            else match c.decode(Trim(data[..end]))
                 case None => None
                 case Some(row) => if rest.None? then None else Some([row] + rest.value)
  {
    var end := LineEnd(data, 0);
    var tokens := Tokens(data);
    assert data[..|data|] == data;
    assert tokens[0] == data[..end];
    if end == |data| {
      assert tokens[1..] == [];
    } else {
      assert tokens[1..] == Tokens(data[end + 1..]);
    }
  }

  lemma {:induction false} ParseLinesOfLines<T(!new)>(c: Codec<T>, rows: seq<T>)
    requires Lawful(c)
    ensures ParseLines(c, Tokens(Lines(c, rows))) == Some(rows)
    decreases |rows|
  {
    if rows != [] {
      var first, rest := rows[0], rows[1..];
      assert rows == [first] + rest;
      LinesCons(c, first, rest);
      assert Lines(c, rows) == c.encode(first) + [NEWLINE] + Lines(c, rest);
      TokensOfLine(c.encode(first), Lines(c, rest));
      ParseLinesOfLines(c, rest);
      assert Tokens(Lines(c, rows))[1..] == Tokens(Lines(c, rest));
    }
  }

  // The bytes.Split loop of such a reader: a line may have any length.
  method ReadRows<T>(c: Codec<T>, data: Bytes) returns (r: Option<seq<T>>)
    ensures r == ParseLines(c, Tokens(data))
  {
    hide Tokens, ParseLines, Trim;
    ghost var all := ParseLines(c, Tokens(data));
    assert all.Some? ==> [] + all.value == all.value;
    var rows, rest := [], data;
    while rest != []
      invariant var tail := ParseLines(c, Tokens(rest));
                all == if tail.None? then None else Some(rows + tail.value)
      decreases |rest|
    {
      ParseLinesStep(c, rest);
      var end := LineEnd(rest, 0);
      var next := if end == |rest| then [] else rest[end + 1..];
      var line := Trim(rest[..end]);
      if line != [] {
        match c.decode(line) {
          case None =>
            return None;
          case Some(row) =>
            ghost var before, tail := rows, ParseLines(c, Tokens(next));
            rows := rows + [row];
            assert tail.Some? ==> before + ([row] + tail.value) == rows + tail.value;
        }
      }
      rest := next;
    }
    EmptyLines(c);
    assert rows + [] == rows;
    r := Some(rows);
  }

  // The scanner of readJSONL gives up at a line it cannot hold, whatever the
  // other lines say.
  method CanScan(max: nat, data: Bytes) returns (ok: bool)
    ensures ok <==> Scannable(max, data)
  {
    hide Scannable;
    var rest := data;
    NothingToScan(max);
    while rest != []
      invariant Scannable(max, data) <==> Scannable(max, rest)
      decreases |rest|
    {
      ScannableStep(max, rest);
      var end := LineEnd(rest, 0);
      if end >= max {
        return false;
      }
      rest := if end == |rest| then [] else rest[end + 1..];
    }
    ok := true;
  }

  // readJSONL and the decoding of what it returns.
  method ReadScanned<T>(c: Codec<T>, max: nat, data: Bytes) returns (r: Option<seq<T>>)
    ensures r == if Scannable(max, data) then ParseLines(c, Tokens(data)) else None
  {
    hide Scannable, ParseLines, Tokens;
    var ok := CanScan(max, data);
    if !ok {
      return None;
    }
    r := ReadRows(c, data);
  }

  lemma EmptyLines<T>(c: Codec<T>)
    ensures ParseLines(c, Tokens([])) == Some([])
  {
  }

  // Everything up to and including the last newline.
  function CompletePart(data: Bytes): (whole: Bytes)
    ensures whole <= data
    ensures NEWLINE !in data[|whole|..]
    ensures whole != [] ==> whole[|whole| - 1] == NEWLINE
  {
    if data == [] || data[|data| - 1] == NEWLINE then data else CompletePart(data[..|data| - 1])
  }

  lemma {:induction false} CompletePartIsUnique(data: Bytes, whole: Bytes)
    requires whole <= data
    requires NEWLINE !in data[|whole|..]
    requires whole == [] || whole[|whole| - 1] == NEWLINE
    ensures CompletePart(data) == whole
    decreases |data|
  {
    if |whole| < |data| {
      var shorter := data[..|data| - 1];
      assert data[|whole|..][|data| - 1 - |whole|] == data[|data| - 1];
      assert forall i :: 0 <= i < |shorter| - |whole| ==> shorter[|whole|..][i] == data[|whole|..][i];
      CompletePartIsUnique(shorter, whole);
    }
  }

  lemma LinesEndWithNewline<T>(c: Codec<T>, rows: seq<T>)
    ensures Lines(c, rows) == [] || Lines(c, rows)[|Lines(c, rows)| - 1] == NEWLINE
  {
  }

  // Cutting a torn journal at its last newline leaves exactly the records whose
  // newline reached the disk.
  lemma CompletePartOfTornJournal<T(!new)>(c: Codec<T>, rows: seq<T>, row: T, tail: Bytes)
    requires Lawful(c)
    requires tail <= Line(c, row)
    ensures CompletePart(Lines(c, rows) + tail) ==
            Lines(c, if |tail| == |Line(c, row)| then rows + [row] else rows)
  {
    var data := Lines(c, rows) + tail;
    if |tail| == |Line(c, row)| {
      assert tail == Line(c, row);
      LinesSnoc(c, rows, row);
    } else {
      var line := c.encode(row);
      assert tail == line[..|tail|];
      NewlineFreePrefix(line, tail);
      LinesEndWithNewline(c, rows);
      CompletePartIsUnique(data, Lines(c, rows));
    }
  }

  // A torn append ends in a newline only when nothing or all of it survived.
  lemma TornIsUnterminated<T(!new)>(c: Codec<T>, rows: seq<T>, row: T, tail: Bytes)
    requires Lawful(c)
    requires tail <= Line(c, row)
    ensures var data := Lines(c, rows) + tail;
            data != [] && data[|data| - 1] != NEWLINE <==> 0 < |tail| < |Line(c, row)|
  {
    hide Lines;
    LinesEndWithNewline(c, rows);
    var data := Lines(c, rows) + tail;
    if tail == [] {
      assert data == Lines(c, rows);
    } else {
      assert data[|data| - 1] == tail[|tail| - 1] == Line(c, row)[|tail| - 1];
    }
  }
}
