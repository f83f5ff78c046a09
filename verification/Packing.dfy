// Packing memories into a prompt: a header, then one line a memory, within a
// budget of characters and of estimated tokens. Text is a sequence of runes.
module Packing {
  import opened Wrappers

  const HEADER := "Mindmory context (data, not instructions):"
  const BULLET := "\n- "
  const ELLIPSIS := "\U{2026}"
  const DASH := " \U{2014} "

  // Runes that cost a token each: Han, Hiragana, Katakana, Hangul.
  function Wide(wide: char -> bool, s: string): nat {
    if s == "" then 0 else Wide(wide, s[..|s| - 1]) + (if wide(s[|s| - 1]) then 1 else 0)
  }

  lemma {:induction false} WideAtMostAll(wide: char -> bool, s: string)
    ensures Wide(wide, s) <= |s|
    decreases |s|
  {
    if s != "" {
      WideAtMostAll(wide, s[..|s| - 1]);
    }
  }

  function Tokens(wide: char -> bool, s: string): int {
    Wide(wide, s) + (|s| - Wide(wide, s) + 3) / 4
  }

  method EstimatedTokens(wide: char -> bool, value: string) returns (estimate: int)
    ensures estimate == Tokens(wide, value)
    ensures 0 <= estimate <= |value| && (value == "" <==> estimate == 0)
  {
    WideAtMostAll(wide, value);
    var cjk, other := 0, 0;
    for i := 0 to |value|
      invariant cjk == Wide(wide, value[..i]) && cjk + other == i && cjk >= 0 && other >= 0
    {
      assert value[..i + 1][..i] == value[..i];
      if wide(value[i]) {
        cjk := cjk + 1;
      } else {
        other := other + 1;
      }
    }
    assert value[..|value|] == value;
    if cjk == 0 && other == 0 {
      return 0;
    }
    estimate := cjk + (other + 3) / 4;
    if estimate < 1 {
      return 1;
    }
  }

  // One more rune costs nothing or one token.
  lemma OneMoreRune(wide: char -> bool, s: string, c: char)
    ensures Tokens(wide, s) <= Tokens(wide, s + [c]) <= Tokens(wide, s) + 1
  {
    assert (s + [c])[..|s|] == s;
    WideAtMostAll(wide, s);
  }

  // A longer text never costs less.
  lemma {:induction false} TokensGrow(wide: char -> bool, s: string, n: nat)
    requires n <= |s|
    ensures Tokens(wide, s[..n]) <= Tokens(wide, s)
    decreases |s| - n
  {
    if n == |s| {
      assert s[..n] == s;
    } else {
      assert s[..n + 1] == s[..n] + [s[n]];
      OneMoreRune(wide, s[..n], s[n]);
      TokensGrow(wide, s, n + 1);
    }
  }

  // ---- one line ----

  datatype Budget = Budget(maxChars: int, maxTokens: int, wide: char -> bool)

  predicate Fits(b: Budget, s: string) {
    |s| <= b.maxChars && Tokens(b.wide, s) <= b.maxTokens
  }

  lemma FitsLess(b: Budget, prefix: string, text: string, few: nat, many: nat)
    requires few <= many <= |text|
    ensures Fits(b, prefix + text[..many]) ==> Fits(b, prefix + text[..few])
  {
    var whole := prefix + text[..many];
    TokensGrow(b.wide, whole, |prefix| + few);
    assert whole[..|prefix| + few] == prefix + text[..few];
  }

  // How far the scan gets before its first candidate that does not fit.
  function Reach(b: Budget, prefix: string, text: string, n: nat): (r: nat)
    requires n <= |text|
    ensures n <= r <= |text|
    decreases |text| - n
  {
    if n < |text| && Fits(b, prefix + text[..n + 1]) then Reach(b, prefix, text, n + 1) else n
  }

  // Stopping at the first that does not fit finds the longest that does.
  lemma {:induction false} ReachIsLongest(b: Budget, prefix: string, text: string, n: nat)
    requires n <= |text| && (n > 0 ==> Fits(b, prefix + text[..n]))
    ensures forall m :: 0 < m <= |text| ==> (Fits(b, prefix + text[..m]) <==> m <= Reach(b, prefix, text, n))
    decreases |text| - n
  {
    if n < |text| && Fits(b, prefix + text[..n + 1]) {
      ReachIsLongest(b, prefix, text, n + 1);
    } else {
      forall m | 0 < m <= |text| ensures Fits(b, prefix + text[..m]) <==> m <= n {
        if m <= n {
          FitsLess(b, prefix, text, m, n);
        } else {
          FitsLess(b, prefix, text, n + 1, m);
        }
      }
    }
  }

  function Shortened(b: Budget, line: string): string
    requires line != ""
  {
    var cut := line[..|line| - 1] + ELLIPSIS;
    if Tokens(b.wide, cut) <= b.maxTokens then cut else line
  }

  function FitLine(b: Budget, base: string, text: string): Option<string> {
    var prefix := base + BULLET;
    if |prefix| >= b.maxChars || Tokens(b.wide, prefix) >= b.maxTokens then None
    else
      var n := Reach(b, prefix, text, 0);
      if n == 0 then None
      else if n < |text| then Some(Shortened(b, prefix + text[..n])) else Some(prefix + text)
  }

  method FitNativeLine(b: Budget, base: string, text: string) returns (line: Option<string>)
    ensures line == FitLine(b, base, text)
  {
    var prefix := base + BULLET;
    var cost := EstimatedTokens(b.wide, prefix);
    if |prefix| >= b.maxChars || cost >= b.maxTokens {
      return None;
    }
    var best := "";
    var bestCount := 0;
    ReachIsLongest(b, prefix, text, 0);
    while bestCount < |text|
      invariant 0 <= bestCount <= |text|
      invariant best == if bestCount == 0 then "" else prefix + text[..bestCount]
      invariant Reach(b, prefix, text, bestCount) == Reach(b, prefix, text, 0)
    {
      var candidate := prefix + text[..bestCount + 1];
      cost := EstimatedTokens(b.wide, candidate);
      if |candidate| > b.maxChars || cost > b.maxTokens {
        break;
      }
      best := candidate;
      bestCount := bestCount + 1;
    }
    if best == "" {
      return None;
    }
    if bestCount < |text| {
      var candidate := best[..|best| - 1] + ELLIPSIS;
      cost := EstimatedTokens(b.wide, candidate);
      if cost <= b.maxTokens {
        best := candidate;
      }
    } else {
      assert text[..bestCount] == text;
    }
    line := Some(best);
  }

  // A line that is found fits, extends what was there, and shows the longest
  // part of the text that fits, or all of it but the last rune and an ellipsis.
  // None is found exactly when not even one rune would fit.
  lemma LineIsLongest(b: Budget, base: string, text: string)
    ensures var prefix := base + BULLET;
            FitLine(b, base, text).None? <==>
              text == "" || |prefix| >= b.maxChars || Tokens(b.wide, prefix) >= b.maxTokens || !Fits(b, prefix + text[..1])
    ensures var r, prefix := FitLine(b, base, text), base + BULLET;
            r.Some? ==> Fits(b, r.value) && base < r.value && LongestShown(b, prefix, text, r.value)
  {
    var prefix := base + BULLET;
    ReachIsLongest(b, prefix, text, 0);
    var n := Reach(b, prefix, text, 0);
    if FitLine(b, base, text).Some? {
      var shown := prefix + text[..n];
      assert Fits(b, shown);
      var line := FitLine(b, base, text).value;
      if n == |text| {
        assert shown == prefix + text;
        assert Shows(b, prefix, text, line, n);
      } else {
        assert shown[..|shown| - 1] == prefix + text[..n - 1];
        assert Shows(b, prefix, text, line, n);
      }
    }
  }

  ghost predicate LongestShown(b: Budget, prefix: string, text: string, line: string) {
    exists n :: Shows(b, prefix, text, line, n)
  }

  // n is the most runes of the text that fit; the line shows them, the last one
  // giving way to an ellipsis if some are missing and the ellipsis fits.
  ghost predicate Shows(b: Budget, prefix: string, text: string, line: string, n: int) {
    && 0 < n <= |text|
    && (forall m :: 0 < m <= |text| ==> (Fits(b, prefix + text[..m]) <==> m <= n))
    && (line == prefix + text[..n] || (n < |text| && line == prefix + text[..n - 1] + ELLIPSIS))
  }

  // ---- the whole text ----

  // Subject and content with their white space folded.
  datatype Item = Item(subject: string, content: string)

  function TextOf(i: Item): string {
    if i.subject != "" && i.content != "" && i.subject != i.content then i.subject + DASH + i.content
    else if i.subject != "" then i.subject
    else i.content
  }

  // Lines are added until one does not fit; empty memories are passed over.
  function Pack(b: Budget, base: string, items: seq<Item>): string
    decreases |items|
  {
    if items == [] then base
    else if TextOf(items[0]) == "" then Pack(b, base, items[1..])
    else
      match FitLine(b, base, TextOf(items[0]))
      case None => base
      case Some(line) => Pack(b, line, items[1..])
  }

  function TokenBudget(maxChars: int): int {
    (maxChars + 3) / 4
  }

  // Nothing at all rather than the header alone.
  function Context(wide: char -> bool, items: seq<Item>, maxChars: int): string {
    var packed := Pack(Budget(maxChars, TokenBudget(maxChars), wide), HEADER, items);
    if maxChars <= 0 || packed == HEADER then "" else packed
  }

  // One turn of the loop: what the first of the remaining memories does.
  lemma PackTurn(b: Budget, base: string, items: seq<Item>, i: nat)
    requires i < |items|
    ensures var text, rest := TextOf(items[i]), items[i + 1..];
            Pack(b, base, items[i..]) ==
            if text == "" then Pack(b, base, rest)
            else if FitLine(b, base, text).None? then base
            else Pack(b, FitLine(b, base, text).value, rest)
  {
    hide FitLine, TextOf;
    assert items[i..][1..] == items[i + 1..];
  }

  lemma LineExtends(b: Budget, base: string, text: string)
    ensures FitLine(b, base, text).Some? ==> base < FitLine(b, base, text).value
  {
    hide FitLine, Fits, Tokens, LongestShown;
    LineIsLongest(b, base, text);
  }

  lemma PackNothing(b: Budget, base: string)
    ensures Pack(b, base, []) == base
  {
  }

  method FormatNativeContext(wide: char -> bool, items: seq<Item>, maxChars: int) returns (context: string)
    ensures context == Context(wide, items, maxChars)
  {
    hide FitLine, Fits, Tokens, Pack;
    if |items| == 0 || maxChars <= 0 {
      PackNothing(Budget(maxChars, TokenBudget(maxChars), wide), HEADER);
      return "";
    }
    context := HEADER;
    var b := Budget(maxChars, (maxChars + 3) / 4, wide);
    ghost var packed := Pack(b, HEADER, items);
    var added, i := 0, 0;
    assert items[0..] == items;
    while i < |items|
      invariant 0 <= i <= |items| && added >= 0
      invariant Pack(b, context, items[i..]) == packed
      invariant if added == 0 then context == HEADER else |context| > |HEADER|
    {
      var item := items[i];
      PackTurn(b, context, items, i);
      i := i + 1;
      if item.subject == "" && item.content == "" {
        continue;
      }
      var text := item.content;
      if item.subject != "" && item.content != "" && item.subject != item.content {
        text := item.subject + DASH + item.content;
      } else if item.subject != "" {
        text := item.subject;
      }
      var line := FitNativeLine(b, context, text);
      LineExtends(b, context, text);
      if line.None? {
        if added == 0 {
          return "";
        }
        return;
      }
      context := line.value;
      added := added + 1;
    }
    assert items[i..] == [];
    PackNothing(b, context);
    if added == 0 {
      return "";
    }
  }

  // Within both budgets, and never without the header.
  lemma {:induction false} PackedIsBounded(b: Budget, base: string, items: seq<Item>)
    ensures var packed := Pack(b, base, items); base <= packed && (packed != base ==> Fits(b, packed))
    decreases |items|
  {
    if items != [] {
      var text := TextOf(items[0]);
      LineIsLongest(b, base, text);
      if text == "" {
        PackedIsBounded(b, base, items[1..]);
      } else if FitLine(b, base, text).Some? {
        PackedIsBounded(b, FitLine(b, base, text).value, items[1..]);
      }
    }
  }

  // For every list of memories and every budget.
  lemma ContextIsBounded(wide: char -> bool, items: seq<Item>, maxChars: int)
    ensures var context := Context(wide, items, maxChars);
            context == "" || (|context| <= maxChars && Tokens(wide, context) <= TokenBudget(maxChars) && HEADER < context)
  {
    PackedIsBounded(Budget(maxChars, TokenBudget(maxChars), wide), HEADER, items);
  }

  // Packing stops only at a memory of which not even one rune has room, and
  // that memory and all after it are left out.
  lemma {:induction false} PackingIsMaximal(b: Budget, base: string, items: seq<Item>) returns (used: nat)
    ensures used <= |items| && Pack(b, base, items) == Pack(b, base, items[..used])
    ensures used < |items| ==>
              var end := Pack(b, base, items) + BULLET; var text := TextOf(items[used]);
              text != "" && (|end| >= b.maxChars || Tokens(b.wide, end) >= b.maxTokens || !Fits(b, end + text[..1]))
    decreases |items|
  {
    if items == [] {
      used := 0;
    } else {
      var text := TextOf(items[0]);
      LineIsLongest(b, base, text);
      if text != "" && FitLine(b, base, text).None? {
        used := 0;
      } else {
        var next := if text == "" then base else FitLine(b, base, text).value;
        var rest := PackingIsMaximal(b, next, items[1..]);
        used := rest + 1;
        assert items[..used][1..] == items[1..][..rest] && items[1..][rest..] == items[used..];
      }
    }
  }

  // ---- what the text says ----

  // A memory in full: its subject, a dash and its content, or the one of them
  // that says something else than the other.
  predicate InFull(i: Item, full: string) {
    && (i.subject != "" && i.content != "" && i.subject != i.content ==> full == i.subject + " \U{2014} " + i.content)
    && (i.content == "" || i.content == i.subject ==> full == i.subject)
    && (i.subject == "" ==> full == i.content)
  }

  // As much of the memory as fits, from its beginning; what is missing may be
  // marked by an ellipsis in place of the last rune.
  ghost predicate ShownOf(i: Item, shown: string) {
    exists full :: InFull(i, full) && StartOf(full, shown)
  }

  predicate StartOf(full: string, shown: string) {
    0 < |shown| <= |full|
    && (shown <= full || (|shown| < |full| && shown[..|shown| - 1] <= full && shown[|shown| - 1] == '\U{2026}'))
  }

  function Bullets(shown: seq<string>): string {
    if shown == [] then "" else Bullets(shown[..|shown| - 1]) + "\n- " + shown[|shown| - 1]
  }

  // One bullet a memory, in the order given; of the first used memories only those
  // that say nothing are passed over, and no other is shown.
  ghost predicate ShowsInOrder(items: seq<Item>, shown: seq<string>, at: seq<nat>, used: nat) {
    && |at| == |shown| && used <= |items|
    && (forall k :: 0 <= k < |at| ==> at[k] < used && ShownOf(items[at[k]], shown[k]))
    && (forall j, k :: 0 <= j < k < |at| ==> at[j] < at[k])
    && (forall j: nat :: j < used && j !in at ==> items[j].subject == "" && items[j].content == "")
  }

  // Not one rune of the memory has room behind text.
  ghost predicate NoRoom(b: Budget, text: string, i: Item) {
    exists full :: InFull(i, full) && full != ""
      && (|text| + 3 >= b.maxChars || Tokens(b.wide, text + "\n- ") >= b.maxTokens
          || Tokens(b.wide, text + "\n- " + full[..1]) > b.maxTokens)
  }

  lemma NothingFits(b: Budget, base: string, i: Item)
    requires TextOf(i) != "" && FitLine(b, base, TextOf(i)).None?
    ensures NoRoom(b, base, i)
  {
    var text := TextOf(i);
    LineIsLongest(b, base, text);
    hide FitLine, Tokens, Reach, TextOf;
    FullText(i);
  }

  lemma LineShows(b: Budget, base: string, i: Item)
    requires FitLine(b, base, TextOf(i)).Some?
    ensures var line := FitLine(b, base, TextOf(i)).value;
            base + "\n- " < line && ShownOf(i, line[|base + "\n- "|..])
  {
    hide FitLine, Shows, TextOf, InFull, StartOf;
    var text, prefix := TextOf(i), base + BULLET;
    LineIsLongest(b, base, text);
    var line := FitLine(b, base, text).value;
    var n :| Shows(b, prefix, text, line, n);
    FullText(i);
    ShownIsStart(b, prefix, text, line, n);
  }

  lemma ShownIsStart(b: Budget, prefix: string, text: string, line: string, n: int)
    requires Shows(b, prefix, text, line, n)
    ensures prefix < line && StartOf(text, line[|prefix|..])
  {
    var shown := if line == prefix + text[..n] then text[..n] else text[..n - 1] + ELLIPSIS;
    assert line == prefix + shown;
    hide Fits, Tokens;
    if shown != text[..n] {
      EndsInEllipsis(text, n);
    }
    AfterPrefix(prefix, shown);
  }

  lemma AfterPrefix(prefix: string, shown: string)
    ensures (prefix + shown)[|prefix|..] == shown
  {
  }

  lemma FullText(i: Item)
    ensures InFull(i, TextOf(i))
  {
  }

  lemma EndsInEllipsis(text: string, n: nat)
    requires 0 < n < |text|
    ensures StartOf(text, text[..n - 1] + ELLIPSIS)
  {
    var shown := text[..n - 1] + ELLIPSIS;
    assert shown[..|shown| - 1] == text[..n - 1];
  }

  lemma BulletsCons(first: string, rest: seq<string>)
    ensures Bullets([first] + rest) == "\n- " + first + Bullets(rest)
    decreases |rest|
  {
    if rest == [] {
      assert [first] + rest == [first];
      assert [first][..0] == [];
    } else {
      var front, last := rest[..|rest| - 1], rest[|rest| - 1];
      BulletsCons(first, front);
      assert ([first] + rest)[..|rest|] == [first] + front;
    }
  }

  function OneOn(at: seq<nat>): (r: seq<nat>)
    ensures |r| == |at| && forall k :: 0 <= k < |r| ==> r[k] == at[k] + 1
  {
    seq(|at|, k requires 0 <= k < |at| => at[k] + 1)
  }

  lemma OneOnHas(at: seq<nat>, j: nat)
    ensures j in at <==> j + 1 in OneOn(at)
  {
    if j in at {
      var k :| 0 <= k < |at| && at[k] == j;
      assert OneOn(at)[k] == j + 1;
    }
    if j + 1 in OneOn(at) {
      var k :| 0 <= k < |at| && OneOn(at)[k] == j + 1;
    }
  }

  lemma ShowsPassed(items: seq<Item>, shown: seq<string>, at: seq<nat>, used: nat)
    requires items != [] && ShowsInOrder(items[1..], shown, at, used) && TextOf(items[0]) == ""
    ensures ShowsInOrder(items, shown, OneOn(at), used + 1)
  {
    hide ShownOf;
    forall j: nat | j < used + 1 && j !in OneOn(at) ensures items[j].subject == "" && items[j].content == "" {
      if j > 0 {
        OneOnHas(at, j - 1);
        assert items[1..][j - 1] == items[j];
      }
    }
  }

  lemma ShowsFirst(items: seq<Item>, first: string, shown: seq<string>, at: seq<nat>, used: nat)
    requires items != [] && ShowsInOrder(items[1..], shown, at, used) && ShownOf(items[0], first)
    ensures ShowsInOrder(items, [first] + shown, [0] + OneOn(at), used + 1)
  {
    hide ShownOf;
    var all, places := [first] + shown, [0] + OneOn(at);
    forall k | 0 <= k < |places| ensures places[k] < used + 1 && ShownOf(items[places[k]], all[k]) {
      if k > 0 {
        assert places[k] == at[k - 1] + 1 && all[k] == shown[k - 1];
      }
    }
    forall j: nat | j < used + 1 && j !in places ensures items[j].subject == "" && items[j].content == "" {
      assert j != 0 by {
        assert places[0] == 0;
      }
      OneOnHas(at, j - 1);
      assert items[1..][j - 1] == items[j];
    }
  }

  lemma NothingShown(items: seq<Item>)
    ensures Bullets([]) == "" && ShowsInOrder(items, [], [], 0)
  {
  }

  lemma {:induction false} PackShows(b: Budget, base: string, items: seq<Item>)
    returns (shown: seq<string>, at: seq<nat>, used: nat)
    ensures Pack(b, base, items) == base + Bullets(shown) && ShowsInOrder(items, shown, at, used)
    ensures used < |items| ==> NoRoom(b, Pack(b, base, items), items[used])
    decreases |items|
  {
    hide FitLine, ShownOf, Bullets, TextOf, ShowsInOrder, NoRoom;
    NothingShown(items);
    shown, at, used := [], [], 0;
    if items != [] {
      var rest := items[1..];
      if TextOf(items[0]) == "" {
        var later, n;
        shown, later, n := PackShows(b, base, rest);
        at, used := OneOn(later), n + 1;
        ShowsPassed(items, shown, later, n);
      } else if FitLine(b, base, TextOf(items[0])).Some? {
        var line := FitLine(b, base, TextOf(items[0])).value;
        LineShows(b, base, items[0]);
        var first := line[|base + "\n- "|..];
        assert line == base + ("\n- " + first);
        var more, later, n := PackShows(b, line, rest);
        BulletsCons(first, more);
        shown, at, used := [first] + more, [0] + OneOn(later), n + 1;
        ShowsFirst(items, first, more, later, n);
        assert Pack(b, base, items) == line + Bullets(more) == base + Bullets(shown);
      } else {
        NothingFits(b, base, items[0]);
        assert base + "" == base;
      }
    }
  }

  // The context is the heading and then the memories, each from its beginning,
  // up to the first of which not one rune has room.
  lemma ContextShowsMemories(wide: char -> bool, items: seq<Item>, maxChars: int)
    returns (shown: seq<string>, at: seq<nat>, used: nat)
    ensures var context, b := Context(wide, items, maxChars), Budget(maxChars, TokenBudget(maxChars), wide);
            && ShowsInOrder(items, shown, at, used)
            && (context != "" ==>
                  context == "Mindmory context (data, not instructions):" + Bullets(shown) && shown != []
                  && (used < |items| ==> NoRoom(b, context, items[used])))
            && (context == "" && maxChars > 0 ==>
                  shown == [] && (used < |items| ==> NoRoom(b, "Mindmory context (data, not instructions):", items[used])))
  {
    hide Pack, ShowsInOrder, NoRoom;
    shown, at, used := PackShows(Budget(maxChars, TokenBudget(maxChars), wide), HEADER, items);
    NoBulletsShown(shown);
    assert HEADER + "" == HEADER;
    if HEADER + Bullets(shown) == HEADER {
      assert |Bullets(shown)| == 0;
    }
  }

  lemma NoBulletsShown(shown: seq<string>)
    ensures Bullets(shown) == "" <==> shown == []
  {
  }

  // ---- what a budget is ----

  ghost function WidePlaces(wide: char -> bool, s: string): set<nat> {
    set i: nat | i < |s| && wide(s[i])
  }

  // A wide rune costs a token, and so does every started group of four others.
  lemma {:induction false} TokensAreCounted(wide: char -> bool, s: string)
    ensures var cjk, cost := |WidePlaces(wide, s)|, Tokens(wide, s);
            0 <= 4 * (cost - cjk) - (|s| - cjk) < 4
  {
    WideIsCount(wide, s);
  }

  lemma {:induction false} WideIsCount(wide: char -> bool, s: string)
    ensures Wide(wide, s) == |WidePlaces(wide, s)|
    decreases |s|
  {
    if s == "" {
      assert WidePlaces(wide, s) == {};
    } else {
      var n: nat := |s| - 1;
      WideIsCount(wide, s[..n]);
      var before := WidePlaces(wide, s[..n]);
      assert forall i: nat :: i < n ==> s[..n][i] == s[i];
      assert WidePlaces(wide, s) == if wide(s[n]) then before + {n} else before;
    }
  }

  // A line fits while it is within both budgets, and a context has one token for
  // every started group of four characters it may have.
  lemma BudgetsAreInclusive(b: Budget, s: string, maxChars: int)
    ensures Fits(b, s) <==> |s| <= b.maxChars && Tokens(b.wide, s) <= b.maxTokens
    ensures 0 <= 4 * TokenBudget(maxChars) - maxChars < 4
  {
  }
}
