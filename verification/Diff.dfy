// The continuity diff: cursor pagination, filtered by project, over a log that
// grows between the calls.
module Diff {
  import opened Memory
  import opened Replay
  import opened Lifecycle
  import opened Governance
  import opened GovernanceProof
  import opened GovernanceTheorems

  const DEFAULT_LIMIT := 20
  const MAXIMUM_LIMIT := 100

  // DiffRequest.Validate and EffectiveLimit: zero asks for the default.
  predicate ValidLimit(limit: int) {
    0 <= limit <= MAXIMUM_LIMIT
  }

  function EffectiveLimit(limit: int): (n: int)
    requires ValidLimit(limit)
    ensures 1 <= n <= MAXIMUM_LIMIT
  {
    if limit == 0 then DEFAULT_LIMIT else limit
  }

  // No limit, or one up to a hundred; none means twenty.
  lemma LimitsAre(limit: int)
    ensures ValidLimit(limit) <==> limit == 0 || 1 <= limit <= 100
    ensures ValidLimit(limit) ==> EffectiveLimit(limit) == if limit == 0 then 20 else limit
  {
  }

  // Rows of no project are for everyone; rows of a project for that project.
  predicate Visible(row: ContinuityRow, project: string) {
    row.projectKey == "" || (project != "" && row.projectKey == project)
  }

  ghost predicate Increasing(rows: seq<ContinuityRow>) {
    && (forall i :: 0 <= i < |rows| ==> 0 < rows[i].revision)
    && (forall i, j :: 0 <= i < j < |rows| ==> rows[i].revision < rows[j].revision)
  }

  function Head(rows: seq<ContinuityRow>): int {
    if rows == [] then 0 else rows[|rows| - 1].revision
  }

  // The visible rows with a revision above lo and not above hi, in log order.
  function Between(rows: seq<ContinuityRow>, project: string, lo: int, hi: int): seq<ContinuityRow> {
    if rows == [] then []
    else
      var front, last := Between(rows[..|rows| - 1], project, lo, hi), rows[|rows| - 1];
      if lo < last.revision <= hi && Visible(last, project) then front + [last] else front
  }

  lemma {:induction false} InBetween(rows: seq<ContinuityRow>, project: string, lo: int, hi: int, row: ContinuityRow)
    ensures row in Between(rows, project, lo, hi) <==> row in rows && lo < row.revision <= hi && Visible(row, project)
    decreases |rows|
  {
    if rows != [] {
      var front, last := rows[..|rows| - 1], rows[|rows| - 1];
      InBetween(front, project, lo, hi, row);
      assert rows == front + [last];
    }
  }

  lemma {:induction false} RowsUpToHead(rows: seq<ContinuityRow>, row: ContinuityRow)
    requires Increasing(rows) && row in rows
    ensures 0 < row.revision <= Head(rows)
  {
    var i :| 0 <= i < |rows| && rows[i] == row;
  }

  // Neighbouring ranges join without overlap or gap.
  lemma {:induction false} BetweenSplits(rows: seq<ContinuityRow>, project: string, lo: int, mid: int, hi: int)
    requires Increasing(rows) && lo <= mid <= hi
    ensures Between(rows, project, lo, hi) == Between(rows, project, lo, mid) + Between(rows, project, mid, hi)
    decreases |rows|
  {
    if rows != [] {
      var front, last := rows[..|rows| - 1], rows[|rows| - 1];
      BetweenSplits(front, project, lo, mid, hi);
      if last.revision <= mid {
        NothingAbove(front, project, mid, hi);
      }
    }
  }

  lemma {:induction false} NothingAbove(rows: seq<ContinuityRow>, project: string, lo: int, hi: int)
    requires forall i :: 0 <= i < |rows| ==> rows[i].revision <= lo || hi < rows[i].revision
    ensures Between(rows, project, lo, hi) == []
    decreases |rows|
  {
    if rows != [] {
      NothingAbove(rows[..|rows| - 1], project, lo, hi);
    }
  }

  // Rows appended later do not reach back into a range already passed.
  lemma {:induction false} LaterRowsAreAbove(before: seq<ContinuityRow>, rows: seq<ContinuityRow>, project: string, lo: int, hi: int)
    requires Increasing(rows) && before <= rows && hi <= Head(before)
    ensures Between(rows, project, lo, hi) == Between(before, project, lo, hi)
    decreases |rows|
  {
    if before == [] {
      NothingAbove(rows, project, lo, hi);
    } else if |before| < |rows| {
      var front := rows[..|rows| - 1];
      assert before <= front && rows[|before| - 1] == before[|before| - 1];
      LaterRowsAreAbove(before, front, project, lo, hi);
    } else {
      assert before == rows;
    }
  }

  lemma {:induction false} PrefixBetween(rows: seq<ContinuityRow>, n: nat, project: string, lo: int, hi: int)
    requires n <= |rows|
    ensures Between(rows[..n], project, lo, hi) <= Between(rows, project, lo, hi)
    decreases |rows|
  {
    if n < |rows| {
      assert rows[..|rows| - 1][..n] == rows[..n];
      PrefixBetween(rows[..|rows| - 1], n, project, lo, hi);
    } else {
      assert rows[..n] == rows;
    }
  }

  // ---- one forward page ----

  function Page(rows: seq<ContinuityRow>, project: string, after: int, limit: nat): seq<ContinuityRow> {
    var all := Between(rows, project, after, Head(rows));
    if |all| <= limit then all else all[..limit]
  }

  function NextCursor(page: seq<ContinuityRow>, after: int): int {
    if page == [] then after else page[|page| - 1].revision
  }

  // Scan for rows above the cursor, stop when the page is full.
  method Forward(rows: seq<ContinuityRow>, project: string, after: int, limit: nat) returns (out: seq<ContinuityRow>, highest: int)
    requires Increasing(rows) && limit > 0
    ensures out == Page(rows, project, after, limit) && highest == NextCursor(out, after)
  {
    out, highest := [], after;
    ghost var head := Head(rows);
    var i := 0;
    while i < |rows|
      invariant i <= |rows| && |out| < limit
      invariant out == Between(rows[..i], project, after, head) && highest == NextCursor(out, after)
      invariant i < |rows| ==> highest < rows[i].revision || highest == after
    {
      var row := rows[i];
      assert rows[..i + 1][..i] == rows[..i] && row.revision <= head;
      PrefixBetween(rows, i + 1, project, after, head);
      ghost var k := i;
      i := i + 1;
      if row.revision <= after || !Visible(row, project) {
        continue;
      }
      out := out + [row];
      if row.revision > highest {
        highest := row.revision;
      }
      assert out == Between(rows[..k + 1], project, after, head);
      if |out| >= limit {
        break;
      }
    }
    assert i == |rows| ==> rows[..i] == rows;
  }

  // A page is every visible row between the old cursor and the new one, and an
  // empty page means there is nothing above the cursor.
  lemma PageIsContiguous(rows: seq<ContinuityRow>, project: string, after: int, limit: nat)
    requires Increasing(rows) && limit > 0
    ensures var page := Page(rows, project, after, limit); var cursor := NextCursor(page, after);
            && after <= cursor && |page| <= limit
            && page == Between(rows, project, after, cursor)
            && (page != [] ==> after < cursor <= Head(rows))
            && (page == [] <==> Between(rows, project, after, Head(rows)) == [])
  {
    var all, page := Between(rows, project, after, Head(rows)), Page(rows, project, after, limit);
    if page == [] {
      NothingAbove(rows, project, after, after);
    } else {
      var cursor := NextCursor(page, after);
      InBetween(rows, project, after, Head(rows), page[|page| - 1]);
      BetweenSplits(rows, project, after, cursor, Head(rows));
      CutAtRevision(rows, project, after, Head(rows), |page|);
    }
  }

  // Cutting a range after its nth row is cutting it at that row's revision.
  lemma {:induction false} CutAtRevision(rows: seq<ContinuityRow>, project: string, lo: int, hi: int, n: nat)
    requires Increasing(rows) && 0 < n <= |Between(rows, project, lo, hi)|
    ensures var all := Between(rows, project, lo, hi); all[..n] == Between(rows, project, lo, all[n - 1].revision)
    decreases |rows|
  {
    var front, last := rows[..|rows| - 1], rows[|rows| - 1];
    var all, less := Between(rows, project, lo, hi), Between(front, project, lo, hi);
    if n <= |less| {
      CutAtRevision(front, project, lo, hi, n);
      InBetween(front, project, lo, hi, less[n - 1]);
      assert less[n - 1] in front;
      assert all[..n] == less[..n];
    } else {
      SameBelow(front, project, lo, hi, last.revision);
      assert all[..n] == all;
    }
  }

  lemma {:induction false} SameBelow(rows: seq<ContinuityRow>, project: string, lo: int, a: int, b: int)
    requires forall i :: 0 <= i < |rows| ==> rows[i].revision <= a && rows[i].revision <= b
    ensures Between(rows, project, lo, a) == Between(rows, project, lo, b)
    decreases |rows|
  {
    if rows != [] {
      SameBelow(rows[..|rows| - 1], project, lo, a, b);
    }
  }

  // ---- many pages over a growing log ----

  // The log as it stands at each call, and the limit each call asks for.
  datatype Call = Call(rows: seq<ContinuityRow>, limit: nat)

  ghost predicate Growing(calls: seq<Call>) {
    && (forall i :: 0 <= i < |calls| ==> Increasing(calls[i].rows) && calls[i].limit > 0)
    && (forall i, j :: 0 <= i <= j < |calls| ==> calls[i].rows <= calls[j].rows)
  }

  function CursorAfter(calls: seq<Call>, project: string, start: int): int {
    if calls == [] then start
    else
      var last, cursor := calls[|calls| - 1], CursorAfter(calls[..|calls| - 1], project, start);
      NextCursor(Page(last.rows, project, cursor, last.limit), cursor)
  }

  function Returned(calls: seq<Call>, project: string, start: int): seq<ContinuityRow> {
    if calls == [] then []
    else
      var last, cursor := calls[|calls| - 1], CursorAfter(calls[..|calls| - 1], project, start);
      Returned(calls[..|calls| - 1], project, start) + Page(last.rows, project, cursor, last.limit)
  }

  // All pages put together are the visible rows between the first cursor and the
  // last, each once and in order, however the log grew between the calls.
  lemma {:induction false} PagesNeitherSkipNorRepeat(calls: seq<Call>, project: string, start: int)
    requires Growing(calls) && calls != []
    ensures var last, cursor := calls[|calls| - 1].rows, CursorAfter(calls, project, start);
            && start <= cursor && (cursor == start || cursor <= Head(last))
            && Returned(calls, project, start) == Between(last, project, start, cursor)
    decreases |calls|
  {
    var front, last := calls[..|calls| - 1], calls[|calls| - 1];
    var cursor := CursorAfter(front, project, start);
    PageIsContiguous(last.rows, project, cursor, last.limit);
    if front == [] {
    } else {
      PagesNeitherSkipNorRepeat(front, project, start);
      var before := front[|front| - 1].rows;
      assert before == calls[|calls| - 2].rows;
      assert before <= last.rows && Increasing(before);
      HeadGrows(before, last.rows);
      if cursor == start {
        NothingAbove(before, project, start, start);
        NothingAbove(last.rows, project, start, start);
      } else {
        LaterRowsAreAbove(before, last.rows, project, start, cursor);
      }
      BetweenSplits(last.rows, project, start, cursor, CursorAfter(calls, project, start));
    }
  }

  lemma HeadGrows(before: seq<ContinuityRow>, rows: seq<ContinuityRow>)
    requires Increasing(rows) && before <= rows
    ensures Head(before) <= Head(rows)
  {
    if before != [] {
      RowsUpToHead(rows, rows[|before| - 1]);
    }
  }

  // Once commits stop, as many calls as there are rows left bring an empty page,
  // and by then every visible row above the first cursor has been returned.
  lemma {:induction false} PagesRunOut(rows: seq<ContinuityRow>, project: string, start: int, calls: seq<Call>)
    requires Increasing(rows) && (forall i :: 0 <= i < |calls| ==> calls[i].rows == rows && calls[i].limit > 0)
    requires |Between(rows, project, start, Head(rows))| <= |calls|
    ensures var cursor := CursorAfter(calls, project, start);
            && Between(rows, project, cursor, Head(rows)) == []
            && forall limit: nat :: Page(rows, project, cursor, limit) == []
    ensures calls != [] ==> Returned(calls, project, start) == Between(rows, project, start, Head(rows))
  {
    LeftAfter(rows, project, start, calls);
    var cursor := CursorAfter(calls, project, start);
    assert Between(rows, project, cursor, Head(rows)) == [];
    if calls != [] {
      PagesNeitherSkipNorRepeat(calls, project, start);
      if cursor <= Head(rows) {
        BetweenSplits(rows, project, start, cursor, Head(rows));
      } else {
        NothingAbove(rows, project, start, cursor);
        NothingAbove(rows, project, start, Head(rows));
      }
    }
  }

  // Every call takes at least one row of what is left.
  lemma {:induction false} LeftAfter(rows: seq<ContinuityRow>, project: string, start: int, calls: seq<Call>)
    requires Increasing(rows) && (forall i :: 0 <= i < |calls| ==> calls[i].rows == rows && calls[i].limit > 0)
    ensures var left := Between(rows, project, CursorAfter(calls, project, start), Head(rows));
            |left| + |calls| <= |Between(rows, project, start, Head(rows))| || left == []
    decreases |calls|
  {
    if calls != [] {
      var front, last := calls[..|calls| - 1], calls[|calls| - 1];
      LeftAfter(rows, project, start, front);
      var cursor := CursorAfter(front, project, start);
      PageIsContiguous(rows, project, cursor, last.limit);
      var next := CursorAfter(calls, project, start);
      if next != cursor {
        BetweenSplits(rows, project, cursor, next, Head(rows));
      }
    }
  }

  // ---- the first page ----

  function Reversed(rows: seq<ContinuityRow>): seq<ContinuityRow> {
    if rows == [] then [] else [rows[|rows| - 1]] + Reversed(rows[..|rows| - 1])
  }

  lemma ReversedSnoc(rows: seq<ContinuityRow>, row: ContinuityRow)
    ensures Reversed(rows + [row]) == [row] + Reversed(rows)
  {
    assert (rows + [row])[..|rows|] == rows;
  }

  // The newest visible rows first.
  function RecentPage(rows: seq<ContinuityRow>, project: string, limit: nat): seq<ContinuityRow> {
    var all := Reversed(Between(rows, project, 0, Head(rows)));
    if |all| <= limit then all else all[..limit]
  }

  function RecentCursor(page: seq<ContinuityRow>): int {
    if page == [] then 0 else page[0].revision
  }

  lemma OneMoreRow(rows: seq<ContinuityRow>, i: nat, project: string)
    requires Increasing(rows) && i < |rows|
    ensures Between(rows[..i + 1], project, 0, Head(rows)) ==
            if Visible(rows[i], project) then Between(rows[..i], project, 0, Head(rows)) + [rows[i]]
            else Between(rows[..i], project, 0, Head(rows))
  {
    assert rows[..i + 1][..i] == rows[..i];
    RowsUpToHead(rows, rows[i]);
  }

  // The backward scan with rows[..i + 1] still ahead of it.
  ghost predicate Scanned(rows: seq<ContinuityRow>, project: string, i: int, out: seq<ContinuityRow>)
    requires -1 <= i < |rows|
  {
    && out + Reversed(Between(rows[..i + 1], project, 0, Head(rows))) == Reversed(Between(rows, project, 0, Head(rows)))
    && (out != [] ==> forall k :: 0 <= k <= i ==> rows[k].revision < out[0].revision)
  }

  lemma ScanTurn(rows: seq<ContinuityRow>, project: string, i: int, out: seq<ContinuityRow>)
    requires Increasing(rows) && 0 <= i < |rows| && Scanned(rows, project, i, out)
    ensures Scanned(rows, project, i - 1, if Visible(rows[i], project) then out + [rows[i]] else out)
    ensures out != [] ==> rows[i].revision < out[0].revision
  {
    hide Between, Reversed;
    OneMoreRow(rows, i, project);
    if Visible(rows[i], project) {
      var rest := Between(rows[..i], project, 0, Head(rows));
      ReversedSnoc(rest, rows[i]);
      assert out + ([rows[i]] + Reversed(rest)) == (out + [rows[i]]) + Reversed(rest);
    }
  }

  lemma ScanDone(rows: seq<ContinuityRow>, project: string, i: int, out: seq<ContinuityRow>, limit: nat)
    requires -1 <= i < |rows| && Scanned(rows, project, i, out)
    requires |out| <= limit && (i == -1 || |out| == limit)
    ensures out == RecentPage(rows, project, limit)
  {
    hide Between, Reversed;
    if i == -1 {
      NothingLeft(rows, project, Head(rows));
    }
  }

  // Without a cursor: scan from the end. The new cursor is the highest revision
  // seen, and zero if nothing was.
  method Recent(rows: seq<ContinuityRow>, project: string, limit: nat) returns (out: seq<ContinuityRow>, highest: int)
    requires Increasing(rows) && limit > 0
    ensures out == RecentPage(rows, project, limit) && highest == RecentCursor(out)
  {
    hide Scanned, RecentPage;
    out, highest := [], 0;
    var i := |rows| - 1;
    NothingScanned(rows, project);
    while i >= 0 && |out| < limit
      invariant -1 <= i < |rows| && |out| <= limit
      invariant Scanned(rows, project, i, out) && highest == RecentCursor(out)
      decreases i
    {
      var row := rows[i];
      ScanTurn(rows, project, i, out);
      i := i - 1;
      if row.projectKey != "" && (project == "" || row.projectKey != project) {
        continue;
      }
      out := out + [row];
      if row.revision > highest {
        highest := row.revision;
      }
    }
    ScanDone(rows, project, i, out, limit);
  }

  lemma NothingScanned(rows: seq<ContinuityRow>, project: string)
    ensures Scanned(rows, project, |rows| - 1, [])
  {
    assert rows[..|rows|] == rows;
  }

  lemma NothingLeft(rows: seq<ContinuityRow>, project: string, head: int)
    ensures Reversed(Between(rows[..0], project, 0, head)) == []
  {
  }

  // The first page leaves no gap behind its cursor: in any longer log, the
  // visible rows above it are exactly those appended since.
  lemma RecentLeavesNoGap(before: seq<ContinuityRow>, rows: seq<ContinuityRow>, project: string, limit: nat, k: nat)
    requires Increasing(rows) && before <= rows && limit > 0
    requires k < |rows| && Visible(rows[k], project)
    ensures rows[k].revision > RecentCursor(RecentPage(before, project, limit)) <==> k >= |before|
  {
    assert Increasing(before);
    var all := Between(before, project, 0, Head(before));
    var page := RecentPage(before, project, limit);
    if all == [] {
      if k < |before| {
        InBetween(before, project, 0, Head(before), before[k]);
        RowsUpToHead(before, before[k]);
        assert false;
      }
    } else {
      var newest := all[|all| - 1];
      ReversedSnoc(all[..|all| - 1], newest);
      assert all == all[..|all| - 1] + [newest];
      assert page[0] == newest;
      NewestIsLast(before, project, k);
      InBetween(before, project, 0, Head(before), newest);
      var i :| 0 <= i < |before| && before[i] == newest;
    }
  }

  lemma {:induction false} NewestIsLast(rows: seq<ContinuityRow>, project: string, k: nat)
    requires Increasing(rows) && Between(rows, project, 0, Head(rows)) != []
    ensures k < |rows| && Visible(rows[k], project) ==>
              var all := Between(rows, project, 0, Head(rows)); rows[k].revision <= all[|all| - 1].revision
  {
    NewestUpTo(rows, project, Head(rows), k);
  }

  lemma {:induction false} NewestUpTo(rows: seq<ContinuityRow>, project: string, hi: int, k: nat)
    requires Increasing(rows) && Head(rows) <= hi
    ensures k < |rows| && Visible(rows[k], project) ==>
              var all := Between(rows, project, 0, hi); all != [] && rows[k].revision <= all[|all| - 1].revision
    decreases |rows|
  {
    if k < |rows| {
      var front := rows[..|rows| - 1];
      if front != [] {
        RowsUpToHead(rows, front[|front| - 1]);
      }
      NewestUpTo(front, project, hi, k);
    }
  }

  // ---- projects do not see each other ----

  predicate Own(row: ContinuityRow, project: string) {
    row.projectKey == "" || row.projectKey == project
  }

  // A forward page holds, of the rows above the cursor, those of no project and
  // of this one: all of them up to the new cursor, or all there are if it is not
  // full.
  lemma PageIsolation(rows: seq<ContinuityRow>, project: string, after: int, limit: nat, row: ContinuityRow)
    requires Increasing(rows) && limit > 0 && row in rows
    ensures var page := Page(rows, project, after, limit);
            && (row in page ==> after < row.revision && Own(row, project))
            && (after < row.revision <= NextCursor(page, after) && Own(row, project) ==> row in page)
            && (after < row.revision && Own(row, project) && |page| < limit ==> row in page)
  {
    var page := Page(rows, project, after, limit);
    PageIsContiguous(rows, project, after, limit);
    InBetween(rows, project, after, NextCursor(page, after), row);
    InBetween(rows, project, after, Head(rows), row);
    RowsUpToHead(rows, row);
  }

  // So does the first page, of the whole log and from its newest row back.
  lemma RecentIsolation(rows: seq<ContinuityRow>, project: string, limit: nat, row: ContinuityRow)
    requires Increasing(rows) && limit > 0 && row in rows
    ensures var page := RecentPage(rows, project, limit);
            && |page| <= limit
            && (row in page ==> Own(row, project))
            && (Own(row, project) && (|page| < limit || row.revision >= page[|page| - 1].revision) ==> row in page)
  {
    var all, page := Between(rows, project, 0, Head(rows)), RecentPage(rows, project, limit);
    InBetween(rows, project, 0, Head(rows), row);
    RowsUpToHead(rows, row);
    ReversedHas(all, row);
    hide Between, Reversed;
    if row in page {
      assert row in Reversed(all);
    }
    if row in all {
      var k :| 0 <= k < |all| && all[k] == row;
      ReversedAt(all, k);
      if |page| == limit && row.revision >= page[|page| - 1].revision {
        ReversedAt(all, |all| - limit);
        BetweenIncreases(rows, project, 0, Head(rows), k, |all| - limit);
      }
    }
  }

  lemma {:induction false} BetweenIncreases(rows: seq<ContinuityRow>, project: string, lo: int, hi: int, j: nat, k: nat)
    requires Increasing(rows) && j < |Between(rows, project, lo, hi)| && k < |Between(rows, project, lo, hi)|
    ensures var all := Between(rows, project, lo, hi); all[j].revision >= all[k].revision ==> j >= k
    ensures Between(rows, project, lo, hi)[k] in rows
    decreases |rows|
  {
    var front, last := rows[..|rows| - 1], rows[|rows| - 1];
    var less := Between(front, project, lo, hi);
    assert rows == front + [last];
    if k < |less| {
      BetweenIncreases(front, project, lo, hi, if j < |less| then j else k, k);
    } else if j < |less| {
      BetweenIncreases(front, project, lo, hi, j, j);
      assert less[j] in front;
    }
  }

  lemma {:induction false} ReversedHas(rows: seq<ContinuityRow>, row: ContinuityRow)
    ensures row in Reversed(rows) <==> row in rows
    decreases |rows|
  {
    if rows != [] {
      ReversedHas(rows[..|rows| - 1], row);
      assert rows == rows[..|rows| - 1] + [rows[|rows| - 1]];
    }
  }

  lemma {:induction false} ReversedAt(rows: seq<ContinuityRow>, k: nat)
    requires k < |rows|
    ensures |Reversed(rows)| == |rows| && Reversed(rows)[|rows| - 1 - k] == rows[k]
    decreases |rows|
  {
    if k < |rows| - 1 {
      ReversedAt(rows[..|rows| - 1], k);
    } else if |rows| > 1 {
      ReversedAt(rows[..|rows| - 1], 0);
    }
  }

  // The rows of no project and of this one, in order.
  function Mine(rows: seq<ContinuityRow>, project: string): seq<ContinuityRow> {
    if rows == [] then []
    else
      var front, last := Mine(rows[..|rows| - 1], project), rows[|rows| - 1];
      if Own(last, project) then front + [last] else front
  }

  lemma {:induction false} BetweenOfMine(rows: seq<ContinuityRow>, project: string, lo: int, hi: int)
    ensures Between(rows, project, lo, hi) == Between(Mine(rows, project), project, lo, hi)
    ensures forall r :: r in Mine(rows, project) ==> r in rows
    decreases |rows|
  {
    if rows != [] {
      var front, last := rows[..|rows| - 1], rows[|rows| - 1];
      BetweenOfMine(front, project, lo, hi);
      var mine := Mine(front, project);
      assert (mine + [last])[..|mine|] == mine;
      assert rows == front + [last];
    }
  }

  // Nothing another project does shows in a page or a cursor.
  lemma OtherProjectsLeaveNoTrace(a: seq<ContinuityRow>, b: seq<ContinuityRow>, project: string, after: int, limit: nat)
    requires Increasing(a) && Increasing(b) && Mine(a, project) == Mine(b, project)
    ensures Page(a, project, after, limit) == Page(b, project, after, limit)
    ensures RecentPage(a, project, limit) == RecentPage(b, project, limit)
  {
    SameRange(a, b, project, after);
    SameRange(a, b, project, 0);
  }

  lemma SameRange(a: seq<ContinuityRow>, b: seq<ContinuityRow>, project: string, lo: int)
    requires Increasing(a) && Increasing(b) && Mine(a, project) == Mine(b, project)
    ensures Between(a, project, lo, Head(a)) == Between(b, project, lo, Head(b))
  {
    var mine := Mine(a, project);
    BetweenOfMine(a, project, lo, Head(a));
    BetweenOfMine(b, project, lo, Head(b));
    forall i | 0 <= i < |mine| ensures mine[i].revision <= Head(a) && mine[i].revision <= Head(b) {
      assert mine[i] in Mine(a, project) && mine[i] in Mine(b, project);
      RowsUpToHead(a, mine[i]);
      RowsUpToHead(b, mine[i]);
    }
    SameBelow(mine, project, lo, Head(a), Head(b));
  }

  // ---- the log the protocol writes ----

  // In every run the continuity log only grows, and is numbered 1, 2, 3, ...
  lemma RunLogsGrow(env: Env, actions: seq<Action>, n: nat)
    requires SoundDigests(env) && n <= |actions|
    ensures Run(env, actions[..n]).live.continuity <= Run(env, actions).live.continuity
    ensures Increasing(Run(env, actions).live.continuity)
    ensures Head(Run(env, actions).live.continuity) == |Run(env, actions).journal|
  {
    hide SoundDigests, Run, WellFormed, Continuity, ReplayContinuity, JournalOk, DiskOk, ProposalsOk, ResolvedOk, RecordsOk, PhaseOk;
    RunFacts(env, actions);
    RunFacts(env, actions[..n]);
    JournalGrows(env, actions, n);
    RevisionsAreConsecutive(Run(env, actions).journal);
    ContinuityFollowsJournal(Run(env, actions).journal);
    ContinuityFollowsJournal(Run(env, actions[..n]).journal);
  }
}
