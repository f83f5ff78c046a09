// Which archived message is the current user turn of a session.
module Turns {
  import opened Wrappers
  import opened MessageJournal

  predicate IsUserTurn(row: MessageRow, sessionId: string) {
    row.sessionId == sessionId && row.role == USER
  }

  // The last user message of the session in archive order.
  ghost predicate LastUserTurn(rows: seq<MessageRow>, sessionId: string, k: nat) {
    && k < |rows| && rows[k].sessionId == sessionId && rows[k].role == "user"
    && forall j :: k < j < |rows| ==> rows[j].sessionId != sessionId || rows[j].role != "user"
  }

  predicate LaterTurn(a: MessageRow, b: MessageRow) {
    a.turnSeq > b.turnSeq || (a.turnSeq == b.turnSeq && a.messageSeq > b.messageSeq)
  }

  lemma {:induction false} TurnOf(rows: seq<MessageRow>, k: nat)
    requires TurnsCounted(rows) && k < |rows|
    ensures rows[k].turnSeq == UserTurns(rows[..k + 1]) <= UserTurns(rows)
    decreases |rows|
  {
    if k < |rows| - 1 {
      TurnOf(rows[..|rows| - 1], k);
      assert rows[..|rows| - 1][..k + 1] == rows[..k + 1];
    } else {
      assert rows[..k + 1] == rows;
    }
  }

  // Of two user messages the one archived later has the later turn.
  lemma LaterIsLater(rows: seq<MessageRow>, i: nat, j: nat)
    requires TurnsCounted(rows) && i < j < |rows| && rows[j].role == USER
    ensures rows[i].turnSeq < rows[j].turnSeq
  {
    var upTo := rows[..j + 1];
    TurnOf(rows, i);
    TurnOf(rows, j);
    TurnsPrefix(rows, j);
    TurnOf(rows[..j], i);
    assert upTo[..j] == rows[..j] && rows[..j][..i + 1] == rows[..i + 1];
  }

  lemma {:induction false} TurnsPrefix(rows: seq<MessageRow>, n: nat)
    requires TurnsCounted(rows) && n <= |rows|
    ensures TurnsCounted(rows[..n])
    decreases |rows|
  {
    if n < |rows| {
      TurnsPrefix(rows[..|rows| - 1], n);
      assert rows[..|rows| - 1][..n] == rows[..n];
    } else {
      assert rows[..n] == rows;
    }
  }

  // LatestUserMessageID, walking the message map in no particular order.
  method LatestUserMessage(messages: map<string, MessageRow>, sessionId: string, ghost rows: seq<MessageRow>)
    returns (best: Option<string>)
    requires messages == MessageMap(rows) && TurnsCounted(rows) && Distinct(rows)
    requires "" !in messages
    ensures best.None? <==> forall k :: 0 <= k < |rows| ==> rows[k].sessionId != sessionId || rows[k].role != "user"
    ensures best.Some? ==> exists k: nat :: LastUserTurn(rows, sessionId, k) && rows[k].messageId == best.value
  {
    hide MessageMap, TurnsCounted, UserTurns;
    MapHoldsRows(rows);
    var found, bestTurn, bestMessage := "", 0, 0;
    var rest := messages.Keys;
    while rest != {}
      invariant rest <= messages.Keys
      invariant found != "" ==> found in messages.Keys - rest && IsUserTurn(messages[found], sessionId)
      invariant found != "" ==> bestTurn == messages[found].turnSeq && bestMessage == messages[found].messageSeq
      invariant forall id :: id in messages.Keys - rest && IsUserTurn(messages[id], sessionId) ==>
                  found != "" && !LaterTurn(messages[id], messages[found])
      decreases |rest|
    {
      var id :| id in rest;
      rest := rest - {id};
      var row := messages[id];
      if row.sessionId != sessionId || row.role != USER {
        continue;
      }
      if found == "" || row.turnSeq > bestTurn || (row.turnSeq == bestTurn && row.messageSeq > bestMessage) {
        found, bestTurn, bestMessage := id, row.turnSeq, row.messageSeq;
      }
    }
    if found == "" {
      return None;
    }
    best := Some(found);
    ghost var k: nat :| k < |rows| && rows[k] == messages[found];
    forall j | k < j < |rows| ensures !IsUserTurn(rows[j], sessionId) {
      if IsUserTurn(rows[j], sessionId) {
        LaterIsLater(rows, k, j);
      }
    }
    assert LastUserTurn(rows, sessionId, k);
  }
}
