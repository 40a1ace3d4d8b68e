/**
 * The matchmaking server's in-memory state: the `players` registry, the
 * `scores` ledger and the `matches_history` list, with the HTTP handlers as
 * methods on that state. Flask's request and response plumbing is not
 * modelled; request fields are parameters, timestamps are opaque strings.
 */
module Server {
  import opened Wrappers

  /** The dictionary stored under a username in `players`. */
  datatype PlayerEntry = PlayerEntry(ip: string, port: int, joined: string, matchRequest: Option<string>)

  /** One element of the `/players` reply: the username merged with its entry. */
  datatype PlayerRecord = PlayerRecord(username: string, entry: PlayerEntry)

  /** One element of `matches_history`. */
  datatype HistoryRecord = HistoryRecord(player1: string, player2: string, timestamp: string, winner: Option<string>)

  /** One `(username, score)` item of `scores.items()`. */
  datatype ScoreRow = ScoreRow(username: string, score: int)

  // ----- match_result: the reverse scan over the history -----

  /** A record still without a winner in which `w` played. */
  predicate OpenFor(m: HistoryRecord, w: string) {
    m.winner.None? && (m.player1 == w || m.player2 == w)
  }

  /** Index of the last record open for `w`, which `match_result` closes. */
  function LastOpenFor(h: seq<HistoryRecord>, w: string): (r: Option<nat>)
    ensures r.Some? ==> r.value < |h| && OpenFor(h[r.value], w)
    ensures r.Some? ==> forall j :: r.value < j < |h| ==> !OpenFor(h[j], w)
    ensures r.None? ==> forall j :: 0 <= j < |h| ==> !OpenFor(h[j], w)
  {
    if |h| == 0 then None
    else if OpenFor(h[|h| - 1], w) then Some(|h| - 1)
    else LastOpenFor(h[..|h| - 1], w)
  }

  /** The history after `match_result` has recorded `w` as a winner. */
  /** The open record with no open record after it is the last one. */
  lemma LastOpenIs(h: seq<HistoryRecord>, w: string, k: nat)
    requires k < |h| && OpenFor(h[k], w)
    requires forall j :: k < j < |h| ==> !OpenFor(h[j], w)
    ensures LastOpenFor(h, w) == Some(k)
    ensures CloseLastOpen(h, w) == h[k := h[k].(winner := Some(w))]
  {
  }

  /** With no open record, nothing is closed. */
  lemma NoneOpen(h: seq<HistoryRecord>, w: string)
    requires forall j :: 0 <= j < |h| ==> !OpenFor(h[j], w)
    ensures CloseLastOpen(h, w) == h
  {
  }

  function CloseLastOpen(h: seq<HistoryRecord>, w: string): seq<HistoryRecord>
  {
    match LastOpenFor(h, w)
    case None => h
    case Some(i) => h[i := h[i].(winner := Some(w))]
  }

  function CountOpen(h: seq<HistoryRecord>, w: string): nat
  {
    if |h| == 0 then 0 else CountOpen(h[..|h| - 1], w) + (if OpenFor(h[|h| - 1], w) then 1 else 0)
  }

  /**
   * Recording a win closes exactly one of the winner's open records when
   * there is one and changes nothing otherwise.
   */
  lemma {:induction false} CloseLastOpenCount(h: seq<HistoryRecord>, w: string)
    ensures CountOpen(CloseLastOpen(h, w), w) == if CountOpen(h, w) == 0 then 0 else CountOpen(h, w) - 1
    ensures CountOpen(h, w) == 0 <==> LastOpenFor(h, w).None?
  {
    if |h| > 0 {
      var init := h[..|h| - 1];
      CloseLastOpenCount(init, w);
      var c := CloseLastOpen(h, w);
      if !OpenFor(h[|h| - 1], w) {
        assert c[..|c| - 1] == CloseLastOpen(init, w);
      } else {
        assert c[..|c| - 1] == init;
      }
    }
  }

  /**
   * Only the closed record changes, and only its winner field; the
   * other records, and the length, stay as they were.
   */
  lemma CloseLastOpenFrame(h: seq<HistoryRecord>, w: string)
    ensures |CloseLastOpen(h, w)| == |h|
    ensures forall j :: 0 <= j < |h| && CloseLastOpen(h, w)[j] != h[j] ==>
      LastOpenFor(h, w) == Some(j) && CloseLastOpen(h, w)[j] == h[j].(winner := Some(w))
  {
  }

  // ----- scores_history: `sorted(scores.items(), key=lambda x: -x[1])` -----

  predicate NonIncreasing(rows: seq<ScoreRow>) {
    forall i, j :: 0 <= i < j < |rows| ==> rows[i].score >= rows[j].score
  }

  /** The rows with score `v`, in their order. */
  function WithScore(rows: seq<ScoreRow>, v: int): seq<ScoreRow>
  {
    if |rows| == 0 then [] else (if rows[0].score == v then [rows[0]] else []) + WithScore(rows[1..], v)
  }

  /** Put `x` in front of the first row whose score is not above its own. */
  function InsertByScore(x: ScoreRow, rows: seq<ScoreRow>): seq<ScoreRow>
  {
    if |rows| == 0 || rows[0].score <= x.score then [x] + rows
    else [rows[0]] + InsertByScore(x, rows[1..])
  }

  /** A stable sort by descending score (Python's `sorted` is stable). */
  function SortByScore(rows: seq<ScoreRow>): seq<ScoreRow>
  {
    if |rows| == 0 then [] else InsertByScore(rows[0], SortByScore(rows[1..]))
  }

  lemma {:induction false} WithScoreAppend(a: seq<ScoreRow>, b: seq<ScoreRow>, v: int)
    ensures WithScore(a + b, v) == WithScore(a, v) + WithScore(b, v)
    decreases |a|
  {
    if |a| > 0 {
      assert (a + b)[1..] == a[1..] + b;
      WithScoreAppend(a[1..], b, v);
    } else {
      assert a + b == b;
    }
  }

  lemma {:induction false} InsertByScorePermutes(x: ScoreRow, rows: seq<ScoreRow>)
    ensures multiset(InsertByScore(x, rows)) == multiset(rows) + multiset{x}
  {
    if |rows| > 0 && rows[0].score > x.score {
      InsertByScorePermutes(x, rows[1..]);
      assert rows == [rows[0]] + rows[1..];
    }
  }

  lemma {:induction false} InsertByScoreSorted(x: ScoreRow, rows: seq<ScoreRow>)
    requires NonIncreasing(rows)
    ensures NonIncreasing(InsertByScore(x, rows))
  {
    if |rows| > 0 && rows[0].score > x.score {
      var tail := InsertByScore(x, rows[1..]);
      InsertByScoreSorted(x, rows[1..]);
      InsertByScorePermutes(x, rows[1..]);
      forall j | 0 <= j < |tail|
        ensures rows[0].score >= tail[j].score
      {
        assert tail[j] in multiset(rows[1..]) + multiset{x};
      }
    }
  }

  /** Inserting `x` keeps it ahead of every row with the same score. */
  lemma {:induction false} InsertByScoreStable(x: ScoreRow, rows: seq<ScoreRow>, v: int)
    ensures WithScore(InsertByScore(x, rows), v) == WithScore([x] + rows, v)
  {
    if |rows| > 0 && rows[0].score > x.score {
      var tail := InsertByScore(x, rows[1..]);
      InsertByScoreStable(x, rows[1..], v);
      WithScoreAppend([rows[0]], tail, v);
      WithScoreAppend([x], rows, v);
      WithScoreAppend([rows[0]], rows[1..], v);
      WithScoreAppend([x], rows[1..], v);
      assert rows == [rows[0]] + rows[1..];
    }
  }

  /**
   * `scores_history` sorts the score items into non-increasing order,
   * keeps every item exactly once, and keeps items with equal scores in
   * their original order.
   */
  lemma {:induction false} SortByScoreFacts(rows: seq<ScoreRow>)
    ensures NonIncreasing(SortByScore(rows))
    ensures multiset(SortByScore(rows)) == multiset(rows)
    ensures forall v :: WithScore(SortByScore(rows), v) == WithScore(rows, v)
  {
    if |rows| > 0 {
      var tail := SortByScore(rows[1..]);
      SortByScoreFacts(rows[1..]);
      InsertByScoreSorted(rows[0], tail);
      InsertByScorePermutes(rows[0], tail);
      assert rows == [rows[0]] + rows[1..];
      forall v
        ensures WithScore(SortByScore(rows), v) == WithScore(rows, v)
      {
        InsertByScoreStable(rows[0], tail, v);
        WithScoreAppend([rows[0]], tail, v);
        WithScoreAppend([rows[0]], rows[1..], v);
      }
    }
  }

  /** The `(username, score)` items of `scores`, in insertion order. */
  function ScoreRows(order: seq<string>, scores: map<string, int>): (rows: seq<ScoreRow>)
    requires forall u :: u in order ==> u in scores
    ensures |rows| == |order|
    ensures forall i :: 0 <= i < |order| ==> rows[i] == ScoreRow(order[i], scores[order[i]])
  {
    if |order| == 0 then [] else ScoreRows(order[..|order| - 1], scores) + [ScoreRow(order[|order| - 1], scores[order[|order| - 1]])]
  }

  /** The `/players` reply: one record per username in insertion order. */
  function PlayerRecords(order: seq<string>, players: map<string, PlayerEntry>): (r: seq<PlayerRecord>)
    requires forall u :: u in order ==> u in players
    ensures |r| == |order|
    ensures forall i :: 0 <= i < |order| ==> r[i] == PlayerRecord(order[i], players[order[i]])
  {
    if |order| == 0 then [] else PlayerRecords(order[..|order| - 1], players) + [PlayerRecord(order[|order| - 1], players[order[|order| - 1]])]
  }

  class Registry {
    /** `players`: username to its entry. */
    var players: map<string, PlayerEntry>
    /** The insertion order of the keys of `players` (and of `scores`), which Python dictionaries keep. */
    var joinOrder: seq<string>
    /** `scores`: username to number of wins. */
    var scores: map<string, int>
    /** `matches_history`. */
    var history: seq<HistoryRecord>

    ghost predicate Valid()
      reads this
    {
      && (forall i, j :: 0 <= i < j < |joinOrder| ==> joinOrder[i] != joinOrder[j])
      && (forall u :: u in players <==> u in joinOrder)
      && scores.Keys == players.Keys
    }

    /** The three module-level containers start empty. */
    constructor ()
      ensures Valid()
      ensures players == map[] && joinOrder == [] && scores == map[] && history == []
    {
      players, joinOrder, scores, history := map[], [], map[], [];
    }

    /**
     * `auto_join`: (re)writes the player's entry, which drops any pending
     * request, and gives a score of 0 to a name seen for the first time.
     */
    method AutoJoin(username: string, ip: string, port: int, joined: string)
      requires Valid()
      modifies this
      ensures Valid()
      ensures players == old(players)[username := PlayerEntry(ip, port, joined, None)]
      ensures scores == if username in old(scores) then old(scores) else old(scores)[username := 0]
      ensures joinOrder == if username in old(players) then old(joinOrder) else old(joinOrder) + [username]
      ensures history == old(history)
    {
      if username !in players {
        joinOrder := joinOrder + [username];
      }
      players := players[username := PlayerEntry(ip, port, joined, None)];
      if username !in scores {
        scores := scores[username := 0];
      }
    }

    /** `get_players`: exactly one record per registered player, carrying its stored entry. */
    function GetPlayers(): (r: seq<PlayerRecord>)
      reads this
      requires Valid()
      ensures forall i :: 0 <= i < |r| ==> r[i].username in players && r[i].entry == players[r[i].username]
      ensures forall u :: u in players ==> exists i :: 0 <= i < |r| && r[i].username == u
      ensures forall i, j :: 0 <= i < j < |r| ==> r[i].username != r[j].username
    {
      var r := PlayerRecords(joinOrder, players);
      assert forall i :: 0 <= i < |r| ==> r[i].username == joinOrder[i];
      r
    }

    /**
     * `propose_match`: stores the challenger as the target's pending
     * request; an unknown target is a `KeyError` and changes nothing.
     */
    method ProposeMatch(from: string, to: string) returns (ok: bool)
      requires Valid()
      modifies this
      ensures Valid()
      ensures ok == (to in old(players))
      ensures players == if ok then old(players)[to := old(players)[to].(matchRequest := Some(from))] else old(players)
      ensures scores == old(scores) && joinOrder == old(joinOrder) && history == old(history)
    {
      ok := to in players;
      if ok {
        players := players[to := players[to].(matchRequest := Some(from))];
      }
    }

    /**
     * `check_requests`: pops the pending request; an unknown user gets
     * `None` and nothing changes. Afterwards the user has no pending request.
     */
    method CheckRequests(username: string) returns (request: Option<string>)
      requires Valid()
      modifies this
      ensures Valid()
      ensures request == if username in old(players) then old(players)[username].matchRequest else None
      ensures players == if username in old(players)
                         then old(players)[username := old(players)[username].(matchRequest := None)]
                         else old(players)
      ensures username in players ==> players[username].matchRequest == None
      ensures scores == old(scores) && joinOrder == old(joinOrder) && history == old(history)
    {
      if username in players {
        request := players[username].matchRequest;
        players := players[username := players[username].(matchRequest := None)];
      } else {
        request := None;
      }
    }

    /** `confirm_match`: appends one open record and leaves the earlier ones alone. */
    method ConfirmMatch(player1: string, player2: string, timestamp: string)
      requires Valid()
      modifies this
      ensures Valid()
      ensures history == old(history) + [HistoryRecord(player1, player2, timestamp, None)]
      ensures players == old(players) && scores == old(scores) && joinOrder == old(joinOrder)
    {
      history := history + [HistoryRecord(player1, player2, timestamp, None)];
    }

    /**
     * `match_result`: a winner who never joined is a `KeyError` that
     * changes nothing; otherwise only the winner's score goes up by one and
     * the last record still open for the winner gets the winner. The loser
     * is never used.
     */
    method MatchResult(winner: string, loser: string) returns (ok: bool)
      requires Valid()
      modifies this
      ensures Valid()
      ensures ok == (winner in old(scores))
      ensures scores == if ok then old(scores)[winner := old(scores)[winner] + 1] else old(scores)
      ensures history == if ok then CloseLastOpen(old(history), winner) else old(history)
      ensures players == old(players) && joinOrder == old(joinOrder)
    {
      if winner !in scores {
        return false;
      }
      ok := true;
      scores := scores[winner := scores[winner] + 1];
      var i := |history|;
      while i > 0
        invariant 0 <= i <= |history|
        invariant history == old(history)
        invariant forall j :: i <= j < |history| ==> !OpenFor(history[j], winner)
        decreases i
      {
        var m := history[i - 1];
        if m.winner == None && (winner == m.player1 || winner == m.player2) {
          LastOpenIs(history, winner, i - 1);
          history := history[i - 1 := m.(winner := Some(winner))];
          return;
        }
        i := i - 1;
      }
      NoneOpen(history, winner);
    }

    /**
     * `scores_history`: the score items in non-increasing order, stable on
     * ties, and the history as it is.
     */
    function ScoresHistory(): (r: (seq<ScoreRow>, seq<HistoryRecord>))
      reads this
      requires Valid()
      ensures r.1 == history
      ensures NonIncreasing(r.0)
      ensures multiset(r.0) == multiset(ScoreRows(joinOrder, scores))
      ensures forall v :: WithScore(r.0, v) == WithScore(ScoreRows(joinOrder, scores), v)
    {
      var rows := ScoreRows(joinOrder, scores);
      SortByScoreFacts(rows);
      (SortByScore(rows), history)
    }
  }
}
