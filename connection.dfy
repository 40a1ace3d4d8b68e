/**
 * `BattleshipConnection`: the client-side game state (board, moves,
 * opponent, turn, winner) and the methods that update it. HTTP requests
 * and sockets are not modelled: replies are parameters, and the requests
 * the object sends (a move, a result) are recorded in fields.
 */
module Connection {
  import opened Wrappers

  /**
   * A key of `game_board`: the consoles use the typed text (`"2,3"`), the
   * other clients a tuple `(x, y)`.
   */
  datatype BoardKey = TextKey(text: string) | CellKey(x: int, y: int)

  /** The values stored in `game_board`: "SHIP", "HIT", "MISS". */
  datatype Mark = Ship | Hit | Miss

  /** The string stored in the board for a mark. */
  function MarkText(m: Mark): (s: string)
    ensures |s| >= 3
  {
    match m
    case Ship => "SHIP"
    case Hit => "HIT"
    case Miss => "MISS"
  }

  /**
   * The `move` field of a received JSON message: a value usable as a
   * dictionary key, or a JSON array or object, which is not hashable.
   */
  datatype MoveValue = Key(key: BoardKey) | Unhashable

  /** A POST to `/match_result` made by `end_game`. */
  datatype ResultPost = ResultPost(winner: string, loser: Option<string>)

  /** The connection's state before a run of updates: board, moves, winner and posted results. */
  datatype Start = Start(board: map<BoardKey, Mark>, moves: seq<BoardKey>, winner: Option<string>, posts: seq<ResultPost>)

  /** Cells with at least this many board entries make the owner the winner. */
  const VictoryEntries := 5

  /** Python's truth value of `winner`: `None` and an empty name are false. */
  predicate HasWinner(winner: Option<string>)
  {
    winner.Some? && winner.value != ""
  }

  /** What an opponent's shot at `k` leaves in the cell. */
  function ShotMark(board: map<BoardKey, Mark>, k: BoardKey): Mark
  {
    if k in board && board[k] == Ship then Hit else Miss
  }

  /** The board after `update_game_board(move, opponent)`. */
  function AfterMove(board: map<BoardKey, Mark>, move: BoardKey, opponent: bool): (b: map<BoardKey, Mark>)
    ensures move in b && b.Keys == board.Keys + {move}
    ensures forall k :: k in board && k != move ==> b[k] == board[k]
  {
    board[move := if opponent then ShotMark(board, move) else Ship]
  }

  /**
   * A shot turns a ship into a hit and anything else, a hit included,
   * into a miss; so a second shot at a hit cell records a miss.
   */
  lemma ShotOutcomes(board: map<BoardKey, Mark>, k: BoardKey)
    ensures AfterMove(board, k, true)[k] == Hit <==> k in board && board[k] == Ship
    ensures AfterMove(AfterMove(board, k, true), k, true)[k] == Miss
  {
  }

  /** The board after a sequence of updates `(move, opponent)`. */
  function Replay(board: map<BoardKey, Mark>, updates: seq<(BoardKey, bool)>): map<BoardKey, Mark>
  {
    if |updates| == 0 then board
    else AfterMove(Replay(board, updates[..|updates| - 1]), updates[|updates| - 1].0, updates[|updates| - 1].1)
  }

  /** The cells named by a sequence of updates. */
  function Targets(updates: seq<(BoardKey, bool)>): set<BoardKey>
  {
    if |updates| == 0 then {} else Targets(updates[..|updates| - 1]) + {updates[|updates| - 1].0}
  }

  /**
   * Updates only add keys: the board holds exactly its old cells and the
   * cells moved to, so it never shrinks and a victory, once reached, stays
   * reached.
   */
  lemma ReplayKeys(board: map<BoardKey, Mark>, updates: seq<(BoardKey, bool)>)
    ensures Replay(board, updates).Keys == board.Keys + Targets(updates)
    ensures |Replay(board, updates)| >= |board|
  {
    ReplayKeySet(board, updates);
    SubsetCardinality(board.Keys, Replay(board, updates).Keys);
  }

  lemma {:induction false} ReplayKeySet(board: map<BoardKey, Mark>, updates: seq<(BoardKey, bool)>)
    ensures Replay(board, updates).Keys == board.Keys + Targets(updates)
  {
    if |updates| > 0 {
      var init, last := updates[..|updates| - 1], updates[|updates| - 1];
      ReplayKeySet(board, init);
      assert Replay(board, updates) == AfterMove(Replay(board, init), last.0, last.1);
      assert Targets(updates) == Targets(init) + {last.0};
    }
  }

  /**
   * Own moves only place ships: every cell moved to holds a ship and every
   * other cell keeps its mark.
   */
  lemma {:induction false} OwnMovesPlaceShips(board: map<BoardKey, Mark>, updates: seq<(BoardKey, bool)>)
    requires forall i :: 0 <= i < |updates| ==> !updates[i].1
    ensures forall k :: k in Targets(updates) ==> k in Replay(board, updates) && Replay(board, updates)[k] == Ship
    ensures forall k :: k in board && k !in Targets(updates) ==> k in Replay(board, updates) && Replay(board, updates)[k] == board[k]
  {
    if |updates| > 0 {
      OwnMovesPlaceShips(board, updates[..|updates| - 1]);
      ReplayKeys(board, updates[..|updates| - 1]);
    }
  }

  /**
   * The results `check_victory` posts while `updates` are applied one by
   * one: one after each update that leaves five or more board entries.
   */
  function VictoryPosts(board: map<BoardKey, Mark>, updates: seq<(BoardKey, bool)>, post: ResultPost): seq<ResultPost>
  {
    if |updates| == 0 then []
    else VictoryPosts(board, updates[..|updates| - 1], post)
         + (if |Replay(board, updates)| >= VictoryEntries then [post] else [])
  }

  /** The winner after `updates`: the owner if the last update leaves five or more entries, else unchanged. */
  function WinnerAfter(board: map<BoardKey, Mark>, updates: seq<(BoardKey, bool)>, owner: string, winner: Option<string>): Option<string>
  {
    if |updates| > 0 && |Replay(board, updates)| >= VictoryEntries then Some(owner) else winner
  }

  /** One more update never removes an entry. */
  lemma ReplayStepGrows(board: map<BoardKey, Mark>, updates: seq<(BoardKey, bool)>)
    requires |updates| > 0
    ensures |Replay(board, updates[..|updates| - 1])| <= |Replay(board, updates)|
  {
    SubsetCardinality(Replay(board, updates[..|updates| - 1]).Keys, Replay(board, updates).Keys);
  }

  /** A board never has fewer entries than after any earlier prefix of the updates. */
  lemma {:induction false} ReplayPrefixGrows(board: map<BoardKey, Mark>, updates: seq<(BoardKey, bool)>, j: nat)
    requires j <= |updates|
    ensures |Replay(board, updates[..j])| <= |Replay(board, updates)|
    decreases |updates|
  {
    if j < |updates| {
      var init := updates[..|updates| - 1];
      assert init[..j] == updates[..j];
      ReplayPrefixGrows(board, init, j);
      ReplayStepGrows(board, updates);
    } else {
      assert updates[..j] == updates;
    }
  }

  /**
   * Once some update has left five or more entries, the owner is the
   * winner after all of them: `WinnerAfter` is the winner `check_victory`
   * leaves after each update in turn.
   */
  lemma VictoryStays(board: map<BoardKey, Mark>, updates: seq<(BoardKey, bool)>, j: nat, owner: string, winner: Option<string>)
    requires 0 < j <= |updates| && |Replay(board, updates[..j])| >= VictoryEntries
    ensures WinnerAfter(board, updates, owner, winner) == Some(owner)
  {
    ReplayPrefixGrows(board, updates, j);
  }

  /** Below five entries at the end no update reached victory, so nothing was posted. */
  lemma {:induction false} NoVictoryPosts(board: map<BoardKey, Mark>, updates: seq<(BoardKey, bool)>, post: ResultPost)
    requires |Replay(board, updates)| < VictoryEntries
    ensures VictoryPosts(board, updates, post) == []
  {
    if |updates| > 0 {
      ReplayStepGrows(board, updates);
      NoVictoryPosts(board, updates[..|updates| - 1], post);
    }
  }

  /** One more update: the winner and the posts as `update_game_board` leaves them. */
  lemma VictoryStep(board: map<BoardKey, Mark>, updates: seq<(BoardKey, bool)>, owner: string, winner: Option<string>, post: ResultPost)
    requires |updates| > 0
    ensures var init, now := updates[..|updates| - 1], Replay(board, updates);
      && VictoryPosts(board, updates, post)
         == VictoryPosts(board, init, post) + (if |now| >= VictoryEntries then [post] else [])
      && WinnerAfter(board, updates, owner, winner)
         == (if |now| >= VictoryEntries then Some(owner) else WinnerAfter(board, init, owner, winner))
  {
    ReplayStepGrows(board, updates);
  }

  lemma SubsetCardinality<T>(a: set<T>, b: set<T>)
    requires a <= b
    ensures |a| <= |b|
  {
    assert b == a + (b - a);
  }

  class BattleshipConnection {
    const username: string
    const port: int
    const matchmakingUrl: string
    var opponent: Option<string>
    var matchCode: Option<string>
    /** `self.socket is not None`; nothing in the class ever opens it. */
    var hasSocket: bool
    var isMatchActive: bool
    var myTurn: bool
    var gameBoard: map<BoardKey, Mark>
    var moves: seq<BoardKey>
    var winner: Option<string>
    /** The moves `send_move` wrote to the socket. */
    var sentMoves: seq<BoardKey>
    /** The results `end_game` posted. */
    var resultPosts: seq<ResultPost>
    /** Whether `start_game` launched the listener thread. */
    var listening: bool

    /** Only the owner can be the winner, and every posted result names the owner. */
    ghost predicate Valid()
      reads this
    {
      && (winner == None || winner == Some(username))
      && (forall p :: p in resultPosts ==> p.winner == username)
      && (resultPosts != [] ==> winner == Some(username))
    }

    /** `__init__`, without the registration request it sends. */
    constructor (username: string, port: int, matchmakingUrl: string)
      ensures Valid()
      ensures this.username == username && this.port == port && this.matchmakingUrl == matchmakingUrl
      ensures opponent == None && matchCode == None && !hasSocket
      ensures !isMatchActive && !myTurn && gameBoard == map[] && moves == [] && winner == None
      ensures sentMoves == [] && resultPosts == [] && !listening
    {
      this.username, this.port, this.matchmakingUrl := username, port, matchmakingUrl;
      opponent, matchCode, hasSocket := None, None, false;
      isMatchActive, myTurn, gameBoard, moves, winner := false, false, map[], [], None;
      sentMoves, resultPosts, listening := [], [], false;
    }

    /**
     * `join_match(code)` given the server's reply: `None` for a failed
     * request or a non-200 status, else the `players` list. The opponent
     * is the listed player who is not the user; a list too short for the
     * indexing raises, which the method catches, changing nothing.
     */
    method JoinMatch(code: string, reply: Option<seq<string>>) returns (ok: bool)
      requires Valid()
      modifies this
      ensures Valid()
      ensures ok <==> reply.Some? && |reply.value| >= 1 && (reply.value[0] != username || |reply.value| >= 2)
      ensures ok ==> opponent == Some(if reply.value[0] == username then reply.value[1] else reply.value[0])
      ensures ok ==> matchCode == Some(code) && isMatchActive && myTurn
      ensures !ok ==> opponent == old(opponent) && matchCode == old(matchCode)
                      && isMatchActive == old(isMatchActive) && myTurn == old(myTurn)
      ensures gameBoard == old(gameBoard) && moves == old(moves) && winner == old(winner)
      ensures sentMoves == old(sentMoves) && resultPosts == old(resultPosts) && listening == old(listening)
      ensures hasSocket == old(hasSocket)
    {
      if reply.None? || |reply.value| == 0 {
        return false;
      }
      var players := reply.value;
      if players[0] == username && |players| < 2 {
        return false;
      }
      opponent := Some(if players[0] == username then players[1] else players[0]);
      matchCode := Some(code);
      isMatchActive := true;
      myTurn := true;
      ok := true;
    }

    /** `send_move`: without a socket nothing happens. */
    method SendMove(move: BoardKey)
      modifies this`sentMoves
      ensures sentMoves == if old(hasSocket) then old(sentMoves) + [move] else old(sentMoves)
      ensures unchanged(this`gameBoard, this`moves, this`winner, this`resultPosts, this`myTurn, this`hasSocket)
    {
      if !hasSocket {
        return;
      }
      sentMoves := sentMoves + [move];
    }

    /** `start_game`: launches the listener thread. */
    method StartGame()
      modifies this`listening
      ensures listening
    {
      listening := true;
    }

    /** `end_game`: posts the result. */
    method EndGame()
      requires Valid() && winner == Some(username)
      modifies this`resultPosts
      ensures Valid()
      ensures resultPosts == old(resultPosts) + [ResultPost(username, opponent)]
    {
      resultPosts := resultPosts + [ResultPost(winner.value, opponent)];
    }

    /** `check_victory`: five board entries of any kind make the owner the winner and post the result. */
    method CheckVictory()
      requires Valid()
      modifies this`winner, this`resultPosts
      ensures Valid()
      ensures |gameBoard| >= VictoryEntries ==>
                (winner == Some(username) && resultPosts == old(resultPosts) + [ResultPost(username, opponent)])
      ensures |gameBoard| < VictoryEntries ==> winner == old(winner) && resultPosts == old(resultPosts)
    {
      if |gameBoard| >= VictoryEntries {
        winner := Some(username);
        EndGame();
      }
    }

    /**
     * `update_game_board`: the own move places a ship, an opponent's move
     * is a hit or a miss; the move is appended and victory checked.
     */
    method UpdateGameBoard(move: BoardKey, isOpponent: bool)
      requires Valid()
      modifies this`gameBoard, this`moves, this`winner, this`resultPosts
      ensures Valid()
      ensures gameBoard == AfterMove(old(gameBoard), move, isOpponent)
      ensures moves == old(moves) + [move]
      ensures |gameBoard| >= VictoryEntries ==>
                (winner == Some(username) && resultPosts == old(resultPosts) + [ResultPost(username, opponent)])
      ensures |gameBoard| < VictoryEntries ==> winner == old(winner) && resultPosts == old(resultPosts)
    {
      if isOpponent {
        gameBoard := gameBoard[move := if move in gameBoard && gameBoard[move] == Ship then Hit else Miss];
      } else {
        gameBoard := gameBoard[move := Ship];
      }
      moves := moves + [move];
      CheckVictory();
    }

    /**
     * `handle_opponent_move`: malformed data (`None`) or a move that cannot
     * be a key raises inside the `try` and leaves every field unchanged.
     */
    method HandleOpponentMove(message: Option<MoveValue>)
      requires Valid()
      modifies this`gameBoard, this`moves, this`winner, this`resultPosts
      ensures Valid()
      ensures (message.None? || message.value.Unhashable?) ==>
        gameBoard == old(gameBoard) && moves == old(moves) && winner == old(winner) && resultPosts == old(resultPosts)
      ensures message.Some? && message.value.Key? ==>
        gameBoard == AfterMove(old(gameBoard), message.value.key, true) && moves == old(moves) + [message.value.key]
      ensures message.Some? && message.value.Key? && |gameBoard| >= VictoryEntries ==>
        winner == Some(username) && resultPosts == old(resultPosts) + [ResultPost(username, opponent)]
      ensures message.Some? && message.value.Key? && |gameBoard| < VictoryEntries ==>
        winner == old(winner) && resultPosts == old(resultPosts)
    {
      if message.None? || message.value.Unhashable? {
        return;
      }
      UpdateGameBoard(message.value.key, true);
    }
  }
}
