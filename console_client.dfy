/**
 * The console client: the grid display, keyed by the typed text `"x,y"`,
 * and the loop that asks for three ship positions. Console input is a
 * parameter: the lines the player would type, in order.
 */
module ConsoleClient {
  import opened Wrappers
  import opened PyStr
  import opened Connection
  import opened Seqs

  const GridSize := 5
  const ShipCount := 3

  /** `f"{x},{y}"`: the key `afficher_grille` looks up for a cell. */
  function CellText(x: nat, y: nat): string
  {
    NatText(x) + "," + NatText(y)
  }

  /** What `afficher_grille` prints for cell `(x, y)`: the stored text, or ".". */
  function CellShown(board: map<BoardKey, Mark>, x: nat, y: nat): string
  {
    var k := TextKey(CellText(x, y));
    if k in board then MarkText(board[k]) else "."
  }

  /** The five strings joined into row `y` of `afficher_grille`. */
  function RowCells(board: map<BoardKey, Mark>, y: nat): seq<string>
  {
    seq(GridSize, x requires 0 <= x < GridSize => CellShown(board, x, y))
  }

  /** The printed row: `f"{y}  " + " ".join(row)`. */
  function RowLine(board: map<BoardKey, Mark>, y: nat): string
  {
    NatText(y) + "  " + Join(RowCells(board, y), ' ')
  }

  /** No cell text contains a space. */
  lemma CellShownHasNoSpace(board: map<BoardKey, Mark>, x: nat, y: nat)
    ensures forall j :: 0 <= j < |CellShown(board, x, y)| ==> CellShown(board, x, y)[j] != ' '
  {
    var k := TextKey(CellText(x, y));
    if k in board {
      match board[k]
      case Ship => assert CellShown(board, x, y) == "SHIP";
      case Hit => assert CellShown(board, x, y) == "HIT";
      case Miss => assert CellShown(board, x, y) == "MISS";
    }
  }

  /**
   * A printed row can be read back: after its three-character label, the
   * pieces between single spaces are the five cells' texts.
   */
  lemma RowLineReadsBack(board: map<BoardKey, Mark>, y: nat)
    requires y < GridSize
    ensures |RowLine(board, y)| >= 3 && RowLine(board, y)[..3] == NatText(y) + "  "
    ensures Split(RowLine(board, y)[3..], ' ') == RowCells(board, y)
  {
    var cells := RowCells(board, y);
    forall i | 0 <= i < |cells|
      ensures forall j :: 0 <= j < |cells[i]| ==> cells[i][j] != ' '
    {
      CellShownHasNoSpace(board, i, y);
    }
    SplitJoin(cells, ' ');
    var prefix := NatText(y) + "  ";
    assert |prefix| == 3;
    assert RowLine(board, y) == prefix + Join(cells, ' ');
    assert RowLine(board, y)[3..] == Join(cells, ' ');
  }

  /** `x, y = map(int, pos.split(","))`: two integers, or `None` where it raises `ValueError`. */
  function ParsePair(pos: string): Option<(int, int)>
  {
    var parts := Split(pos, ',');
    if |parts| == 2 && ParseInt(parts[0]).Some? && ParseInt(parts[1]).Some?
    then Some((ParseInt(parts[0]).value, ParseInt(parts[1]).value))
    else None
  }

  predicate InGrid(p: (int, int))
  {
    0 <= p.0 < GridSize && 0 <= p.1 < GridSize
  }

  /** A typed line as the loop reads it: the stripped text and what it parses to. */
  datatype Typed = Typed(pos: string, pair: Option<(int, int)>)

  function Read(line: string): Typed
  {
    var pos := Strip(line);
    Typed(pos, ParsePair(pos))
  }

  /** The lines as read, one per input line. */
  function ReadAll(inputs: seq<string>): (ts: seq<Typed>)
    ensures |ts| == |inputs|
  {
    if |inputs| == 0 then [] else ReadAll(inputs[..|inputs| - 1]) + [Read(inputs[|inputs| - 1])]
  }

  /** `ts` holds the reads of `inputs`, line by line. */
  ghost predicate ReadFrom(ts: seq<Typed>, inputs: seq<string>)
  {
    |ts| == |inputs| && forall i {:trigger Read(inputs[i])} :: 0 <= i < |inputs| ==> ts[i] == Read(inputs[i])
  }

  lemma ReadAllReadFrom(inputs: seq<string>)
    ensures ReadFrom(ReadAll(inputs), inputs)
  {
    forall i | 0 <= i < |inputs|
      ensures ReadAll(inputs)[i] == Read(inputs[i])
    {
      ReadAllAt(inputs, i);
    }
  }

  lemma {:induction false} ReadAllAt(inputs: seq<string>, k: nat)
    requires k < |inputs|
    ensures ReadAll(inputs)[k] == Read(inputs[k])
  {
    if k < |inputs| - 1 {
      ReadAllAt(inputs[..|inputs| - 1], k);
    }
  }

  /** The verdict on one typed line, in the order the loop checks. */
  datatype Verdict = AlreadyPlaced | Raises | OutOfGrid | Accepted(x: int, y: int)

  /**
   * One pass of the inner loop: the stripped text is looked up as a key
   * before any parsing; then it must parse as two integers, which must lie
   * in the grid.
   */
  function Decide(board: map<BoardKey, Mark>, t: Typed): Verdict
  {
    if TextKey(t.pos) in board then AlreadyPlaced
    else match t.pair
      case None => Raises
      case Some(p) => if InGrid(p) then Accepted(p.0, p.1) else OutOfGrid
  }

  function Judge(board: map<BoardKey, Mark>, line: string): Verdict
  {
    Decide(board, Read(line))
  }

  /**
   * The verdicts partition the lines: a placed key is refused whatever it
   * says, an accepted line parses to an in-grid pair, and the line raises
   * exactly when it is new and does not parse.
   */
  lemma JudgeFacts(board: map<BoardKey, Mark>, line: string)
    ensures Judge(board, line) == AlreadyPlaced <==> TextKey(Strip(line)) in board
    ensures Judge(board, line) == Raises <==> TextKey(Strip(line)) !in board && ParsePair(Strip(line)).None?
    ensures Judge(board, line).Accepted? <==>
              TextKey(Strip(line)) !in board && ParsePair(Strip(line)).Some? && InGrid(ParsePair(Strip(line)).value)
    ensures Judge(board, line).Accepted? ==> ParsePair(Strip(line)) == Some((Judge(board, line).x, Judge(board, line).y))
  {
  }

  /** How the placement ends: three ships placed, a `ValueError`, or no more input. */
  datatype Outcome = AllPlaced(used: nat) | ValueError(used: nat) | EndOfInput

  datatype Run = Run(outcome: Outcome, board: map<BoardKey, Mark>, placedKeys: seq<BoardKey>)

  /**
   * The placement loop on the read lines `ts`, starting with `placed` ships
   * already placed and `used` lines consumed; rejected lines are asked
   * again.
   */
  function Placement(board: map<BoardKey, Mark>, ts: seq<Typed>, used: nat, placed: nat): Run
    requires used <= |ts|
    decreases |ts| - used
  {
    if placed >= ShipCount then Run(AllPlaced(used), board, [])
    else if used == |ts| then Run(EndOfInput, board, [])
    else
      match Decide(board, ts[used])
      case AlreadyPlaced => Placement(board, ts, used + 1, placed)
      case OutOfGrid => Placement(board, ts, used + 1, placed)
      case Raises => Run(ValueError(used + 1), board, [])
      case Accepted(_, _) =>
        var key := TextKey(ts[used].pos);
        var rest := Placement(board[key := Ship], ts, used + 1, placed + 1);
        Run(rest.outcome, rest.board, [key] + rest.placedKeys)
  }

  /** A key a completed placement stores: typed text of two in-grid integers. */
  predicate PlacedText(k: BoardKey)
  {
    k.TextKey? && ParsePair(k.text).Some? && InGrid(ParsePair(k.text).value)
  }

  /** A completed run places exactly the ships still missing, and no run places more. */
  lemma {:induction false} PlacementCount(board: map<BoardKey, Mark>, ts: seq<Typed>, used: nat, placed: nat)
    requires used <= |ts| && placed <= ShipCount
    ensures var r := Placement(board, ts, used, placed);
      && |r.placedKeys| <= ShipCount - placed
      && (r.outcome.AllPlaced? ==> |r.placedKeys| == ShipCount - placed)
    decreases |ts| - used
  {
    if placed < ShipCount && used < |ts| {
      var v := Decide(board, ts[used]);
      if v.AlreadyPlaced? || v.OutOfGrid? {
        PlacementCount(board, ts, used + 1, placed);
      } else if v.Accepted? {
        PlacementCount(board[TextKey(ts[used].pos) := Ship], ts, used + 1, placed + 1);
      }
    }
  }

  /** Every key a run places is new to the board it started from, and placed once. */
  lemma {:induction false} PlacementKeysNew(board: map<BoardKey, Mark>, ts: seq<Typed>, used: nat, placed: nat)
    requires used <= |ts|
    ensures forall k :: k in Placement(board, ts, used, placed).placedKeys ==> k !in board
    ensures Distinct(Placement(board, ts, used, placed).placedKeys)
    decreases |ts| - used
  {
    if placed < ShipCount && used < |ts| {
      var v := Decide(board, ts[used]);
      if v.AlreadyPlaced? || v.OutOfGrid? {
        var r := Placement(board, ts, used + 1, placed);
        assert Placement(board, ts, used, placed) == r;
        PlacementKeysNew(board, ts, used + 1, placed);
      } else if v.Accepted? {
        var key := TextKey(ts[used].pos);
        assert key !in board;
        var rest := Placement(board[key := Ship], ts, used + 1, placed + 1);
        var keys := [key] + rest.placedKeys;
        assert Placement(board, ts, used, placed).placedKeys == keys;
        PlacementKeysNew(board[key := Ship], ts, used + 1, placed + 1);
        forall i, j | 0 <= i < j < |keys|
          ensures keys[i] != keys[j]
        {
          assert keys[j] == rest.placedKeys[j - 1];
          assert rest.placedKeys[j - 1] in rest.placedKeys;
          if i > 0 {
            assert keys[i] == rest.placedKeys[i - 1];
          }
        }
      }
    }
  }

  /** Every key a run places is the text of a read line that parsed to an in-grid pair. */
  lemma {:induction false} PlacementKeysFromLines(board: map<BoardKey, Mark>, ts: seq<Typed>, used: nat, placed: nat)
    requires used <= |ts|
    ensures forall k :: k in Placement(board, ts, used, placed).placedKeys ==>
      k.TextKey? && exists i :: used <= i < |ts| && ts[i].pos == k.text && ts[i].pair.Some? && InGrid(ts[i].pair.value)
    decreases |ts| - used
  {
    if placed < ShipCount && used < |ts| {
      var v := Decide(board, ts[used]);
      if v.AlreadyPlaced? || v.OutOfGrid? {
        assert Placement(board, ts, used, placed) == Placement(board, ts, used + 1, placed);
        PlacementKeysFromLines(board, ts, used + 1, placed);
      } else if v.Accepted? {
        var key := TextKey(ts[used].pos);
        var rest := Placement(board[key := Ship], ts, used + 1, placed + 1);
        assert Placement(board, ts, used, placed).placedKeys == [key] + rest.placedKeys;
        PlacementKeysFromLines(board[key := Ship], ts, used + 1, placed + 1);
      }
    }
  }

  /** Every key placed from typed input is the text of two in-grid integers. */
  lemma PlacedKeysParse(board: map<BoardKey, Mark>, inputs: seq<string>)
    ensures forall k :: k in Placement(board, ReadAll(inputs), 0, 0).placedKeys ==> PlacedText(k)
  {
    var ts := ReadAll(inputs);
    PlacementKeysFromLines(board, ts, 0, 0);
    forall k | k in Placement(board, ts, 0, 0).placedKeys
      ensures PlacedText(k)
    {
      var i :| 0 <= i < |ts| && ts[i].pos == k.text && ts[i].pair.Some? && InGrid(ts[i].pair.value);
      ReadAllAt(inputs, i);
    }
  }

  /** A run stores a ship under each key it places and leaves every other key alone. */
  lemma {:induction false} PlacementBoard(board: map<BoardKey, Mark>, ts: seq<Typed>, used: nat, placed: nat)
    requires used <= |ts|
    ensures var r := Placement(board, ts, used, placed);
      && (forall k :: k in r.board <==> k in board || k in r.placedKeys)
      && (forall k :: k in r.placedKeys ==> k in r.board && r.board[k] == Ship)
      && (forall k :: k in board && k !in r.placedKeys ==> k in r.board && r.board[k] == board[k])
    decreases |ts| - used
  {
    if placed < ShipCount && used < |ts| {
      var v := Decide(board, ts[used]);
      if v.AlreadyPlaced? || v.OutOfGrid? {
        assert Placement(board, ts, used, placed) == Placement(board, ts, used + 1, placed);
        PlacementBoard(board, ts, used + 1, placed);
      } else if v.Accepted? {
        var key := TextKey(ts[used].pos);
        var rest := Placement(board[key := Ship], ts, used + 1, placed + 1);
        assert Placement(board, ts, used, placed) == Run(rest.outcome, rest.board, [key] + rest.placedKeys);
        PlacementBoard(board[key := Ship], ts, used + 1, placed + 1);
        assert forall k :: k in [key] + rest.placedKeys <==> k == key || k in rest.placedKeys;
      }
    }
  }

  /** `update_game_board(pos, opponent=False)` for each placed key, in order. */
  function OwnMoves(keys: seq<BoardKey>): seq<(BoardKey, bool)>
  {
    seq(|keys|, i requires 0 <= i < |keys| => (keys[i], false))
  }

  /** Placing one more key: the board, the winner and the posts after it, from those before it. */
  lemma OwnMovesStep(board: map<BoardKey, Mark>, keys: seq<BoardKey>, key: BoardKey, owner: string,
                     winner: Option<string>, post: ResultPost)
    ensures var init, updates := OwnMoves(keys), OwnMoves(keys + [key]);
      var now := Replay(board, updates);
      && now == AfterMove(Replay(board, init), key, false)
      && VictoryPosts(board, updates, post)
         == VictoryPosts(board, init, post) + (if |now| >= VictoryEntries then [post] else [])
      && WinnerAfter(board, updates, owner, winner)
         == (if |now| >= VictoryEntries then Some(owner) else WinnerAfter(board, init, owner, winner))
  {
    var updates := OwnMoves(keys + [key]);
    assert updates[..|updates| - 1] == OwnMoves(keys);
    VictoryStep(board, updates, owner, winner, post);
  }

  /**
   * `update_game_board(key, False)` on the board, moves, winner and posts
   * `s`: five entries after the move make `owner` the winner and post `post`.
   */
  function PlaceOne(s: Start, owner: string, post: ResultPost, key: BoardKey): Start
  {
    var board := AfterMove(s.board, key, false);
    if |board| >= VictoryEntries then Start(board, s.moves + [key], Some(owner), s.posts + [post])
    else Start(board, s.moves + [key], s.winner, s.posts)
  }

  /** `PlaceOne` for each of `keys` in turn, from `start`. */
  ghost function PlacedState(start: Start, owner: string, post: ResultPost, keys: seq<BoardKey>): Start
    decreases |keys|
  {
    if |keys| == 0 then start
    else PlaceOne(PlacedState(start, owner, post, keys[..|keys| - 1]), owner, post, keys[|keys| - 1])
  }

  /**
   * `update_game_board(key, False)` after `keys`: from the board `board`,
   * winner `w` and posts `ps` that the replay of `keys` describes, the call
   * leaves what the replay of `keys + [key]` describes.
   */
  lemma ReplayAfterKey(board0: map<BoardKey, Mark>, winner0: Option<string>, posts0: seq<ResultPost>, owner: string,
                       post: ResultPost, keys: seq<BoardKey>, key: BoardKey,
                       board: map<BoardKey, Mark>, w: Option<string>, ps: seq<ResultPost>)
    requires board == Replay(board0, OwnMoves(keys))
    requires w == WinnerAfter(board0, OwnMoves(keys), owner, winner0)
    requires ps == posts0 + VictoryPosts(board0, OwnMoves(keys), post)
    ensures var now, updates := AfterMove(board, key, false), OwnMoves(keys + [key]);
      && now == Replay(board0, updates)
      && (if |now| >= VictoryEntries then Some(owner) else w) == WinnerAfter(board0, updates, owner, winner0)
      && (if |now| >= VictoryEntries then ps + [post] else ps) == posts0 + VictoryPosts(board0, updates, post)
  {
    OwnMovesStep(board0, keys, key, owner, winner0, post);
    var earlier := VictoryPosts(board0, OwnMoves(keys), post);
    if |AfterMove(board, key, false)| >= VictoryEntries {
      assert posts0 + (earlier + [post]) == (posts0 + earlier) + [post];
    } else {
      assert earlier + [] == earlier;
    }
  }

  /** Placing `keys` one call at a time leaves what the replay of all of them describes. */
  lemma {:induction false} PlacedStateReplay(board0: map<BoardKey, Mark>, moves0: seq<BoardKey>, winner0: Option<string>,
                                             posts0: seq<ResultPost>, owner: string, post: ResultPost, keys: seq<BoardKey>)
    ensures var s, updates := PlacedState(Start(board0, moves0, winner0, posts0), owner, post, keys), OwnMoves(keys);
      && s.board == Replay(board0, updates)
      && s.moves == moves0 + keys
      && s.winner == WinnerAfter(board0, updates, owner, winner0)
      && s.posts == posts0 + VictoryPosts(board0, updates, post)
    decreases |keys|
  {
    if |keys| > 0 {
      var init, key := keys[..|keys| - 1], keys[|keys| - 1];
      assert init + [key] == keys;
      PlacedStateReplay(board0, moves0, winner0, posts0, owner, post, init);
      var s := PlacedState(Start(board0, moves0, winner0, posts0), owner, post, init);
      assert PlacedState(Start(board0, moves0, winner0, posts0), owner, post, keys) == PlaceOne(s, owner, post, key);
      ReplayAfterKey(board0, winner0, posts0, owner, post, init, key, s.board, s.winner, s.posts);
      assert moves0 + init + [key] == moves0 + keys;
    }
  }

  /** The connection after placing `placedKeys` from `start`, one `update_game_board` each. */
  ghost predicate Placed(conn: BattleshipConnection, start: Start, placedKeys: seq<BoardKey>)
    reads conn
  {
    && conn.Valid()
    && Start(conn.gameBoard, conn.moves, conn.winner, conn.resultPosts)
       == PlacedState(start, conn.username, ResultPost(conn.username, conn.opponent), placedKeys)
  }

  /** The rest of the run from `board` completes the whole run from `board0`. */
  ghost predicate Remaining(board0: map<BoardKey, Mark>, board: map<BoardKey, Mark>, ts: seq<Typed>, used: nat, placed: nat,
                            placedKeys: seq<BoardKey>)
  {
    && used <= |ts|
    && var rest := Placement(board, ts, used, placed);
       Placement(board0, ts, 0, 0) == Run(rest.outcome, rest.board, placedKeys + rest.placedKeys)
  }

  /** The loop state after `used` lines and `placed` ships, against the whole run from `start`. */
  ghost predicate Progress(conn: BattleshipConnection, start: Start, ts: seq<Typed>, used: nat, placed: nat,
                           placedKeys: seq<BoardKey>)
    reads conn
  {
    && Placed(conn, start, placedKeys)
    && (placed > 0 ==> (|conn.gameBoard| >= VictoryEntries ==> conn.winner == Some(conn.username)))
    && Remaining(start.board, conn.gameBoard, ts, used, placed, placedKeys)
  }

  /** A line asked again leaves the rest of the run to the next line. */
  lemma RemainingSkip(board0: map<BoardKey, Mark>, board: map<BoardKey, Mark>, ts: seq<Typed>, used: nat, placed: nat,
                      placedKeys: seq<BoardKey>)
    requires used < |ts| && placed < ShipCount && Remaining(board0, board, ts, used, placed, placedKeys)
    requires Decide(board, ts[used]).AlreadyPlaced? || Decide(board, ts[used]).OutOfGrid?
    ensures Remaining(board0, board, ts, used + 1, placed, placedKeys)
  {
    assert Placement(board, ts, used, placed) == Placement(board, ts, used + 1, placed);
  }

  /** An accepted line places its key and leaves the rest of the run to the next line. */
  lemma RemainingAccept(board0: map<BoardKey, Mark>, board: map<BoardKey, Mark>, ts: seq<Typed>, used: nat, placed: nat,
                        placedKeys: seq<BoardKey>)
    requires used < |ts| && placed < ShipCount && Remaining(board0, board, ts, used, placed, placedKeys)
    requires Decide(board, ts[used]).Accepted?
    ensures var key := TextKey(ts[used].pos);
      Remaining(board0, AfterMove(board, key, false), ts, used + 1, placed + 1, placedKeys + [key])
  {
    var key := TextKey(ts[used].pos);
    var rest := Placement(board[key := Ship], ts, used + 1, placed + 1);
    assert Placement(board, ts, used, placed) == Run(rest.outcome, rest.board, [key] + rest.placedKeys);
    assert placedKeys + ([key] + rest.placedKeys) == (placedKeys + [key]) + rest.placedKeys;
  }

  /** An unparsable line ends the whole run with a `ValueError`. */
  lemma RemainingRaise(board0: map<BoardKey, Mark>, board: map<BoardKey, Mark>, ts: seq<Typed>, used: nat, placed: nat,
                       placedKeys: seq<BoardKey>)
    requires used < |ts| && placed < ShipCount && Remaining(board0, board, ts, used, placed, placedKeys)
    requires Decide(board, ts[used]).Raises?
    ensures Placement(board0, ts, 0, 0) == Run(ValueError(used + 1), board, placedKeys)
  {
    assert placedKeys + [] == placedKeys;
  }

  /** `input(...).strip()` and the parse of the result, for line `used`. */
  method ReadLine(inputs: seq<string>, ghost ts: seq<Typed>, used: nat) returns (t: Typed)
    requires ReadFrom(ts, inputs) && used < |inputs|
    ensures t == ts[used]
  {
    var pos := Strip(inputs[used]);
    t := Typed(pos, ParsePair(pos));
    assert ts[used] == Read(inputs[used]);
  }

  /** One line of the inner loop, read as `t`, with its effect on the connection. */
  method PlaceStep(conn: BattleshipConnection, ghost start: Start, ghost ts: seq<Typed>, used: nat, placed: nat,
                   ghost placedKeys: seq<BoardKey>, t: Typed)
    returns (v: Verdict, placed': nat, ghost placedKeys': seq<BoardKey>)
    requires used < |ts| && ts[used] == t && placed < ShipCount
    requires Progress(conn, start, ts, used, placed, placedKeys)
    modifies conn`gameBoard, conn`moves, conn`winner, conn`resultPosts
    ensures v == Decide(old(conn.gameBoard), t)
    ensures placedKeys' == (if v.Accepted? then placedKeys + [TextKey(t.pos)] else placedKeys)
    ensures placed' == (if v.Accepted? then placed + 1 else placed)
    ensures !v.Accepted? ==>
              conn.gameBoard == old(conn.gameBoard) && conn.moves == old(conn.moves)
              && conn.winner == old(conn.winner) && conn.resultPosts == old(conn.resultPosts)
    ensures v.Raises? ==> Placed(conn, start, placedKeys)
    ensures v.Raises? ==>
              Placement(start.board, ts, 0, 0) == Run(ValueError(used + 1), conn.gameBoard, placedKeys)
    ensures !v.Raises? ==> Progress(conn, start, ts, used + 1, placed', placedKeys')
  {
    placed', placedKeys' := placed, placedKeys;
    v := Decide(conn.gameBoard, t);
    if v.Raises? {
      RemainingRaise(start.board, conn.gameBoard, ts, used, placed, placedKeys);
    } else if !v.Accepted? {
      RemainingSkip(start.board, conn.gameBoard, ts, used, placed, placedKeys);
    } else {
      var key := TextKey(t.pos);
      RemainingAccept(start.board, conn.gameBoard, ts, used, placed, placedKeys);
      conn.UpdateGameBoard(key, false);
      placed', placedKeys' := placed + 1, placedKeys + [key];
      assert placedKeys'[..|placedKeys|] == placedKeys;
    }
  }

  /**
   * `positionner_navires`, over the typed lines `inputs`. The outer `for`
   * counts ships; the inner loop asks again after a line naming a placed
   * key or an out-of-grid cell. A line that does not parse raises out of
   * the function.
   */
  method PositionShips(conn: BattleshipConnection, inputs: seq<string>, ghost ts: seq<Typed>) returns (outcome: Outcome)
    requires conn.Valid() && ReadFrom(ts, inputs)
    modifies conn`gameBoard, conn`moves, conn`winner, conn`resultPosts
    ensures conn.Valid()
    ensures var r := Placement(old(conn.gameBoard), ts, 0, 0);
      outcome == r.outcome && conn.gameBoard == r.board && conn.moves == old(conn.moves) + r.placedKeys
    ensures var updates := OwnMoves(Placement(old(conn.gameBoard), ts, 0, 0).placedKeys);
      && conn.gameBoard == Replay(old(conn.gameBoard), updates)
      && conn.winner == WinnerAfter(old(conn.gameBoard), updates, conn.username, old(conn.winner))
      && conn.resultPosts
         == old(conn.resultPosts) + VictoryPosts(old(conn.gameBoard), updates, ResultPost(conn.username, conn.opponent))
    ensures |conn.gameBoard| < VictoryEntries ==> conn.winner == old(conn.winner) && conn.resultPosts == old(conn.resultPosts)
    ensures outcome.AllPlaced? ==> (|conn.gameBoard| >= VictoryEntries ==> conn.winner == Some(conn.username))
  {
    ghost var start := Start(conn.gameBoard, conn.moves, conn.winner, conn.resultPosts);
    ghost var placedKeys;
    outcome, placedKeys := PlaceLines(conn, start, inputs, ts);
    Finished(conn, old(conn.gameBoard), old(conn.moves), old(conn.winner), old(conn.resultPosts), ts, outcome, placedKeys);
  }

  /** The loops of `positionner_navires`, with the keys they place. */
  method PlaceLines(conn: BattleshipConnection, ghost start: Start, inputs: seq<string>, ghost ts: seq<Typed>)
    returns (outcome: Outcome, ghost placedKeys: seq<BoardKey>)
    requires ReadFrom(ts, inputs) && Progress(conn, start, ts, 0, 0, [])
    modifies conn`gameBoard, conn`moves, conn`winner, conn`resultPosts
    ensures Placed(conn, start, placedKeys)
    ensures Placement(start.board, ts, 0, 0) == Run(outcome, conn.gameBoard, placedKeys)
    ensures outcome.AllPlaced? ==> (|conn.gameBoard| >= VictoryEntries ==> conn.winner == Some(conn.username))
  {
    var used := 0;
    var placed := 0;
    placedKeys := [];
    while placed < ShipCount
      invariant placed <= ShipCount
      invariant Progress(conn, start, ts, used, placed, placedKeys)
      decreases |inputs| - used
    {
      if used == |inputs| {
        assert placedKeys + [] == placedKeys;
        return EndOfInput, placedKeys;
      }
      var t := ReadLine(inputs, ts, used);
      var v;
      v, placed, placedKeys := PlaceStep(conn, start, ts, used, placed, placedKeys, t);
      used := used + 1;
      if v.Raises? {
        return ValueError(used), placedKeys;
      }
    }
    assert placedKeys + [] == placedKeys;
    return AllPlaced(used), placedKeys;
  }

  /** The state a finished run leaves, stated against the whole run from the state it started in. */
  lemma Finished(conn: BattleshipConnection, board0: map<BoardKey, Mark>, moves0: seq<BoardKey>, winner0: Option<string>,
                 posts0: seq<ResultPost>, ts: seq<Typed>, outcome: Outcome, placedKeys: seq<BoardKey>)
    requires Placed(conn, Start(board0, moves0, winner0, posts0), placedKeys)
    requires Placement(board0, ts, 0, 0) == Run(outcome, conn.gameBoard, placedKeys)
    ensures conn.Valid()
    ensures var r := Placement(board0, ts, 0, 0);
      outcome == r.outcome && conn.gameBoard == r.board && conn.moves == moves0 + r.placedKeys
    ensures var updates := OwnMoves(Placement(board0, ts, 0, 0).placedKeys);
      && conn.gameBoard == Replay(board0, updates)
      && conn.winner == WinnerAfter(board0, updates, conn.username, winner0)
      && conn.resultPosts == posts0 + VictoryPosts(board0, updates, ResultPost(conn.username, conn.opponent))
    ensures |conn.gameBoard| < VictoryEntries ==> conn.winner == winner0 && conn.resultPosts == posts0
  {
    var post := ResultPost(conn.username, conn.opponent);
    PlacedStateReplay(board0, moves0, winner0, posts0, conn.username, post, placedKeys);
    if |conn.gameBoard| < VictoryEntries {
      NoVictoryPosts(board0, OwnMoves(placedKeys), post);
    }
  }

  /** Two comma-free texts joined by a comma parse to the pair of their `int` values. */
  lemma ParsePairOfParts(text: string, a: string, b: string, x: int, y: int)
    requires text == a + "," + b
    requires forall i :: 0 <= i < |a| ==> a[i] != ','
    requires forall i :: 0 <= i < |b| ==> b[i] != ','
    requires ParseInt(a) == Some(x) && ParseInt(b) == Some(y)
    ensures ParsePair(text) == Some((x, y))
  {
    SplitPair(a, b, ',');
    assert text == a + [','] + b;
  }

  /** `"x,y"` for two naturals parses back to `(x, y)`. */
  lemma ParsePairCellText(x: nat, y: nat)
    ensures ParsePair(CellText(x, y)) == Some((x, y))
  {
    ParseIntText(x);
    ParseIntText(y);
    ParsePairOfParts(CellText(x, y), NatText(x), NatText(y), x, y);
  }

  /** `"a, b"` is `a`, a comma, and the comma-free `" b"`. */
  lemma SpaceBeforeSecond(text: string, a: string, b: string)
    requires text == a + ", " + b
    requires forall i :: 0 <= i < |b| ==> b[i] != ','
    ensures text == a + "," + ([' '] + b)
    ensures forall j :: 0 <= j < |[' '] + b| ==> ([' '] + b)[j] != ','
  {
    var second := [' '] + b;
    assert forall j :: 1 <= j < |second| ==> second[j] == b[j - 1];
  }

  /** A space after the comma changes nothing: `int()` strips it. */
  lemma ParsePairSpacedParts(text: string, a: string, b: string, x: int, y: int)
    requires text == a + ", " + b
    requires forall i :: 0 <= i < |a| ==> a[i] != ','
    requires forall i :: 0 <= i < |b| ==> b[i] != ','
    requires ParseInt(a) == Some(x) && ParseInt(b) == Some(y)
    ensures ParsePair(text) == Some((x, y))
  {
    SpaceBeforeSecond(text, a, b);
    ParseIntLeadingSpace(' ', b);
    ParsePairOfParts(text, a, [' '] + b, x, y);
  }

  /** `"x, y"`, with a space after the comma, parses to the same pair as `"x,y"`. */
  lemma ParsePairSpaced(x: nat, y: nat)
    ensures ParsePair(NatText(x) + ", " + NatText(y)) == Some((x, y))
  {
    ParseIntText(x);
    ParseIntText(y);
    ParsePairSpacedParts(NatText(x) + ", " + NatText(y), NatText(x), NatText(y), x, y);
  }

  /** A trimmed new line that parses to an in-grid pair is accepted as that cell. */
  lemma TrimmedLineAccepted(board: map<BoardKey, Mark>, line: string, x: int, y: int)
    requires Strip(line) == line && TextKey(line) !in board
    requires ParsePair(line) == Some((x, y)) && InGrid((x, y))
    ensures Judge(board, line) == Accepted(x, y)
  {
  }

  /** The text of an in-grid cell as the display looks it up is accepted when typed. */
  lemma DisplayedKeyAccepted(board: map<BoardKey, Mark>, x: nat, y: nat)
    requires x < GridSize && y < GridSize && TextKey(CellText(x, y)) !in board
    ensures Judge(board, CellText(x, y)) == Accepted(x, y)
  {
    StripTrimmed(CellText(x, y));
    ParsePairCellText(x, y);
    TrimmedLineAccepted(board, CellText(x, y), x, y);
  }

  /** The spaced text and the displayed text of a cell differ in length. */
  lemma SpacedDiffers(x: nat, y: nat)
    ensures NatText(x) + ", " + NatText(y) != CellText(x, y)
  {
    assert |NatText(x) + ", " + NatText(y)| == |CellText(x, y)| + 1;
  }

  /** The spaced text of a cell has nothing to strip. */
  lemma SpacedTrimmed(x: nat, y: nat)
    ensures Strip(NatText(x) + ", " + NatText(y)) == NatText(x) + ", " + NatText(y)
  {
    var spaced := NatText(x) + ", " + NatText(y);
    assert spaced[0] == NatText(x)[0];
    assert spaced[|spaced| - 1] == NatText(y)[|NatText(y)| - 1];
    StripTrimmed(spaced);
  }

  /** Two different trimmed lines naming the same new cell are both accepted, one after the other. */
  lemma TwoLinesAccepted(board: map<BoardKey, Mark>, first: string, second: string, x: int, y: int)
    requires first != second && InGrid((x, y))
    requires Strip(first) == first && ParsePair(first) == Some((x, y)) && TextKey(first) !in board
    requires Strip(second) == second && ParsePair(second) == Some((x, y)) && TextKey(second) !in board
    ensures Judge(board, first) == Accepted(x, y)
    ensures Judge(board[TextKey(first) := Ship], second) == Accepted(x, y)
  {
    TrimmedLineAccepted(board, first, x, y);
    TrimmedLineAccepted(board[TextKey(first) := Ship], second, x, y);
  }

  /**
   * The duplicate check compares typed text: "x,y" and then "x, y" are both
   * accepted although they name the same cell, which then holds two ships.
   */
  lemma SameCellTwice(board: map<BoardKey, Mark>, x: nat, y: nat)
    requires x < GridSize && y < GridSize
    requires TextKey(CellText(x, y)) !in board && TextKey(NatText(x) + ", " + NatText(y)) !in board
    ensures Judge(board, CellText(x, y)) == Accepted(x, y)
    ensures Judge(board[TextKey(CellText(x, y)) := Ship], NatText(x) + ", " + NatText(y)) == Accepted(x, y)
  {
    StripTrimmed(CellText(x, y));
    ParsePairCellText(x, y);
    SpacedDiffers(x, y);
    SpacedTrimmed(x, y);
    ParsePairSpaced(x, y);
    TwoLinesAccepted(board, CellText(x, y), NatText(x) + ", " + NatText(y), x, y);
  }
}
