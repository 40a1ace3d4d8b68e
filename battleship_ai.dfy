/**
 * The computer player: `SmartAI` (hunt around the last hit, otherwise scan
 * a shuffled list of all cells), the handler that records a received shot,
 * and the random placement of three ships. The shuffle and the random
 * draws are parameters.
 */
module BattleshipAI {
  import opened Wrappers
  import opened Connection

  type Cell = (int, int)

  const GridSize := 5

  predicate InGrid(c: Cell)
  {
    0 <= c.0 < GridSize && 0 <= c.1 < GridSize
  }

  /** The 25 cells, `x` outer and `y` inner, before the shuffle. */
  function GridCells(): (cells: seq<Cell>)
    ensures |cells| == GridSize * GridSize
  {
    seq(25, i => (i / 5, i % 5))
  }

  /** The listed cells are exactly the grid, each once. */
  lemma GridCellsExact()
    ensures forall c :: c in GridCells() <==> InGrid(c)
    ensures forall i, j :: 0 <= i < j < |GridCells()| ==> GridCells()[i] != GridCells()[j]
  {
    forall c | InGrid(c)
      ensures c in GridCells()
    {
      assert GridCells()[c.0 * 5 + c.1] == c;
    }
  }

  /** The board key a cell is stored under. */
  function KeyOf(c: Cell): BoardKey
  {
    CellKey(c.0, c.1)
  }

  function Left(p: Cell): Cell { (p.0 - 1, p.1) }
  function Right(p: Cell): Cell { (p.0 + 1, p.1) }
  function Up(p: Cell): Cell { (p.0, p.1 - 1) }
  function Down(p: Cell): Cell { (p.0, p.1 + 1) }

  /** Position of a neighbour in the order left, right, up, down. */
  function Rank(p: Cell, n: Cell): int
  {
    if n == Left(p) then 0 else if n == Right(p) then 1 else if n == Up(p) then 2 else 3
  }

  predicate Adjacent(p: Cell, n: Cell)
  {
    (n.0 == p.0 && (n.1 == p.1 - 1 || n.1 == p.1 + 1)) || (n.1 == p.1 && (n.0 == p.0 - 1 || n.0 == p.0 + 1))
  }

  /**
   * `get_neighbors`: the orthogonal neighbours inside the grid, in the
   * order left, right, up, down; an in-grid cell has between 2 and 4.
   */
  function Neighbors(p: Cell): (r: seq<Cell>)
    ensures forall n :: n in r <==> InGrid(n) && Adjacent(p, n)
    ensures forall i, j :: 0 <= i < j < |r| ==> Rank(p, r[i]) < Rank(p, r[j])
    ensures InGrid(p) ==> 2 <= |r| <= 4
  {
    NeighborMembers(p);
    NeighborOrder(p);
    NeighborCount(p);
    NeighborList(p)
  }

  /** `[c]` when `c` is inside the grid, otherwise nothing. */
  function Keep(c: Cell): seq<Cell>
  {
    if InGrid(c) then [c] else []
  }

  function NeighborList(p: Cell): seq<Cell>
  {
    Keep(Left(p)) + Keep(Right(p)) + Keep(Up(p)) + Keep(Down(p))
  }

  lemma NeighborMembers(p: Cell)
    ensures forall n :: n in NeighborList(p) <==> InGrid(n) && Adjacent(p, n)
  {
    forall n
      ensures n in NeighborList(p) <==> InGrid(n) && Adjacent(p, n)
    {
      assert n in NeighborList(p) <==> n in Keep(Left(p)) || n in Keep(Right(p)) || n in Keep(Up(p)) || n in Keep(Down(p));
    }
  }

  lemma NeighborOrder(p: Cell)
    ensures forall i, j :: 0 <= i < j < |NeighborList(p)| ==> Rank(p, NeighborList(p)[i]) < Rank(p, NeighborList(p)[j])
  {
    var a, b, c, d := Keep(Left(p)), Keep(Right(p)), Keep(Up(p)), Keep(Down(p));
    var r := NeighborList(p);
    assert forall k :: 0 <= k < |a| ==> Rank(p, a[k]) == 0;
    assert forall k :: 0 <= k < |b| ==> Rank(p, b[k]) == 1;
    assert forall k :: 0 <= k < |c| ==> Rank(p, c[k]) == 2;
    assert forall k :: 0 <= k < |d| ==> Rank(p, d[k]) == 3;
    assert forall k :: 0 <= k < |r| ==> Rank(p, r[k]) == RankAt(|a|, |b|, |c|, k);
  }

  /** The rank of position `k` in a list made of blocks of the given sizes, one rank per block. */
  function RankAt(na: nat, nb: nat, nc: nat, k: nat): int
  {
    if k < na then 0 else if k < na + nb then 1 else if k < na + nb + nc then 2 else 3
  }

  lemma NeighborCount(p: Cell)
    ensures InGrid(p) ==> 2 <= |NeighborList(p)| <= 4
  {
    if InGrid(p) {
      assert InGrid(Left(p)) || InGrid(Right(p));
      assert InGrid(Up(p)) || InGrid(Down(p));
    }
  }

  /** Index of the first cell of `cs` not in `visited`, or `|cs|`. */
  function FirstUnvisited(cs: seq<Cell>, visited: set<Cell>): (i: nat)
    ensures i <= |cs|
    ensures forall j :: 0 <= j < i ==> cs[j] in visited
    ensures i < |cs| ==> cs[i] !in visited
  {
    if |cs| == 0 || cs[0] !in visited then 0 else 1 + FirstUnvisited(cs[1..], visited)
  }

  /** The cells tried first: the neighbours of the most recent hit, if any. */
  function HuntCells(lastHits: seq<Cell>): seq<Cell>
  {
    if |lastHits| > 0 then Neighbors(lastHits[|lastHits| - 1]) else []
  }

  /** The move `choose_next_move` returns for the given state. */
  function Choice(lastHits: seq<Cell>, visited: set<Cell>, toTry: seq<Cell>): Option<Cell>
  {
    var hunt := HuntCells(lastHits);
    var h := FirstUnvisited(hunt, visited);
    if h < |hunt| then Some(hunt[h])
    else
      var k := FirstUnvisited(toTry, visited);
      if k < |toTry| then Some(toTry[k]) else None
  }

  /**
   * When the scan list holds the whole grid, a chosen move is an unvisited
   * grid cell, a hunt neighbour is preferred whenever one is unvisited, and
   * there is no move exactly when every grid cell has been visited.
   */
  lemma ChoiceFacts(lastHits: seq<Cell>, visited: set<Cell>, toTry: seq<Cell>)
    requires multiset(toTry) == multiset(GridCells())
    ensures var m := Choice(lastHits, visited, toTry);
      && (m.Some? ==> InGrid(m.value) && m.value !in visited)
      && (m.None? <==> forall c :: InGrid(c) ==> c in visited)
      && ((exists n :: n in HuntCells(lastHits) && n !in visited) ==> m.Some? && m.value in HuntCells(lastHits))
  {
    GridCellsExact();
    assert forall c :: c in toTry <==> c in multiset(GridCells());
    var hunt := HuntCells(lastHits);
    var h := FirstUnvisited(hunt, visited);
    if h == |hunt| {
      var k := FirstUnvisited(toTry, visited);
      if k == |toTry| {
        forall c | InGrid(c)
          ensures c in visited
        {
          assert c in toTry;
          var j :| 0 <= j < |toTry| && toTry[j] == c;
        }
      } else {
        assert toTry[k] in toTry;
      }
    }
  }

  class SmartAI {
    var posVisited: set<Cell>
    var posToTry: seq<Cell>
    var lastHits: seq<Cell>

    /** The scan list is a permutation of the grid, and every hit was visited. */
    ghost predicate Valid()
      reads this
    {
      && multiset(posToTry) == multiset(GridCells())
      && (forall c :: c in lastHits ==> c in posVisited)
    }

    /** `__init__`, given the order `random.shuffle` produced. */
    constructor (order: seq<Cell>)
      requires multiset(order) == multiset(GridCells())
      ensures Valid()
      ensures posVisited == {} && posToTry == order && lastHits == []
    {
      posVisited, posToTry, lastHits := {}, order, [];
    }

    /** `choose_next_move`: reads the state and changes nothing. */
    method ChooseNextMove() returns (move: Option<Cell>)
      ensures move == Choice(lastHits, posVisited, posToTry)
    {
      if |lastHits| > 0 {
        var neighbors := Neighbors(lastHits[|lastHits| - 1]);
        var i := 0;
        while i < |neighbors|
          invariant 0 <= i <= |neighbors|
          invariant forall j :: 0 <= j < i ==> neighbors[j] in posVisited
        {
          if neighbors[i] !in posVisited {
            return Some(neighbors[i]);
          }
          i := i + 1;
        }
      }
      var k := 0;
      while k < |posToTry|
        invariant 0 <= k <= |posToTry|
        invariant forall j :: 0 <= j < k ==> posToTry[j] in posVisited
      {
        if posToTry[k] !in posVisited {
          return Some(posToTry[k]);
        }
        k := k + 1;
      }
      return None;
    }

    /** `mark_result`: the move is visited, and remembered as a hit on "HIT". */
    method MarkResult(move: Cell, result: string)
      requires Valid()
      modifies this`posVisited, this`lastHits
      ensures Valid()
      ensures posVisited == old(posVisited) + {move}
      ensures lastHits == if result == "HIT" then old(lastHits) + [move] else old(lastHits)
    {
      posVisited := posVisited + {move};
      if result == "HIT" {
        lastHits := lastHits + [move];
      }
    }
  }

  /**
   * `custom_handle`, the listener installed by the AI. `incoming` is the
   * received pair, or `None` when the data is not JSON or has no `move`
   * (the exception is caught and nothing changes). The cell is marked as
   * `update_game_board` would for an opponent's move, and the same result
   * is passed to the AI.
   */
  method CustomHandle(conn: BattleshipConnection, ai: SmartAI, incoming: Option<Cell>)
    requires conn.Valid() && ai.Valid()
    modifies conn`gameBoard, conn`moves, conn`winner, conn`resultPosts, ai`posVisited, ai`lastHits
    ensures conn.Valid() && ai.Valid()
    ensures incoming.None? ==>
      && conn.gameBoard == old(conn.gameBoard) && conn.moves == old(conn.moves)
      && conn.winner == old(conn.winner) && conn.resultPosts == old(conn.resultPosts)
      && ai.posVisited == old(ai.posVisited) && ai.lastHits == old(ai.lastHits)
    ensures incoming.Some? ==>
      var m := incoming.value;
      var wasShip := KeyOf(m) in old(conn.gameBoard) && old(conn.gameBoard)[KeyOf(m)] == Ship;
      && conn.gameBoard == AfterMove(old(conn.gameBoard), KeyOf(m), true)
      && conn.moves == old(conn.moves) + [KeyOf(m)]
      && ai.posVisited == old(ai.posVisited) + {m}
      && ai.lastHits == (if wasShip then old(ai.lastHits) + [m] else old(ai.lastHits))
      && (|conn.gameBoard| >= VictoryEntries ==>
            conn.winner == Some(conn.username) && conn.resultPosts == old(conn.resultPosts) + [ResultPost(conn.username, conn.opponent)])
      && (|conn.gameBoard| < VictoryEntries ==> conn.winner == old(conn.winner) && conn.resultPosts == old(conn.resultPosts))
  {
    if incoming.None? {
      return;
    }
    var move := incoming.value;
    var key := KeyOf(move);
    var result := "MISS";
    if key in conn.gameBoard && conn.gameBoard[key] == Ship {
      conn.gameBoard := conn.gameBoard[key := Hit];
      result := "HIT";
    } else {
      conn.gameBoard := conn.gameBoard[key := Miss];
    }
    ai.MarkResult(move, result);
    conn.moves := conn.moves + [key];
    conn.CheckVictory();
  }

  /** The distinct cells among `draws`. */
  function Drawn(draws: seq<Cell>): set<Cell>
  {
    set i | 0 <= i < |draws| :: draws[i]
  }

  /**
   * The draw loop of `auto_place_ships`: `randint` pairs are added to a set
   * until it holds three cells. `draws` are the pairs drawn, each in the
   * grid; they must contain three distinct cells for the loop to stop.
   */
  method DrawShips(draws: seq<Cell>) returns (ships: set<Cell>)
    requires forall i :: 0 <= i < |draws| ==> InGrid(draws[i])
    requires |Drawn(draws)| >= 3
    ensures |ships| == 3
    ensures ships <= Drawn(draws)
    ensures forall c :: c in ships ==> InGrid(c)
    ensures exists n :: 0 <= n <= |draws| && ships == Drawn(draws[..n])
  {
    ships := {};
    var i := 0;
    while |ships| < 3
      invariant 0 <= i <= |draws|
      invariant ships == Drawn(draws[..i])
      invariant i == |draws| ==> ships == Drawn(draws)
      invariant |ships| <= 3
      decreases |draws| - i
    {
      assert Drawn(draws[..i + 1]) == Drawn(draws[..i]) + {draws[i]} by {
        assert forall j :: 0 <= j < i ==> draws[..i + 1][j] == draws[..i][j];
      }
      ships := ships + {draws[i]};
      i := i + 1;
      if i == |draws| {
        assert draws[..i] == draws;
      }
    }
  }

  /** The keys of a sequence of cells, in order; only the length is stated here, the contents by `PlacementsFacts`. */
  function KeySeq(cells: seq<Cell>): (keys: seq<BoardKey>)
    ensures |keys| == |cells|
  {
    if |cells| == 0 then [] else KeySeq(cells[..|cells| - 1]) + [KeyOf(cells[|cells| - 1])]
  }

  /** Placing each of `cells` as an own move, in order; `PlacementsFacts` states which moves these are. */
  function Placements(cells: seq<Cell>): (updates: seq<(BoardKey, bool)>)
    ensures |updates| == |cells|
  {
    if |cells| == 0 then [] else Placements(cells[..|cells| - 1]) + [(KeyOf(cells[|cells| - 1]), false)]
  }

  /** One more placement extends the replayed board and the move list by that cell. */
  lemma PlacementStep(board: map<BoardKey, Mark>, order: seq<Cell>, i: nat)
    requires i < |order|
    ensures Replay(board, Placements(order[..i + 1])) == AfterMove(Replay(board, Placements(order[..i])), KeyOf(order[i]), false)
    ensures KeySeq(order[..i + 1]) == KeySeq(order[..i]) + [KeyOf(order[i])]
    ensures Placements(order[..i + 1]) == Placements(order[..i]) + [(KeyOf(order[i]), false)]
  {
    assert order[..i + 1][..i] == order[..i];
  }

  /** Placements are own moves, aimed at exactly the cells' keys. */
  lemma {:induction false} PlacementsFacts(cells: seq<Cell>)
    ensures forall i :: 0 <= i < |Placements(cells)| ==> !Placements(cells)[i].1
    ensures forall c :: c in cells ==> KeyOf(c) in Targets(Placements(cells))
    ensures forall k :: k in Targets(Placements(cells)) ==> k in KeySeq(cells)
  {
    if |cells| > 0 {
      var init := cells[..|cells| - 1];
      PlacementsFacts(init);
      assert Placements(cells)[..|cells| - 1] == Placements(init);
      forall c | c in cells
        ensures KeyOf(c) in Targets(Placements(cells))
      {
        if c != cells[|cells| - 1] {
          var j :| 0 <= j < |cells| && cells[j] == c;
          assert c == init[j];
        }
      }
    }
  }

  /** The order in which a set of cells is iterated; any order will do. */
  method IterationOrder(cells: set<Cell>) returns (order: seq<Cell>)
    ensures |order| == |cells| && (forall c :: c in order <==> c in cells)
  {
    var rest := cells;
    order := [];
    while rest != {}
      invariant rest <= cells
      invariant |order| + |rest| == |cells|
      invariant forall c :: c in order <==> c in cells - rest
      decreases rest
    {
      var pos :| pos in rest;
      order := order + [pos];
      rest := rest - {pos};
    }
  }


  /** After the first `i` placements of `order` from `start`. */
  ghost predicate PlacedUpTo(conn: BattleshipConnection, start: Start, order: seq<Cell>, i: nat)
    reads conn
    requires i <= |order|
  {
    var updates := Placements(order[..i]);
    && conn.Valid()
    && conn.gameBoard == Replay(start.board, updates)
    && conn.moves == start.moves + KeySeq(order[..i])
    && conn.winner == WinnerAfter(start.board, updates, conn.username, start.winner)
    && conn.resultPosts == start.posts + VictoryPosts(start.board, updates, ResultPost(conn.username, conn.opponent))
  }

  /** One iteration of the placement loop. */
  method PlaceNext(conn: BattleshipConnection, ghost start: Start, order: seq<Cell>, i: nat)
    requires i < |order| && PlacedUpTo(conn, start, order, i)
    modifies conn`gameBoard, conn`moves, conn`winner, conn`resultPosts
    ensures PlacedUpTo(conn, start, order, i + 1)
  {
    var key := KeyOf(order[i]);
    ghost var before := Start(conn.gameBoard, conn.moves, conn.winner, conn.resultPosts);
    conn.UpdateGameBoard(key, false);
    PlacedAfterStep(conn, start, order, i, before);
  }

  /** The state after placing `order[i]` is the state after the first `i + 1` placements. */
  lemma PlacedAfterStep(conn: BattleshipConnection, start: Start, order: seq<Cell>, i: nat, before: Start)
    requires i < |order| && conn.Valid()
    requires var updates := Placements(order[..i]);
      && before.board == Replay(start.board, updates)
      && before.moves == start.moves + KeySeq(order[..i])
      && before.winner == WinnerAfter(start.board, updates, conn.username, start.winner)
      && before.posts == start.posts + VictoryPosts(start.board, updates, ResultPost(conn.username, conn.opponent))
    requires conn.gameBoard == AfterMove(before.board, KeyOf(order[i]), false)
    requires conn.moves == before.moves + [KeyOf(order[i])]
    requires |conn.gameBoard| >= VictoryEntries ==>
      conn.winner == Some(conn.username) && conn.resultPosts == before.posts + [ResultPost(conn.username, conn.opponent)]
    requires |conn.gameBoard| < VictoryEntries ==> conn.winner == before.winner && conn.resultPosts == before.posts
    ensures PlacedUpTo(conn, start, order, i + 1)
  {
    PlacementStep(start.board, order, i);
    VictoryAfterPlacement(start.board, order, i, conn.username, start.winner, ResultPost(conn.username, conn.opponent));
  }

  /** The winner and the posts after placement `i + 1`, from those after placement `i`. */
  lemma VictoryAfterPlacement(board: map<BoardKey, Mark>, order: seq<Cell>, i: nat, owner: string, winner: Option<string>, post: ResultPost)
    requires i < |order|
    ensures var updates, init := Placements(order[..i + 1]), Placements(order[..i]);
      var now := Replay(board, updates);
      && VictoryPosts(board, updates, post)
         == VictoryPosts(board, init, post) + (if |now| >= VictoryEntries then [post] else [])
      && WinnerAfter(board, updates, owner, winner)
         == (if |now| >= VictoryEntries then Some(owner) else WinnerAfter(board, init, owner, winner))
  {
    PlacementStep(board, order, i);
    var updates := Placements(order[..i + 1]);
    assert updates[..|updates| - 1] == Placements(order[..i]);
    VictoryStep(board, updates, owner, winner, post);
  }

  /**
   * The placement loop of `auto_place_ships`: each cell of `ships` is
   * placed with `update_game_board(pos, opponent=False)`, in the set's
   * iteration order, which `order` returns.
   */
  method PlaceShips(conn: BattleshipConnection, ships: set<Cell>) returns (order: seq<Cell>)
    requires conn.Valid()
    modifies conn`gameBoard, conn`moves, conn`winner, conn`resultPosts
    ensures conn.Valid()
    ensures |order| == |ships| && (forall c :: c in order <==> c in ships)
    ensures conn.gameBoard == Replay(old(conn.gameBoard), Placements(order))
    ensures conn.moves == old(conn.moves) + KeySeq(order)
    ensures conn.winner == WinnerAfter(old(conn.gameBoard), Placements(order), conn.username, old(conn.winner))
    ensures conn.resultPosts
            == old(conn.resultPosts) + VictoryPosts(old(conn.gameBoard), Placements(order), ResultPost(conn.username, conn.opponent))
    ensures ships != {} ==> (|conn.gameBoard| >= VictoryEntries ==> conn.winner == Some(conn.username))
  {
    order := IterationOrder(ships);
    ghost var start := Start(conn.gameBoard, conn.moves, conn.winner, conn.resultPosts);
    assert order[..0] == [];
    for i := 0 to |order|
      invariant PlacedUpTo(conn, start, order, i)
    {
      PlaceNext(conn, start, order, i);
    }
    assert order[..|order|] == order;
    if ships != {} {
      assert order[0] in ships;
    }
  }

  /** `auto_place_ships`: three distinct grid cells drawn, then each placed as a ship. */
  method AutoPlaceShips(conn: BattleshipConnection, draws: seq<Cell>) returns (ships: set<Cell>, order: seq<Cell>)
    requires conn.Valid()
    requires forall i :: 0 <= i < |draws| ==> InGrid(draws[i])
    requires |Drawn(draws)| >= 3
    modifies conn`gameBoard, conn`moves, conn`winner, conn`resultPosts
    ensures conn.Valid()
    ensures |ships| == 3 && ships <= Drawn(draws) && forall c :: c in ships ==> InGrid(c)
    ensures |order| == 3 && (forall c :: c in order <==> c in ships)
    ensures conn.gameBoard == Replay(old(conn.gameBoard), Placements(order))
    ensures conn.moves == old(conn.moves) + KeySeq(order)
    ensures forall c :: c in ships ==> KeyOf(c) in conn.gameBoard && conn.gameBoard[KeyOf(c)] == Ship
    ensures forall k :: k in old(conn.gameBoard) && k !in KeySeq(order) ==> k in conn.gameBoard && conn.gameBoard[k] == old(conn.gameBoard)[k]
    ensures |conn.gameBoard| >= VictoryEntries ==> conn.winner == Some(conn.username)
    ensures conn.resultPosts
            == old(conn.resultPosts) + VictoryPosts(old(conn.gameBoard), Placements(order), ResultPost(conn.username, conn.opponent))
    ensures |conn.gameBoard| < VictoryEntries ==> conn.winner == old(conn.winner) && conn.resultPosts == old(conn.resultPosts)
  {
    ships := DrawShips(draws);
    order := PlaceShips(conn, ships);
    PlacementsFacts(order);
    OwnMovesPlaceShips(old(conn.gameBoard), Placements(order));
    if |conn.gameBoard| < VictoryEntries {
      NoVictoryPosts(old(conn.gameBoard), Placements(order), ResultPost(conn.username, conn.opponent));
    }
  }
}
