/**
 * The graphical client: the board layout, the mapping from a mouse
 * position to a grid cell, and the placing/firing state that mouse clicks
 * advance. Drawing and the event queue are not modelled; a click is a
 * call of `Click`.
 */
module PygameClient {
  import opened Wrappers
  import opened Connection

  const GridSize := 5
  const CellSize := 80
  const Margin := 50
  const Width := GridSize * CellSize + Margin * 2
  const Height := GridSize * CellSize * 2 + Margin * 3

  /** Top edge of the player's own board. */
  const OwnTop := Margin
  /** Top edge of the opponent's board, `HEIGHT // 2 + MARGIN // 2`. */
  const OpponentTop := Height / 2 + Margin / 2

  /**
   * `get_cell_from_pos`: the cell under pixel `(x, y)` of a board whose top
   * edge is `top`. Python's `//` rounds toward minus infinity, as Dafny's
   * `/` does for a positive divisor.
   */
  function CellFromPos(x: int, y: int, top: int): (r: Option<(int, int)>)
    ensures r.Some? <==> Margin <= x < Margin + GridSize * CellSize && top <= y < top + GridSize * CellSize
    ensures r.Some? ==> 0 <= r.value.0 < GridSize && 0 <= r.value.1 < GridSize
    ensures r.Some? ==> Margin + r.value.0 * CellSize <= x < Margin + (r.value.0 + 1) * CellSize
    ensures r.Some? ==> top + r.value.1 * CellSize <= y < top + (r.value.1 + 1) * CellSize
  {
    var gx := (x - Margin) / CellSize;
    var gy := (y - top) / CellSize;
    if 0 <= gx < GridSize && 0 <= gy < GridSize then Some((gx, gy)) else None
  }

  /**
   * Every pixel of the square `draw_board` paints for cell `(cx, cy)` maps
   * back to that cell.
   */
  lemma CellSquareMapsBack(cx: int, cy: int, top: int, px: int, py: int)
    requires 0 <= cx < GridSize && 0 <= cy < GridSize
    requires Margin + cx * CellSize <= px < Margin + cx * CellSize + CellSize
    requires top + cy * CellSize <= py < top + cy * CellSize + CellSize
    ensures CellFromPos(px, py, top) == Some((cx, cy))
  {
    DivInSquare(px - Margin, cx);
    DivInSquare(py - top, cy);
  }

  lemma DivInSquare(d: int, c: int)
    requires c * CellSize <= d < c * CellSize + CellSize
    ensures d / CellSize == c
  {
  }

  /** Floor division: the column just left of the grid gives -1, hence no cell. */
  lemma JustLeftOfGrid(y: int, top: int)
    ensures (Margin - 1 - Margin) / CellSize == -1
    ensures CellFromPos(Margin - 1, y, top) == None
  {
  }

  /**
   * The two boards lie one above the other inside the window, with the
   * same horizontal extent, and do not overlap.
   */
  lemma BoardsLayout()
    ensures Width == 500 && Height == 950 && OpponentTop == 500
    ensures 0 <= Margin && Margin + GridSize * CellSize <= Width
    ensures 0 <= OwnTop && OwnTop + GridSize * CellSize <= OpponentTop
    ensures OpponentTop + GridSize * CellSize <= Height
    ensures forall x, y :: CellFromPos(x, y, OwnTop).Some? ==> CellFromPos(x, y, OpponentTop).None?
  {
  }

  /** The state of `game_loop` that clicks change. */
  class GameLoop {
    const conn: BattleshipConnection
    var placing: bool
    var shipsPlaced: int
    /** The cells passed to `envoyer_coup`. */
    var shotsSent: seq<(int, int)>

    /** Placement lasts exactly until the third ship. */
    ghost predicate Valid()
      reads this, conn
    {
      conn.Valid() && 0 <= shipsPlaced <= 3 && (placing <==> shipsPlaced < 3)
    }

    constructor (conn: BattleshipConnection)
      requires conn.Valid()
      ensures Valid()
      ensures this.conn == conn && placing && shipsPlaced == 0 && shotsSent == []
    {
      this.conn := conn;
      placing, shipsPlaced, shotsSent := true, 0, [];
    }

    /**
     * A mouse click at `(x, y)`. While placing, a click on an own cell not
     * already holding a ship places one, and the third placement ends the
     * placing phase and starts the game. Afterwards a click on the
     * opponent's board fires, only on the player's turn while `winner` is
     * falsy (no winner yet, or an empty winner name),
     * and ends the turn.
     */
    method Click(x: int, y: int)
      requires Valid()
      modifies this`placing, this`shipsPlaced, this`shotsSent
      modifies conn`gameBoard, conn`moves, conn`winner, conn`resultPosts, conn`myTurn, conn`listening
      ensures Valid()
      ensures old(placing) ==>
        var cell := CellFromPos(x, y, OwnTop);
        var counted := cell.Some? && !(CellKey(cell.value.0, cell.value.1) in old(conn.gameBoard)
                                       && old(conn.gameBoard)[CellKey(cell.value.0, cell.value.1)] == Ship);
        && shipsPlaced == (if counted then old(shipsPlaced) + 1 else old(shipsPlaced))
        && conn.gameBoard == (if counted then AfterMove(old(conn.gameBoard), CellKey(cell.value.0, cell.value.1), false)
                              else old(conn.gameBoard))
        && conn.moves == (if counted then old(conn.moves) + [CellKey(cell.value.0, cell.value.1)] else old(conn.moves))
        && (counted && |conn.gameBoard| >= VictoryEntries ==>
              conn.winner == Some(conn.username)
              && conn.resultPosts == old(conn.resultPosts) + [ResultPost(conn.username, conn.opponent)])
        && (!counted || |conn.gameBoard| < VictoryEntries ==>
              conn.winner == old(conn.winner) && conn.resultPosts == old(conn.resultPosts))
        && conn.listening == (old(conn.listening) || (counted && shipsPlaced == 3))
        && shotsSent == old(shotsSent) && conn.myTurn == old(conn.myTurn)
      ensures !old(placing) ==>
        var fires := old(conn.myTurn) && !HasWinner(old(conn.winner)) && CellFromPos(x, y, OpponentTop).Some?;
        && shotsSent == (if fires then old(shotsSent) + [CellFromPos(x, y, OpponentTop).value] else old(shotsSent))
        && conn.myTurn == (old(conn.myTurn) && !fires)
        && shipsPlaced == old(shipsPlaced) && conn.gameBoard == old(conn.gameBoard) && conn.moves == old(conn.moves)
        && conn.winner == old(conn.winner) && conn.resultPosts == old(conn.resultPosts)
        && conn.listening == old(conn.listening)
      ensures conn.winner.Some? ==> conn.winner == Some(conn.username)
    {
      if placing {
        var cell := CellFromPos(x, y, OwnTop);
        if cell.Some? {
          var key := CellKey(cell.value.0, cell.value.1);
          if !(key in conn.gameBoard && conn.gameBoard[key] == Ship) {
            conn.UpdateGameBoard(key, false);
            shipsPlaced := shipsPlaced + 1;
            if shipsPlaced == 3 {
              placing := false;
              conn.StartGame();
            }
          }
        }
      } else if conn.myTurn && !HasWinner(conn.winner) {
        var cell := CellFromPos(x, y, OpponentTop);
        if cell.Some? {
          shotsSent := shotsSent + [cell.value];
          conn.myTurn := false;
        }
      }
    }
  }
}
