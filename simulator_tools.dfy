/**
 * The helpers of `tools/simulate_battleship_game.py`: the same board
 * printout as the first simulator, `random_coordinates` as a sample of
 * distinct grid cells, and `run_player`'s board setup. The random draws of
 * `random.sample` are a parameter.
 */
module SimulatorTools {
  import opened Wrappers
  import opened Seqs
  import opened Connection
  import opened BattleshipAI
  import Simulator

  /** `print_board`, the same code as in the first simulator. */
  method PrintBoard(board: map<BoardKey, Mark>, title: string) returns (lines: seq<string>)
    ensures Simulator.Printed(board, title, lines)
  {
    lines := Simulator.PrintBoard(board, title);
  }

  /** `pool` without its element at `k`. */
  function Remove(pool: seq<Cell>, k: nat): (rest: seq<Cell>)
    requires k < |pool|
    ensures |rest| == |pool| - 1
    ensures forall c :: c in rest ==> c in pool
    ensures forall c :: c in pool && c != pool[k] ==> c in rest
  {
    pool[..k] + pool[k + 1..]
  }

  lemma RemoveDistinct(pool: seq<Cell>, k: nat)
    requires k < |pool| && Distinct(pool)
    ensures Distinct(Remove(pool, k)) && pool[k] !in Remove(pool, k)
  {
    var rest := Remove(pool, k);
    forall i | 0 <= i < |rest|
      ensures rest[i] == (if i < k then pool[i] else pool[i + 1])
    {
    }
  }

  /**
   * `random.sample(pool, count)` with the generator's draws given: each
   * draw picks one of the cells not yet chosen (a missing draw picks the
   * first).
   */
  function Sample(pool: seq<Cell>, count: nat, draws: seq<nat>): (s: seq<Cell>)
    requires count <= |pool|
    ensures |s| == count
    ensures forall c :: c in s ==> c in pool
    decreases count
  {
    if count == 0 then []
    else
      var k := (if |draws| > 0 then draws[0] else 0) % |pool|;
      [pool[k]] + Sample(Remove(pool, k), count - 1, if |draws| > 0 then draws[1..] else [])
  }

  /** A sample from distinct cells has no repeats. */
  lemma {:induction false} SampleDistinct(pool: seq<Cell>, count: nat, draws: seq<nat>)
    requires count <= |pool| && Distinct(pool)
    ensures Distinct(Sample(pool, count, draws))
    decreases count
  {
    if count > 0 {
      var k := (if |draws| > 0 then draws[0] else 0) % |pool|;
      var rest := Remove(pool, k);
      var more := if |draws| > 0 then draws[1..] else [];
      RemoveDistinct(pool, k);
      SampleDistinct(rest, count - 1, more);
      var t := Sample(rest, count - 1, more);
      var s := [pool[k]] + t;
      assert Sample(pool, count, draws) == s;
      forall i, j | 0 <= i < j < |s|
        ensures s[i] != s[j]
      {
        assert s[j] == t[j - 1] && t[j - 1] in t;
        if i > 0 {
          assert s[i] == t[i - 1];
        }
      }
    }
  }

  /** A first draw of `k` takes `pool[k]` and samples the rest from the remaining cells. */
  lemma SampleFirstDraw(pool: seq<Cell>, count: nat, k: nat, more: seq<nat>)
    requires 0 < count <= |pool| && k < |pool|
    ensures Sample(pool, count, [k] + more) == [pool[k]] + Sample(Remove(pool, k), count - 1, more)
  {
    var draws := [k] + more;
    assert draws[0] == k && draws[1..] == more;
    assert k % |pool| == k;
  }

  /** Without its first element, a selection is a selection from what remains. */
  lemma SelectionTail(pool: seq<Cell>, s: seq<Cell>, k: nat)
    requires Distinct(s) && |s| > 0 && k < |pool| && pool[k] == s[0]
    requires forall c :: c in s ==> c in pool
    ensures Distinct(s[1..])
    ensures forall c :: c in s[1..] ==> c in Remove(pool, k)
  {
    var tail := s[1..];
    forall c | c in tail
      ensures c in Remove(pool, k)
    {
      var j :| 0 <= j < |tail| && tail[j] == c;
      assert s[j + 1] == c;
    }
    forall i, j | 0 <= i < j < |tail|
      ensures tail[i] != tail[j]
    {
      assert tail[i] == s[i + 1] && tail[j] == s[j + 1];
    }
  }

  /** The position of `c` in `pool`. */
  function PositionOf(pool: seq<Cell>, c: Cell): (k: nat)
    requires c in pool
    ensures k < |pool| && pool[k] == c
  {
    if pool[0] == c then 0 else 1 + PositionOf(pool[1..], c)
  }

  /** The draws that pick the cells of `s`, in order, from `pool`. */
  function DrawsFor(pool: seq<Cell>, s: seq<Cell>): seq<nat>
    requires Distinct(s) && forall c :: c in s ==> c in pool
    decreases |s|
  {
    if |s| == 0 then []
    else
      var k := PositionOf(pool, s[0]);
      SelectionTail(pool, s, k);
      [k] + DrawsFor(Remove(pool, k), s[1..])
  }

  /** Drawing the position of the first cell, then a sample of the rest, gives the whole selection. */
  lemma SampleComposes(pool: seq<Cell>, s: seq<Cell>, k: nat, more: seq<nat>)
    requires 0 < |s| <= |pool| && k < |pool| && pool[k] == s[0]
    requires Sample(Remove(pool, k), |s| - 1, more) == s[1..]
    ensures Sample(pool, |s|, [k] + more) == s
  {
    SampleFirstDraw(pool, |s|, k, more);
    assert [s[0]] + s[1..] == s;
  }

  /**
   * Every selection of distinct cells from the pool, in any order, is the
   * sample for some draws: nothing the generator could return is excluded.
   */
  lemma {:induction false} SampleReaches(pool: seq<Cell>, s: seq<Cell>)
    requires Distinct(pool) && Distinct(s) && |s| <= |pool|
    requires forall c :: c in s ==> c in pool
    ensures Sample(pool, |s|, DrawsFor(pool, s)) == s
    decreases |s|
  {
    if |s| == 0 {
      assert DrawsFor(pool, s) == [];
    } else {
      var k := PositionOf(pool, s[0]);
      var rest := Remove(pool, k);
      SelectionTail(pool, s, k);
      RemoveDistinct(pool, k);
      SampleReaches(rest, s[1..]);
      SampleComposes(pool, s, k, DrawsFor(rest, s[1..]));
    }
  }

  const SampleError := "Sample larger than population or is negative"

  /**
   * `random_coordinates(count)`: `count` distinct cells of the 5x5 grid;
   * `random.sample` raises `ValueError` for a negative count or one above 25.
   */
  function RandomCoordinates(count: int, draws: seq<nat>): (r: Result<seq<Cell>, string>)
    ensures r.Failure? <==> count < 0 || count > GridSize * GridSize
    ensures r.Success? ==> |r.value| == count && Distinct(r.value)
    ensures r.Success? ==> forall c :: c in r.value ==> InGrid(c)
  {
    if count < 0 || count > GridSize * GridSize then Failure(SampleError)
    else
      GridCellsExact();
      SampleDistinct(GridCells(), count, draws);
      Success(Sample(GridCells(), count, draws))
  }

  /**
   * The board `run_player` builds with a dict comprehension: each listed
   * cell holds a ship, nothing else is stored.
   */
  function ShipBoard(ships: seq<Cell>): (b: map<BoardKey, Mark>)
    ensures forall c :: c in ships ==> KeyOf(c) in b && b[KeyOf(c)] == Ship
    ensures forall k :: k in b ==> k.CellKey? && (k.x, k.y) in ships
  {
    if |ships| == 0 then map[]
    else
      var init := ships[..|ships| - 1];
      var last := ships[|ships| - 1];
      assert forall c :: c in ships ==> c in init || c == last;
      ShipBoard(init)[KeyOf(last) := Ship]
  }

  /** Distinct cells give one board entry each. */
  lemma {:induction false} ShipBoardSize(ships: seq<Cell>)
    requires Distinct(ships)
    ensures |ShipBoard(ships)| == |ships|
  {
    if |ships| > 0 {
      var init := ships[..|ships| - 1];
      var last := ships[|ships| - 1];
      assert Distinct(init);
      ShipBoardSize(init);
      assert KeyOf(last) !in ShipBoard(init);
    }
  }

  /**
   * `run_player`: the board becomes exactly the given ships, the match is
   * marked active and the listener starts.
   */
  method RunPlayer(conn: BattleshipConnection, ships: seq<Cell>)
    requires conn.Valid()
    modifies conn`gameBoard, conn`isMatchActive, conn`listening
    ensures conn.Valid()
    ensures conn.gameBoard == ShipBoard(ships)
    ensures conn.isMatchActive && conn.listening
  {
    conn.gameBoard := ShipBoard(ships);
    conn.isMatchActive := true;
    conn.StartGame();
  }
}
