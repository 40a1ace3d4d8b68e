# Battleship matchmaking server and clients, modelled in Dafny

This project models the deterministic logic of a matchmaking server for a
two-player Battleship game and of the student clients that play on it.

**Server side**
- **Bracket generator** (`generate_bracket`). It builds a single-elimination bracket from a shuffled list of names:
  - the slot list is padded with byes up to the next power of two;
  - real players get participant ids from their slot;
  - adjacent slots form the round-1 matches;
  - empty later rounds follow, each half as large, down to a one-match final.
- **In-memory registry.** The `players` and `scores` dictionaries and the `matches_history` list, with the handlers `auto_join`, `get_players`, `propose_match`, `check_requests`, `confirm_match`, `match_result` and `scores_history` as methods on that state.
- **Bracket view in the browser** (`renderNativeBracket`). It groups matches by round, orders the rounds, labels each opponent (falling back to "TBD") and picks the winner.
- **Tournament page** (`tournament.js`). The status banner and launch-button rule, and the checks made on `/bracket_data` before rendering.

**Client side**
- **`BattleshipConnection`.** The board and move list, the victory rule, the opponent choice on joining, and the guards of `send_move` and `handle_opponent_move`.
- **Computer player.**
  - `SmartAI`: hunt around the last hit, otherwise scan a shuffled list of all cells.
  - The listener it installs.
  - The random placement of three ships.
- **Graphical client.** The pixel-to-cell mapping, the window layout, and the placing/firing state that mouse clicks advance.
- **Console client.** The ship-placement validation loop and the grid printout.
- **Local client.** It covers:
  - the parse of `MATCH_REQUEST:<challenger>:<code>` messages and the yes/no rule;
  - the choice of port;
  - the blank-code guards;
  - the menu loop.
- **Two game simulators.** The letter/number coordinate parser, the board printout, `random_coordinates` and `run_player`'s board setup.

The Python `str` builtins these scripts depend on are modelled in `PyStr`:
- `strip`, `split`, `int`, `str`, `index`, `lower` and `upper`.

Every source of nondeterminism is a parameter:
- the random number generator (the shuffle's result, the `randint` pairs, the draws of `random.sample`);
- console input (the typed lines);
- HTTP replies;
- the iteration order of a Python set.

Outgoing requests and messages are recorded as values or in fields, not sent.

Modules:

| module | models |
|---|---|
| `Wrappers` | `Option`, `Result` |
| `Seqs` | a `Distinct` predicate on sequences |
| `PyStr` | the `str` builtins listed above |
| `BracketGenerator` | `Matchmaking_Server/bracket_generator.py` |
| `Server` | `Matchmaking_Server/server.py` |
| `BracketRenderer` | `Matchmaking_Server/static/js/native_bracket_renderer.js` |
| `TournamentView` | `Matchmaking_Server/static/js/tournament.js` |
| `Connection` | `Student_Client/BattleshipConnection.py` |
| `BattleshipAI` | `Student_Client/ai/battleship_ia.py` |
| `PygameClient` | `Student_Client/client/battlefield.py` |
| `ConsoleClient` | `Student_Client/battlefield.py` |
| `LocalServer` | `Student_Client/local_server.py` |
| `Simulator` | `Student_Client/simulate_battleship_game.py` |
| `SimulatorTools` | `Student_Client/tools/simulate_battleship_game.py` |

Code that changes state in place is modelled as classes or imperative methods:
- `BattleshipConnection`, the server registry, `SmartAI` and the pygame loop state are classes whose methods carry `modifies` clauses;
- the bracket generator shuffles a caller's `array` and fills its lists in loops;
- the console placement loop, the menu loop, the board printout and the round grouping are methods with loops.

Each such method is proved against a specification function, and that function's properties are proved as lemmas.

## Model

| member | source | states |
|---|---|---|
| BracketGenerator.CeilLog2 | Matchmaking_Server/bracket_generator.py:11 | `math.ceil(math.log2(n))` on the integers: the least `k` with `n <= 2^k` (so `2^(k-1) < n` when `k > 0`) |
| BracketGenerator.RoundsShape | Matchmaking_Server/bracket_generator.py:35-53 | from `2^k` pairings the loop emits `2^(k+1)-1` matches: consecutive ids, rounds `round..round+k`, the given pairings first, all later matches without opponents, and fixed `stage_id`/`group`/`status`/`child_count` |
| BracketGenerator.RoundsLength | Matchmaking_Server/bracket_generator.py:35-53 | from `2^k` pairings the loop emits exactly `2^(k+1)-1` matches |
| BracketGenerator.RoundAt | Matchmaking_Server/bracket_generator.py:35-53 | the match at index `j` is in round `round + Block(k, j)`, the number of whole rounds emitted before it |
| BracketGenerator.BlockRange | Matchmaking_Server/bracket_generator.py:49-53 | index `j` lies in the `t`-th block (sizes `2^k, 2^(k-1), ..., 1`) exactly when it is between the block boundaries |
| BracketGenerator.RoundMembership | Matchmaking_Server/bracket_generator.py:35-53 | the match at index `j` is in round `round + t` if and only if `j` lies in the `t`-th block of halving sizes |
| BracketGenerator.ParticipantsOfSlots | Matchmaking_Server/bracket_generator.py:15-21 | `participants` has strictly increasing ids and holds exactly the non-empty names with the id of their slot |
| BracketGenerator.ParticipantsInOrder | Matchmaking_Server/bracket_generator.py:17-20 | with real players before the byes, player `i` is participant `i + 1` and there are exactly as many participants as players |
| BracketGenerator.BracketNeedsTwoPlayers | Matchmaking_Server/bracket_generator.py:11-26 | no names fails at `log2(0)`, one name fails at the missing `participant_map[1]`, and a bracket exists if and only if there are at least two names |
| BracketGenerator.NextPowerBounds | Matchmaking_Server/bracket_generator.py:11-12 | for `n >= 2`, `next_power` is twice a power of two, at least `n` and below `2n`: the least power of two `>= n` |
| BracketGenerator.TwoOrMore | Matchmaking_Server/bracket_generator.py:10-26 | for two or more names the slot count is even and the bracket is built from those slots |
| BracketGenerator.BracketMatchList | Matchmaking_Server/bracket_generator.py:25-53 | the matches are the rounds grown from `next_power / 2` round-1 pairings |
| BracketGenerator.BracketMatches | Matchmaking_Server/bracket_generator.py:28-62 | one "single_elimination" stage; `next_power - 1` matches with ids `1..next_power-1` in list order, rounds between 1 and `log2(next_power)`, and stage 1, group 0, status 0, child count 1 |
| BracketGenerator.BracketRound | Matchmaking_Server/bracket_generator.py:49-53 | round `r` is exactly the block of `2^(log2(next_power)-r)` matches after the earlier rounds, so each round halves the one before and the last is a single final |
| BracketGenerator.BracketRoundOne | Matchmaking_Server/bracket_generator.py:25-45 | round-1 match `k` has opponent ids `2k+1` and `2k+2` taken from the shuffled names, each null for a bye slot or an empty name |
| BracketGenerator.BracketLaterRoundsEmpty | Matchmaking_Server/bracket_generator.py:44-51 | every match after the round-1 block is in a round above 1 and has both opponents null |
| BracketGenerator.ParticipantSlot | Matchmaking_Server/bracket_generator.py:17-20 | a listed participant is a non-empty shuffled name at the position its id gives |
| BracketGenerator.ParticipantSeatedOnce | Matchmaking_Server/bracket_generator.py:20-45 | a participant is an opponent in match `j` if and only if `j` is its round-1 match `(id - 1) / 2` |
| BracketGenerator.BracketParticipants | Matchmaking_Server/bracket_generator.py:15-23 | participants are the non-empty names with their slot ids, in shuffled order; with no empty name, name `i` is participant `i + 1` and all `n` are listed |
| BracketGenerator.Shuffle | Matchmaking_Server/bracket_generator.py:9 | the caller's array is permuted in place into the given order, keeping its multiset |
| BracketGenerator.NumberSlots | Matchmaking_Server/bracket_generator.py:15-23 | the `for` loop builds `participants` and `participant_map` equal to their specification functions |
| BracketGenerator.EmitRoundMatches | Matchmaking_Server/bracket_generator.py:36-47 | the inner loop appends the round's matches and advances `match_id` by the round size |
| BracketGenerator.EmitMatches | Matchmaking_Server/bracket_generator.py:28-53 | the `while current_round` loop produces exactly the specified rounds |
| BracketGenerator.GenerateBracket | Matchmaking_Server/bracket_generator.py:7-65 | the array ends in the shuffled order (same multiset) and the result is the bracket of that order, or the error Python raises |
| Server.LastOpenFor | Matchmaking_Server/server.py:54-57 | the index found is a record open for the winner with no open record after it; `None` when no record is open for the winner |
| Server.LastOpenIs | Matchmaking_Server/server.py:54-57 | an open record with no open record after it is the one the reverse scan closes |
| Server.NoneOpen | Matchmaking_Server/server.py:54-57 | with no record open for the winner, the history is unchanged |
| Server.CloseLastOpenCount | Matchmaking_Server/server.py:54-57 | closing removes exactly one open record for the winner when there is one, and none otherwise |
| Server.CloseLastOpenFrame | Matchmaking_Server/server.py:54-57 | the length is kept and at most one record changes: the last open one, and only in its winner field |
| Server.WithScoreAppend | Matchmaking_Server/server.py:62 | the rows with a given score in a concatenation are those of each part, in order |
| Server.InsertByScorePermutes | Matchmaking_Server/server.py:62 | inserting a row adds exactly that row |
| Server.InsertByScoreSorted | Matchmaking_Server/server.py:62 | inserting into non-increasing rows keeps them non-increasing |
| Server.InsertByScoreStable | Matchmaking_Server/server.py:62 | an inserted row stays ahead of the rows with its score |
| Server.SortByScoreFacts | Matchmaking_Server/server.py:62 | sorting by `-score` yields a non-increasing permutation that keeps tied rows in their order (Python's stable sort) |
| Server.ScoreRows | Matchmaking_Server/server.py:62 | `scores.items()` in insertion order, one row per user with that user's score |
| Server.PlayerRecords | Matchmaking_Server/server.py:23 | one record per user in insertion order, merged with that user's entry |
| Server.Registry.constructor | Matchmaking_Server/server.py:5-7 | the three containers start empty |
| Server.Registry.AutoJoin | Matchmaking_Server/server.py:13-19 | the entry is overwritten (dropping a pending request); a new name gets score 0 and goes last in insertion order; an existing score is kept |
| Server.Registry.GetPlayers | Matchmaking_Server/server.py:21-23 | exactly one record per registered player, each carrying its stored entry, with no duplicates |
| Server.Registry.ProposeMatch | Matchmaking_Server/server.py:25-31 | the target's pending request becomes the challenger; an unknown target fails and nothing changes |
| Server.Registry.CheckRequests | Matchmaking_Server/server.py:33-36 | returns the pending request and clears it, so the user has none afterwards; an unknown user gets `None` |
| Server.Registry.ConfirmMatch | Matchmaking_Server/server.py:38-47 | exactly one open record is appended and earlier records stay as they were |
| Server.Registry.MatchResult | Matchmaking_Server/server.py:49-58 | fails, changing nothing, for a winner who never joined; otherwise only the winner's score goes up by 1 and the last record open for the winner is closed |
| Server.Registry.ScoresHistory | Matchmaking_Server/server.py:60-63 | the score items in non-increasing order, a permutation of the items, stable on ties; the history as it is |
| BracketRenderer.WinnerClassIffWon | Matchmaking_Server/static/js/native_bracket_renderer.js:34-40 | the `winner` class is set if and only if some opponent won; opponent 1 takes precedence and the winner line shows its label |
| BracketRenderer.InRoundCounts | Matchmaking_Server/static/js/native_bracket_renderer.js:19-23 | every occurrence of a match lands in the group of its round (`round` or 1) and in no other group |
| BracketRenderer.RoundKeysExact | Matchmaking_Server/static/js/native_bracket_renderer.js:19-23 | a round has a group if and only if some match is in that round |
| BracketRenderer.InsertAscendingFacts | Matchmaking_Server/static/js/native_bracket_renderer.js:25 | inserting a new key into strictly ascending keys keeps them strictly ascending and adds exactly that key |
| BracketRenderer.SortAscendingFacts | Matchmaking_Server/static/js/native_bracket_renderer.js:25 | the numeric sort lists every round key once, in strictly ascending order |
| BracketRenderer.GroupByRound | Matchmaking_Server/static/js/native_bracket_renderer.js:17-23 | the `forEach` builds a group for exactly the rounds present, each holding its matches in input order, and records each key once |
| BracketRenderer.RenderCards | Matchmaking_Server/static/js/native_bracket_renderer.js:30-50 | the inner loop renders the round's cards in order |
| BracketRenderer.RenderNativeBracket | Matchmaking_Server/static/js/native_bracket_renderer.js:8-54 | a missing or non-array `matches` gives only the error line; otherwise one column per round present, in ascending round order, each with the cards of its matches in input order |
| BracketRenderer.GeneratedMatchShowsTbd | Matchmaking_Server/static/js/native_bracket_renderer.js:34-36 | a match as the generator builds it (opponents carry only `id`) renders as "TBD" against "TBD" with no winner |
| TournamentView.LaunchEnabledWhenReady | Matchmaking_Server/static/js/tournament.js:92-111 | with a defined count the launch button is enabled if and only if the banner says "ready"; with an undefined count and not started it is enabled while the banner says "waiting" |
| TournamentView.Validate | Matchmaking_Server/static/js/tournament.js:19-37 | a reply carrying a non-empty error alerts exactly that error, and only such a reply does; a reply without one alerts the structure error exactly when stages, matches or participants is missing, and reaches the renderer exactly when all three are present |
| TournamentView.ShowBracket | Matchmaking_Server/static/js/tournament.js:19-37 | renders only replies that pass the checks; a present non-array `matches` passes and the renderer then shows its error line |
| Connection.AfterMove | Student_Client/BattleshipConnection.py:119-126 | the moved-to cell is on the board, the key set grows by exactly that cell, and every other cell keeps its mark |
| Connection.ShotOutcomes | Student_Client/BattleshipConnection.py:121-122 | a shot records "HIT" if and only if the cell held "SHIP"; a second shot at the same cell records "MISS" |
| Connection.ReplayKeys | Student_Client/BattleshipConnection.py:119-129 | after any updates the board holds exactly its old cells plus the cells moved to, so it never shrinks |
| Connection.OwnMovesPlaceShips | Student_Client/BattleshipConnection.py:124-126 | own moves leave "SHIP" on every cell moved to and every other cell as it was |
| Connection.ReplayPrefixGrows | Student_Client/BattleshipConnection.py:119-129 | the board after all the updates has at least as many entries as after any prefix of them |
| Connection.VictoryStays | Student_Client/BattleshipConnection.py:129-135 | once an update leaves five or more entries, the owner is the winner after all later updates |
| Connection.NoVictoryPosts | Student_Client/BattleshipConnection.py:129-135 | a run of updates ending below five entries posts no result |
| Connection.VictoryStep | Student_Client/BattleshipConnection.py:119-135 | one more update posts one more result exactly when it leaves five or more entries, and then makes the owner the winner; otherwise the winner stays as before |
| Connection.ReplayStepGrows | Student_Client/BattleshipConnection.py:119-128 | one more update never removes a board entry |
| Connection.BattleshipConnection.constructor | Student_Client/BattleshipConnection.py:8-19 | empty board and move list, no winner, no opponent, no socket, no active match, not the player's turn |
| Connection.BattleshipConnection.JoinMatch | Student_Client/BattleshipConnection.py:61-78 | succeeds if and only if the reply lists enough players; the opponent is the listed player who is not the user, and the code, active flag and turn are set; a failure changes nothing |
| Connection.BattleshipConnection.SendMove | Student_Client/BattleshipConnection.py:96-107 | without a socket nothing is sent; only the record of sent moves can change, so no game state changes either way |
| Connection.BattleshipConnection.StartGame | Student_Client/BattleshipConnection.py:137-143 | the listener is started |
| Connection.BattleshipConnection.EndGame | Student_Client/BattleshipConnection.py:145-154 | exactly one result naming the owner and the opponent is posted |
| Connection.BattleshipConnection.CheckVictory | Student_Client/BattleshipConnection.py:131-135 | with five or more board entries of any kind the owner becomes the winner and the result is posted; otherwise nothing changes |
| Connection.BattleshipConnection.UpdateGameBoard | Student_Client/BattleshipConnection.py:119-129 | the board becomes `AfterMove` of the old board, the move is appended, and the victory rule is applied |
| Connection.BattleshipConnection.HandleOpponentMove | Student_Client/BattleshipConnection.py:109-117 | malformed data or an unhashable move changes nothing; otherwise the move is applied as an opponent's shot and appended, and with five or more board entries the owner wins and the result is posted, else winner and posts stay as they were |
| BattleshipAI.GridCellsExact | Student_Client/ai/battleship_ia.py:25 | the listed cells are exactly the 25 grid cells, each once |
| BattleshipAI.Neighbors | Student_Client/ai/battleship_ia.py:40-43 | exactly the in-grid orthogonal neighbours, in the order left, right, up, down; between 2 and 4 of them for an in-grid cell |
| BattleshipAI.NeighborMembers | Student_Client/ai/battleship_ia.py:42-43 | a cell is listed if and only if it is an in-grid orthogonal neighbour |
| BattleshipAI.NeighborOrder | Student_Client/ai/battleship_ia.py:42-43 | the listed neighbours appear in the order left, right, up, down |
| BattleshipAI.NeighborCount | Student_Client/ai/battleship_ia.py:42-43 | an in-grid cell has between 2 and 4 neighbours |
| BattleshipAI.FirstUnvisited | Student_Client/ai/battleship_ia.py:32-37 | the index found is the first unvisited cell of the list; every earlier cell is visited |
| BattleshipAI.ChoiceFacts | Student_Client/ai/battleship_ia.py:29-38 | a chosen move is an unvisited grid cell; an unvisited neighbour of the last hit is preferred whenever one exists; there is no move if and only if all 25 cells are visited |
| BattleshipAI.SmartAI.constructor | Student_Client/ai/battleship_ia.py:23-27 | nothing visited, no hits, and a scan list that is a permutation of the grid |
| BattleshipAI.SmartAI.ChooseNextMove | Student_Client/ai/battleship_ia.py:29-38 | returns the specified choice and changes nothing |
| BattleshipAI.SmartAI.MarkResult | Student_Client/ai/battleship_ia.py:45-48 | the move becomes visited and is remembered as a hit exactly on "HIT" |
| BattleshipAI.CustomHandle | Student_Client/ai/battleship_ia.py:105-120 | a received cell is marked "HIT" if it held "SHIP", else "MISS"; the AI gets the same result and the move is appended; with five or more entries the owner wins and one result is posted, else winner and posts are kept; undecodable data changes nothing; no other field of the connection or the AI changes |
| BattleshipAI.DrawShips | Student_Client/ai/battleship_ia.py:55-57 | the draw loop stops with exactly three distinct in-grid cells, the distinct cells among a prefix of the draws |
| BattleshipAI.PlacementStep | Student_Client/ai/battleship_ia.py:58-59 | one more placement extends the replayed board and the move list by that cell |
| BattleshipAI.PlacementsFacts | Student_Client/ai/battleship_ia.py:58-59 | placements are own moves aimed at exactly the placed cells' keys |
| BattleshipAI.IterationOrder | Student_Client/ai/battleship_ia.py:58 | a set's iteration order lists each of its cells once |
| BattleshipAI.PlacedAfterStep | Student_Client/ai/battleship_ia.py:58-59 | after placing one more cell the connection is in the state of one more placement |
| BattleshipAI.PlaceShips | Student_Client/ai/battleship_ia.py:58-59 | each cell of the set is placed with an own move, in iteration order; board and moves are the replay of those moves, the winner is the owner exactly when the final board has five or more entries (else unchanged), and one result is posted per placement that leaves five or more entries; no other connection field changes |
| BattleshipAI.AutoPlaceShips | Student_Client/ai/battleship_ia.py:53-60 | exactly three distinct in-grid drawn cells now hold "SHIP", every other cell keeps its mark, and the three moves are appended; the owner wins with five or more entries, and below five the winner and the posted results are unchanged; no other connection field changes |
| PygameClient.CellFromPos | Student_Client/client/battlefield.py:42-48 | a cell is found if and only if the pixel is inside the board's square; the cell is in the grid and its square contains the pixel (floor division) |
| PygameClient.CellSquareMapsBack | Student_Client/client/battlefield.py:44-57 | every pixel of the square `draw_board` paints for a cell maps back to that cell |
| PygameClient.JustLeftOfGrid | Student_Client/client/battlefield.py:44-48 | the pixel column just left of the grid gives column -1, hence no cell |
| PygameClient.BoardsLayout | Student_Client/client/battlefield.py:23-95 | the window is 500 by 950; both boards fit inside it, one above the other, and no pixel is a cell of both |
| PygameClient.GameLoop.constructor | Student_Client/client/battlefield.py:88-90 | the loop starts placing, with no ship placed and no shot sent |
| PygameClient.GameLoop.Click | Student_Client/client/battlefield.py:103-118 | while placing, a click on an own cell without a ship places one (board updated, move appended, victory rule applied) and the third ends placement and starts the game; afterwards a click fires only on the player's turn while `winner` is falsy (none, or an empty name) and ends the turn, leaving board, moves, winner and posts alone |
| ConsoleClient.CellShownHasNoSpace | Student_Client/battlefield.py:21-22 | no cell text contains a space |
| ConsoleClient.RowLineReadsBack | Student_Client/battlefield.py:20-22 | a printed row starts with its label and the rest splits on spaces into the five cell texts |
| ConsoleClient.JudgeFacts | Student_Client/battlefield.py:30-39 | a typed line is refused if its stripped text is already a key, whatever it says; otherwise it raises if and only if it does not parse, and is accepted if and only if it parses to an in-grid pair |
| ConsoleClient.PlacementCount | Student_Client/battlefield.py:28-37 | a completed placement places exactly the missing ships and no run places more than three |
| ConsoleClient.PlacementKeysNew | Student_Client/battlefield.py:31-33 | every placed key is new to the starting board and placed once |
| ConsoleClient.PlacementKeysFromLines | Student_Client/battlefield.py:30-36 | every placed key is the stripped text of a typed line that parsed to an in-grid pair |
| ConsoleClient.PlacedKeysParse | Student_Client/battlefield.py:30-36 | every key placed from typed input is the text of two in-grid integers |
| ConsoleClient.PlacementBoard | Student_Client/battlefield.py:36 | a run stores "SHIP" under each key it places and leaves every other key alone |
| ConsoleClient.ReadLine | Student_Client/battlefield.py:30 | the line read is the stripped, parsed input line |
| ConsoleClient.OwnMovesStep | Student_Client/BattleshipConnection.py:119-135 | one more own move extends the replayed board by that key, posts one more result exactly when the board then has five or more entries, and makes the owner the winner in that case only |
| ConsoleClient.ReplayAfterKey | Student_Client/BattleshipConnection.py:119-135 | from the board, winner and posts that the replay of the placed keys describes, `update_game_board(key, False)` leaves those that the replay of the keys plus `key` describes |
| ConsoleClient.PlacedStateReplay | Student_Client/BattleshipConnection.py:119-135 | placing keys one `update_game_board` call at a time leaves the board, moves, winner and posts that the replay of all of them describes |
| ConsoleClient.PlaceStep | Student_Client/battlefield.py:30-39 | one pass of the inner loop decides as specified: a refused or out-of-grid line is asked again and an unparsable line raises, both leaving board, moves, winner and posts unchanged; an accepted line is placed with `update_game_board`, so the board, moves, winner and posts are those after the placed keys plus this one |
| ConsoleClient.PositionShips | Student_Client/battlefield.py:26-40 | the outcome, board and moves are those of the specified placement run over the typed lines; the winner and the posted results are those `check_victory` leaves after each placed key in turn (`WinnerAfter`, `VictoryPosts`), and below five entries both are unchanged |
| ConsoleClient.PlaceLines | Student_Client/battlefield.py:28-39 | the loops end in the specified placement run's outcome, with the board and the placed keys of that run, and the connection in the state placing those keys one call at a time leaves |
| ConsoleClient.Finished | Student_Client/battlefield.py:26-40 | a finished run's state, from the run's placed keys, is the board, moves, winner and posts of the whole run from where it started, with winner and posts unchanged below five entries |
| ConsoleClient.ParsePairOfParts | Student_Client/battlefield.py:34 | two comma-free texts joined by a comma parse to the pair of their `int` values |
| ConsoleClient.ParsePairCellText | Student_Client/battlefield.py:21-34 | the text `"x,y"` the display looks up parses back to `(x, y)` |
| ConsoleClient.ParsePairSpaced | Student_Client/battlefield.py:34 | `"x, y"` also parses to `(x, y)`, since `int` ignores the space |
| ConsoleClient.DisplayedKeyAccepted | Student_Client/battlefield.py:30-36 | typing the text of a free cell as the display writes it is accepted as that cell |
| ConsoleClient.SpacedDiffers | Student_Client/battlefield.py:31 | `"x, y"` and `"x,y"` are different keys |
| ConsoleClient.SameCellTwice | Student_Client/battlefield.py:31-36 | `"x,y"` and then `"x, y"` are both accepted for the same cell, which then holds two ships |
| LocalServer.HandleFields | Student_Client/local_server.py:49-59 | ignored if and only if the first field is not `MATCH_REQUEST`; raises if and only if there is no second field; otherwise the challenger is field 2 and the code field 3 or `None`, and a confirmation is sent if and only if the answer is "oui" |
| LocalServer.RequestMessageFields | Student_Client/local_server.py:48 | a request message built from colon-free fields splits back into those three fields |
| LocalServer.RequestRoundTrip | Student_Client/local_server.py:47-65 | an accepted request message yields a confirmation naming its challenger, the user and its code |
| LocalServer.OuiSpellings | Student_Client/local_server.py:57-59 | "oui" and "OUI" accept, "non" does not |
| LocalServer.LowerOf | Student_Client/local_server.py:57-59 | a trimmed three-letter answer is accepted if and only if it lower-cases to "oui" |
| LocalServer.AnswerPadding | Student_Client/local_server.py:57 | white space of any length before and after the answer makes no difference |
| LocalServer.SelectPort | Student_Client/local_server.py:23 | the port is the command-line one or the default, never 0 unless the default is, and a given port is overridden only when it is 0 |
| LocalServer.TypedCode | Student_Client/local_server.py:105-131 | there is no code if and only if the typed text is blank; otherwise the code is the typed text stripped, with no surrounding white space |
| LocalServer.MatchRequest | Student_Client/local_server.py:104-138 | `create_match` and `join_match`: no request if and only if the typed code is blank; otherwise a POST to the action's endpoint for the user with the stripped code |
| LocalServer.MenuAction | Student_Client/local_server.py:163-175 | the stripped choice "1" creates a match, "2" joins one, "3" submits a result and "4" quits, each if and only if; any other choice is invalid |
| LocalServer.MainMenu | Student_Client/local_server.py:156-175 | over the answers typed at the menu prompt: one action per answer in order, stopping right after the first quit; when no quit comes, every answer is used |
| Simulator.Coordinates | Student_Client/simulate_battleship_game.py:25-28 | fails if and only if the upper-cased letter is not found in "ABCDE" or the number does not parse; a column found is between 0 and 4 |
| Simulator.IndexOfLetter | Student_Client/simulate_battleship_game.py:26 | each letter of "ABCDE" is found at its own position |
| Simulator.CoordinatesOfCell | Student_Client/simulate_battleship_game.py:25-28 | a column letter in either case and the text of `n` give `(column, n - 1)` |
| Simulator.UpperOfLetter | Student_Client/simulate_battleship_game.py:26 | both cases of a column letter upper-case to the letter |
| Simulator.SubstringLetters | Student_Client/simulate_battleship_game.py:26 | "BC" gives column 1, the empty letter column 0, and "F" fails |
| Simulator.GlyphMeaning | Student_Client/simulate_battleship_game.py:20-21 | the glyph is "." if and only if the cell is absent, and "S", "H", "M" if and only if it holds a ship, hit or miss |
| Simulator.RenderRow | Student_Client/simulate_battleship_game.py:18-22 | the row is its 1-based label and a space, then each column's glyph and a space |
| Simulator.PrintBoard | Student_Client/simulate_battleship_game.py:14-23 | a blank line, the title, the header "  A B C D E", five rows, a blank line |
| Simulator.PrintedDeterminesGrid | Student_Client/simulate_battleship_game.py:17-22 | boards printed alike hold the same marks at all 25 cells |
| SimulatorTools.PrintBoard | Student_Client/tools/simulate_battleship_game.py:15-24 | the same printout as the first simulator |
| SimulatorTools.Remove | Student_Client/tools/simulate_battleship_game.py:33 | removing one element keeps every other element of the pool |
| SimulatorTools.RemoveDistinct | Student_Client/tools/simulate_battleship_game.py:33 | removing from distinct cells leaves distinct cells without the removed one |
| SimulatorTools.Sample | Student_Client/tools/simulate_battleship_game.py:33 | a sample has the requested size and is drawn from the pool |
| SimulatorTools.SampleDistinct | Student_Client/tools/simulate_battleship_game.py:33 | a sample from distinct cells has no repeats |
| SimulatorTools.SampleFirstDraw | Student_Client/tools/simulate_battleship_game.py:33 | the first draw picks a cell and the rest are sampled from what remains |
| SimulatorTools.SelectionTail | Student_Client/tools/simulate_battleship_game.py:33 | the rest of a selection is a selection from the remaining cells |
| SimulatorTools.SampleComposes | Student_Client/tools/simulate_battleship_game.py:33 | drawing a selection's first cell, then sampling the rest, gives the whole selection |
| SimulatorTools.SampleReaches | Student_Client/tools/simulate_battleship_game.py:33 | every selection of distinct pool cells, in any order, is the sample for some draws |
| SimulatorTools.RandomCoordinates | Student_Client/tools/simulate_battleship_game.py:32-33 | fails if and only if the count is negative or above 25; otherwise `count` distinct in-grid cells |
| SimulatorTools.ShipBoard | Student_Client/tools/simulate_battleship_game.py:38 | every listed cell holds a ship and nothing else is stored |
| SimulatorTools.ShipBoardSize | Student_Client/tools/simulate_battleship_game.py:38 | distinct cells give one board entry each |
| SimulatorTools.RunPlayer | Student_Client/tools/simulate_battleship_game.py:37-40 | the board becomes exactly the given ships, the match is active and the listener is started |
| PyStr.Strip | Student_Client/local_server.py:48 | `strip()` removes exactly the leading and trailing white space |
| PyStr.StripIdempotent | Student_Client/local_server.py:48 | stripping twice removes nothing more |
| PyStr.StripPadded | Student_Client/local_server.py:57 | white space added before and after a text makes no difference to `strip()` |
| PyStr.StripOfPadded | Student_Client/local_server.py:57 | a trimmed core surrounded only by white space strips to exactly that core |
| PyStr.StripTrimmed | Student_Client/battlefield.py:30 | text with no white space at either end is left as it is |
| PyStr.StripEmptyIffBlank | Student_Client/local_server.py:105-106 | `strip()` leaves nothing if and only if the text is all white space |
| PyStr.Split | Student_Client/local_server.py:48 | `split(sep)` has one piece more than separators, and no piece contains the separator |
| PyStr.SplitPair | Student_Client/battlefield.py:34 | two separator-free texts joined by the separator split back into the two |
| PyStr.JoinSplit | Student_Client/local_server.py:48 | joining the pieces of a split gives the text back |
| PyStr.SplitJoin | Student_Client/local_server.py:48 | splitting a join of separator-free pieces gives the pieces back |
| PyStr.SplitNoSeparator | Student_Client/local_server.py:48 | text without the separator splits into itself alone |
| PyStr.SplitExtend | Student_Client/local_server.py:48 | appending separator-free text after a trailing separator fills only the last piece |
| PyStr.ParseInt | Student_Client/battlefield.py:34 | `int()` fails on blank text; it accepts surrounding white space, a sign and digits with single underscores between them |
| PyStr.UnderscoreIgnored | Student_Client/battlefield.py:34 | an underscore between two numerals is skipped: `int("1_0") == int("10")`, and the text parses |
| PyStr.DigitsNumeral | Student_Client/simulate_battleship_game.py:27 | a plain run of digits is a numeral worth its digits |
| PyStr.ParseIntText | Student_Client/simulate_battleship_game.py:27 | `int(str(n)) == n` |
| PyStr.NatText | Student_Client/simulate_battleship_game.py:27 | `str(n)` is a run of digits worth `n`, without a leading zero |
| PyStr.Index | Student_Client/simulate_battleship_game.py:26 | `str.index` finds the lowest position where the needle occurs, and fails only when it occurs nowhere |

## Left out

- HTTP, sockets, threads and console I/O are not modelled. Replies, typed lines and received messages are parameters, and the requests sent are recorded values. `start_socket_listener`, `socket_listener` and `envoyer_coup` have no model; neither have `auto_register`, `propose_match` and `start_game`'s thread start beyond a flag.
- The random number generator is not modelled. `random.shuffle` becomes a given permutation, `random.randint` a given sequence of pairs, and `random.sample` a given sequence of draws.
- SimulatorTools.Sample: a missing draw picks the first remaining cell. This only completes the function; `SampleReaches` shows that every possible result of `random.sample` is still produced.
- BracketGenerator.CeilLog2: `math.log2` is floating point. The model uses the exact integer ceiling, which is what the Python code computes for any realistic number of players.
- `Matchmaking_Server/static/js/player.js`, the test scripts, and the tournament start/reset/status endpoints are not part of this model. No shown file implements the endpoints.
- The timing loops are not modelled: the simulators' game drivers (`simulate_game`), `tour_de_jeu`, `boucle_de_jeu`, `rejoindre_ou_creer_match`, and the polling of `create_match`.
- `match_result` of `local_server.py` reads the winner's and the loser's names from the console and posts them. `cleanup`, `get_public_ip` and `auto_register` only make HTTP calls. These four are left out; the menu records the chosen action instead.
- PyStr.Lower and PyStr.Upper map ASCII letters only. Python's case mapping of other characters is not modelled.
- PyStr.ParseInt: Python's `int()` also accepts non-ASCII decimal digits (such as Arabic-Indic digits); the model accepts only ASCII digits, with underscore grouping. White space is the full set `str.isspace()` accepts, so `strip()` is not affected.
- ConsoleClient.JudgeFacts: inherits that gap: a typed line whose numbers use non-ASCII digits is judged as raising, where Python places a ship.
- Simulator.Coordinates: inherits the same gap: a row number written with non-ASCII digits fails, where Python accepts it.
- BattleshipAI.CustomHandle: only a move that `tuple()` turns into a pair of integers is modelled; every other received move is modelled as undecodable input and changes nothing. Python stores several of these on the board, appends them to the moves and runs the victory check, and the model does not capture that: a JSON array of another length, a string (`"ab"` becomes `('a', 'b')`), an object (the tuple of its keys), and an array of non-integers such as `[true, false]`, which equals the key `(1, 0)` and so can hit that ship. A number or `null` makes `tuple()` raise, which the model matches.
- Connection.BattleshipConnection.HandleOpponentMove: only string moves (`Key(TextKey(..))`) and unhashable moves (an array or object, which raises `TypeError` inside the `try`) are modelled. A JSON number, boolean or `null` is hashable too: Python stores it on the board as a "MISS" (or a "HIT" if that key holds a ship), appends it to the moves and runs the victory check, and the model has no value for it. `True`, `1` and `1.0` are one dictionary key in Python, which the model does not capture either. The JSON decoding itself is not modelled. A decoded JSON value is never a tuple, so `Key(CellKey(..))` is not a reachable input of this handler; only a string move gives `Key(TextKey(..))`.
- The pygame drawing, the DOM updates of the JavaScript files and `alert` calls are not modelled; only the decisions they display are.
- Python's dictionary insertion order is modelled explicitly (`joinOrder`) only where the output depends on it (`get_players`, `scores_history`).

## Behaviour worth knowing

Proving the contracts above brought out these properties of the code as written:

- The browser renderer reads `opponent1.name` and `opponent1.result`, but the generator's opponents carry only an `id`. A generated bracket therefore shows "TBD" against "TBD" everywhere, with no winner (`BracketRenderer.GeneratedMatchShowsTbd`).
- `check_victory` counts board entries of every kind, the player's own ships included. A player who places three ships and receives two shots becomes the winner (`Connection.BattleshipConnection.CheckVictory`).
- `send_move` never sends anything, because no code in `BattleshipConnection` sets `self.socket` (`Connection.BattleshipConnection.SendMove`).
- Moves arrive as JSON arrays, which are unhashable lists in Python. The default `handle_opponent_move` therefore always fails inside its `try` for the pair-shaped moves the other clients send.
- In the console client the duplicate check compares typed text, so "0,0" and then "0, 0" place two ships on one cell (`ConsoleClient.SameCellTwice`).
- With an undefined `player_count` the banner says "waiting" while the launch button stays enabled (`TournamentView.LaunchEnabledWhenReady`).
- The pygame client never writes to `opponent_board`, so the opponent's board stays empty.
- `run_player` replaces the board directly and never calls `check_victory`.
- `match_result` on the server ignores the loser.
