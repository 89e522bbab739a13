# Dots and Boxes engine, modelled in Dafny

This project models the game engine of `DotsAndBoxesBoard` from `dots_and_boxes.py`, a
Dots and Boxes game with one human player (id 0) and one computer player (id 1).
The painting, hover and blink code is not modelled.

A board of `gridSize` dots per side holds:

- `hLines`: `gridSize` rows of `gridSize-1` horizontal edges;
- `vLines`: `gridSize-1` rows of `gridSize` vertical edges;
- `boxes`: a `(gridSize-1)²` grid of optional owners;
- `scores`, the player to move, the game-over flag and the last move.

The project has seven modules:

- `Rules` (rules.dfy) holds the board as a value (`State`) and the read-only queries on it:
  - `is_game_over`, `_adjacent_boxes`, `_count_new_boxes`, `_box_has_two_sides`,
    `move_makes_third_side` and `check_and_update_boxes_for_move`;
  - `make_move` as `WithEdge`;
  - the full scan of `check_and_update_boxes` as `Claimed`;
  - one played move, scan and turn rule included, as `AfterMove`.
  It also holds the board invariant `Consistent`:
  - owned boxes are complete;
  - each score counts the boxes its player owns;
  - a finished game has every edge drawn.
  `Settled` holds what a full scan leaves behind: every complete box is owned, and a
  board with every edge drawn is flagged as over.
- `Catalog` (catalog.dfy) holds the list `available_moves` builds and its properties.
- `Strategy` (strategy.dfy) holds what the computer's three tiers compute, as functions on
  board values.
- `Engine` (board.dfy) holds the class `DotsAndBoxesBoard`.
  - Its fields are the ones `__init__` sets, and its methods update them in place:
    `make_move`, `check_and_update_boxes`, the computer's move and the human's move.
  - Each method is proved against the functions above.
  - `copy_state` builds a new object, and the look-ahead of tiers 1 and 3 runs on such copies.
- `GameSetup` (setup.dfy) holds the window's small decisions:
  - the first-player choice;
  - starting a game;
  - `game_has_started`;
  - the win/tie announcement.
- `Grids` (grids.dfy) and `Wrappers` (wrappers.dfy) are helpers: cell counting over grids,
  and `Option`.

The computer's policy is proved to follow its tiers (`Strategy.PlaysByTiers`):

1. When some edge completes a box, it plays the first such edge of the catalogue.
2. Otherwise, when some edge gives no box a third side, it plays such an edge.
3. Otherwise it plays an edge of least simulated chain cost.

The code's chain simulation never finds anything. `_simulate_opponent_chain` counts boxes
next to edges that are not yet drawn. Such an edge is a side of every box next to it, so
none of those boxes is complete, and the count is always 0. The model keeps this
behaviour and proves it (`Strategy.OpponentChainIsEmpty`, `Strategy.LeastDamageKeepsAllMoves`).
Tier 3 therefore picks at random among all remaining moves. The source's own comments
describe more: "simulate and count the full chain of boxes the opponent could claim"
(dots_and_boxes.py:325) and "recursively claiming all possible boxes in a chain"
(dots_and_boxes.py:340). The code as written never claims any, and the model follows the code.

A whole computer turn is a sequence of such moves (`Strategy.ComputerPlays`): each is played
on the computer's turn in a running game, by the tiers, on the board the moves before it
left, and the board ends as those moves replayed one by one (`Strategy.Replay`).

## Model

| member | source | states |
|---|---|---|
| Rules.IsGameOverIffAllDrawn | dots_and_boxes.py:288-295 | `is_game_over` holds exactly when every edge of both grids is drawn |
| Rules.NewBoard | dots_and_boxes.py:21-45 | the board `__init__` builds has the grid dimensions `grid_size` calls for |
| Rules.NewBoardSpec | dots_and_boxes.py:21-45 | a fresh board has no edge drawn and no box owned, satisfies the invariants, and has at least one move left |
| Rules.WithEdge | dots_and_boxes.py:454-458 | `make_move` draws exactly edge `m`; every other edge, the boxes, the scores and the turn are unchanged |
| Rules.WithEdgeDrawsOne | dots_and_boxes.py:454-458 | drawing an undrawn edge lowers the number of undrawn edges by one |
| Rules.WithEdgeConsistent | dots_and_boxes.py:454-458 | drawing an edge keeps the board invariant (owned boxes stay complete, a finished game stays full) |
| Rules.AdjacentBoxes | dots_and_boxes.py:373-385 | adjacency yields exactly the in-range boxes the edge is a side of: one for a boundary edge, two for an interior edge |
| Rules.CountNewBoxesOfUndrawnEdge | dots_and_boxes.py:359-371 | `_count_new_boxes` on an undrawn edge is always 0 |
| Rules.SidesDrawn | dots_and_boxes.py:430-436 | a box has at most four drawn sides, and four exactly when it is complete |
| Rules.SidesDrawnWithEdge | dots_and_boxes.py:430-436 | drawing an undrawn side of a box adds one to its drawn sides; any other edge changes nothing |
| Rules.MoveMakesThirdSideMeaning | dots_and_boxes.py:412-436 | `move_makes_third_side` holds iff some adjacent box has exactly two sides drawn; for an undrawn edge, iff drawing it leaves an adjacent box with three |
| Rules.ClaimedSettles | dots_and_boxes.py:268-287 | the scan keeps every owner, gives every unowned complete box to the mover, leaves incomplete boxes unowned, and flags the game over exactly when every edge is drawn |
| Rules.ClaimedScores | dots_and_boxes.py:268-282 | the mover's score rises by exactly the boxes claimed, so scores that counted owned boxes still do |
| Rules.ClaimedConsistent | dots_and_boxes.py:268-287 | the full scan keeps the invariant and leaves the board settled |
| Rules.PartlyClaimedCount | dots_and_boxes.py:269-282 | scanning the first `k` rows raises the mover's box count by the claimable boxes in them and leaves the other player's alone |
| Rules.NewCountPositive | dots_and_boxes.py:268-287 | the scan claims something iff some box is complete and unowned |
| Rules.LocalScanImpliesFullScan | dots_and_boxes.py:460-483 | when the move-local test finds a box, a following full scan claims at least one |
| Rules.AfterMoveTurnRule | dots_and_boxes.py:387-398 | after a played move the mover keeps the turn iff its score rose; the other score is unchanged |
| Rules.AfterMoveDrawsOneEdge | dots_and_boxes.py:190-198 | a played move draws its own edge and no other, and never erases one |
| Rules.AfterMoveDrawsOne | dots_and_boxes.py:190-198 | a played move on an undrawn edge leaves one undrawn edge fewer, so a turn of repeated moves ends |
| Rules.ScoresCountOwnedBoxes | dots_and_boxes.py:279-280 | under the invariant, `scores[0] + scores[1]` is the number of owned boxes |
| Rules.FinalScoresCoverBoard | dots_and_boxes.py:283-295 | at the end of a game the scores add up to the number of boxes |
| Catalog.RowMovesSpec | dots_and_boxes.py:402-405 | one row's list holds exactly its undrawn cells, by increasing column |
| Catalog.GridMovesMembers | dots_and_boxes.py:401-409 | a grid's list holds exactly its undrawn edges |
| Catalog.GridMovesBelow | dots_and_boxes.py:401-409 | the list of the first `k` rows holds only edges of those rows |
| Catalog.GridMovesOrdered | dots_and_boxes.py:401-409 | a grid's list is row-major: by row, then by column |
| Catalog.UndrawnMovesSpec | dots_and_boxes.py:400-410 | `available_moves` lists every undrawn edge and nothing else, horizontal edges first, each row-major, so each edge exactly once |
| Catalog.GameOverIffNoMoves | dots_and_boxes.py:288-295 | `is_game_over` holds iff `available_moves` is empty |
| Catalog.WithEdgeRemovesMove | dots_and_boxes.py:454-458 | drawing a listed edge removes exactly that edge from the list |
| Strategy.CompletesBoxMeaning | dots_and_boxes.py:312-318 | tier 1's copy-and-test holds for an undrawn edge iff some unowned adjacent box has its other three sides drawn, and such a move makes the full scan claim a box |
| Strategy.SafeMoves | dots_and_boxes.py:320-322 | the safe list holds exactly the moves that give no box a third side |
| Strategy.BestClaimSpec | dots_and_boxes.py:342-351 | a positive best count belongs to a listed move, and no listed move completes more boxes |
| Strategy.BestClaimIsFirst | dots_and_boxes.py:345-351 | ties go to the earliest move: every move before the chosen one completes fewer boxes |
| Strategy.FirstCompletingPlaysByTiers | dots_and_boxes.py:301-318 | the first box-completing edge of the catalogue follows the tiers |
| Strategy.SafePlaysByTiers | dots_and_boxes.py:301-322 | with no completing edge, a safe edge of the catalogue follows the tiers |
| Strategy.FallbackPlaysByTiers | dots_and_boxes.py:301-337 | with no completing and no safe edge, an edge of the catalogue whose simulated chain cost is at most every other edge's follows the tiers |
| Strategy.Replay | dots_and_boxes.py:387-395 | replaying a turn's moves one by one keeps the board's shape and size |
| Strategy.ReplayDrawsMoves | dots_and_boxes.py:387-395 | after a turn's moves exactly the edges drawn before and the edges played are drawn |
| Strategy.ComputerPlaysExtend | dots_and_boxes.py:387-395 | one more move chosen by the tiers, on the computer's turn in a running game, extends the turn, and the board becomes that move played on the board before it |
| Strategy.PlayedEarlierStays | dots_and_boxes.py:387-395 | playing one more move leaves how each earlier move of the turn was chosen unchanged |
| Strategy.OpponentChain | dots_and_boxes.py:339-357 | the simulated chain ends on a board of the same shape |
| Strategy.OpponentChainStep | dots_and_boxes.py:342-354 | a round that finds a best claim worth `k > 0` adds `k` to the chain and continues from the board with that edge drawn; by `Strategy.OpponentChainIsEmpty` no board ever has such a round, so this records the loop's shape only |
| Strategy.OpponentChainStops | dots_and_boxes.py:353-356 | a round that finds nothing ends the chain with total 0 on an unchanged board |
| Strategy.OpponentChainIsEmpty | dots_and_boxes.py:339-371 | the chain simulation always returns 0 and draws nothing |
| Strategy.LeastDamageScanMinimal | dots_and_boxes.py:324-336 | the scan keeps exactly the moves of least cost, and at least one when there are moves |
| Strategy.LeastDamagePickIsMinimal | dots_and_boxes.py:324-337 | any move the scan keeps is a listed move whose chain cost is at most every other's |
| Strategy.LeastDamageScanAllZero | dots_and_boxes.py:324-336 | with every cost 0 the scan keeps every move |
| Strategy.LeastDamageKeepsAllMoves | dots_and_boxes.py:324-357 | tier 3 keeps all the moves, so its random pick ranges over all of them |
| Engine.UndrawnEdgesOf | dots_and_boxes.py:401-409 | one double loop of `available_moves` builds that grid's row-major list of undrawn edges |
| Engine.DotsAndBoxesBoard.constructor | dots_and_boxes.py:21-45 | a new board has every edge undrawn, no owner, scores 0, the human to move and the game not over |
| Engine.DotsAndBoxesBoard.GiveFirstTurn | dots_and_boxes.py:812-816 | the chosen player gets the first turn; nothing else changes |
| Engine.DotsAndBoxesBoard.MakeMove | dots_and_boxes.py:454-458 | the board becomes `WithEdge` of the old one and keeps the invariant |
| Engine.DotsAndBoxesBoard.CheckAndUpdateBoxes | dots_and_boxes.py:268-287 | the board becomes the scanned board, the result says whether a box was claimed, the game-over flag is never cleared, and the board ends consistent and settled |
| Engine.ScanBoxes | dots_and_boxes.py:269-282 | the row-by-row loop computes the scanned owners and the scores raised by the claimed count |
| Engine.ScanRow | dots_and_boxes.py:270-282 | the inner loop computes the scanned row and the number of boxes claimed in it |
| Engine.DotsAndBoxesBoard.AvailableMoves | dots_and_boxes.py:400-410 | the result is the catalogue of undrawn edges |
| Engine.DotsAndBoxesBoard.CopyState | dots_and_boxes.py:438-452 | the copy is a new object holding the same board |
| Engine.DotsAndBoxesBoard.DrawOnCopy | dots_and_boxes.py:438-458 | drawing on a copy gives the board with that edge drawn and leaves the original unchanged |
| Engine.DotsAndBoxesBoard.CompletesOnCopy | dots_and_boxes.py:313-317 | one probe of tier 1 answers exactly tier 1's test |
| Engine.DotsAndBoxesBoard.FindBoxCompletingMove | dots_and_boxes.py:312-318 | the result is the first move of the list that completes a box, or None exactly when none does |
| Engine.DotsAndBoxesBoard.FindSafeMove | dots_and_boxes.py:320-322 | the result is a listed move that gives no box a third side, or None exactly when every listed move does |
| Engine.DotsAndBoxesBoard.SimulateOpponentChain | dots_and_boxes.py:339-357 | the loop returns the chain total and leaves the board the chain function describes |
| Engine.DotsAndBoxesBoard.BestClaimMove | dots_and_boxes.py:342-351 | the inner loop finds the first move completing the most boxes, with that count |
| Engine.DotsAndBoxesBoard.ChainAfter | dots_and_boxes.py:327-329 | one round of tier 3 returns the move's chain cost and leaves the board untouched |
| Engine.DotsAndBoxesBoard.FindLeastDamagingMove | dots_and_boxes.py:324-337 | the pick is a listed move of least chain cost |
| Engine.DotsAndBoxesBoard.ScanChains | dots_and_boxes.py:326-336 | the loop computes the least cost and the moves reaching it, in list order |
| Engine.DotsAndBoxesBoard.ExecuteComputerMove | dots_and_boxes.py:387-398 | the board becomes the played move; the computer keeps the turn only if it claimed a box |
| Engine.DotsAndBoxesBoard.ComputerMove | dots_and_boxes.py:301-310 | nothing happens unless it is the computer's turn in a running game; otherwise an undrawn edge chosen by the tiers is played |
| Engine.DotsAndBoxesBoard.ChooseMove | dots_and_boxes.py:303-309 | the three tiers in order pick an undrawn edge that follows the tiers |
| Engine.DotsAndBoxesBoard.ComputerTurn | dots_and_boxes.py:387-395 | the computer plays a sequence of moves: none unless it is its turn in a running game, at least one otherwise; each is played on its turn in a running game and chosen by the tiers on the board the earlier ones left; the board ends as those moves replayed, with the human to move or the game over, and with exactly the old edges and the played ones drawn |
| Engine.DotsAndBoxesBoard.PlayHumanMove | dots_and_boxes.py:200-207 | the clicked edge is played as one move; the human keeps the turn only if a box was claimed, and the board stays consistent and settled |
| Engine.DotsAndBoxesBoard.HumanMove | dots_and_boxes.py:181-207 | a click is played iff it is the human's turn, the game is on, the click hit an edge and that edge is undrawn; a played click is one move with the turn rule, and an ignored one changes nothing |
| GameSetup.ChoiceOfRadio | dots_and_boxes.py:566-577 | radio 1 means the computer, 2 a coin toss, and anything else the human |
| GameSetup.ResolveChoice | dots_and_boxes.py:799-802 | a coin toss whose animation is accepted becomes the tossed player; any other choice stays as it was |
| GameSetup.FirstPlayer | dots_and_boxes.py:812-816 | the computer moves first exactly when the choice is the computer |
| GameSetup.RadioDecidesFirstPlayer | dots_and_boxes.py:566-577 | from radio button to first mover: 1 gives the computer, 2 gives the tossed player once the toss is accepted, and everything else gives the human |
| GameSetup.StartGame | dots_and_boxes.py:805-820 | a new game starts on a fresh board of the chosen size; with the human first nothing is played; with the computer first its turn is played from the fresh board: at least one move chosen by the tiers, ending with the human to move or the game over |
| GameSetup.GameHasStartedIffSomeDrawn | dots_and_boxes.py:884-893 | `game_has_started` holds iff some edge is drawn |
| GameSetup.StartedByFirstMove | dots_and_boxes.py:884-893 | a fresh board has not started, and any first move starts it |
| GameSetup.OutcomeOf | dots_and_boxes.py:756-762 | the human wins iff its score is higher, the computer iff its score is higher, a tie iff the scores are equal |
| GameSetup.NoTieWithOddBoxCount | dots_and_boxes.py:756-762 | a finished game with an odd number of boxes is never a tie |

## Left out

- Painting, hover tracking and the blink animation are Qt presentation and are not modelled. `blinking` is taken as always false, so the blink guards of `mousePressEvent` and `computer_move` never fire.
- `detect_line_clicked` and `point_near_line` are floating-point pixel geometry and are not modelled. The human's click arrives already decoded as an edge, or as nothing when it hit no edge.
- `QTimer.singleShot` pacing is not modelled. The re-scheduling of `computer_move` after a claimed box is modelled as the loop `ComputerTurn`. The computer's first turn is played at once in `StartGame`.
- `WhoGoesFirstDialog`, the menus, the scoreboard, `update_status` texts and dark mode are UI and are not modelled. Only the radio-to-player mapping, the toss resolution and the win/tie decision are kept.
- `load_player_config`, `save_player_config` and the "remember" flags are JSON file I/O and are not modelled. A remembered choice enters `ResolveChoice` like a fresh one.
- `random.choice` becomes a nondeterministic pick. Its contract states only membership, not uniformity.
- Engine.DotsAndBoxesBoard.FindLeastDamagingMove: the fallback `random.choice(moves)` for an empty `best_moves` is not modelled. `best_moves` is never empty when `moves` is not, as `Strategy.LeastDamageScanMinimal` shows, and the method requires a non-empty `moves`, as `computer_move` guarantees.
- Grid sizes below 2 are excluded by the constructor's precondition: such a board has no edges. The UI offers 3 to 10.
- `copy_state` starts from a default-size widget and then overwrites every field. The model's copy does the same. The blink fields it also copies are not modelled.
- `make_move`'s `player` argument is ignored by the source and is not modelled.
- Engine.DotsAndBoxesBoard.SimulateOpponentChain: the call to `check_and_update_boxes_for_move` inside the loop is not modelled. Its answer is discarded, and it changes nothing.
- Engine.DotsAndBoxesBoard.CheckAndUpdateBoxes: the scan writes a new owner grid and new scores and stores them back. The source writes each cell and score in place. The final state is the same.
- Engine.DotsAndBoxesBoard.AvailableMoves: the two grids' lists are built separately and concatenated. The source appends to one list. The list is the same.
- `game_has_started`'s check that a board exists is not modelled. A game always has a board here.
- Engine.DotsAndBoxesBoard.FindSafeMove: states that the pick is safe and listed, not that it is uniform over the safe moves.
