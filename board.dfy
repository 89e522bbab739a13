/**
 * The game board: its grids, scores and turn flags are fields that the moves
 * update in place. `State()` reads them as a `Rules.State` value, and every
 * method is specified by the functions of `Rules`, `Catalog` and `Strategy`.
 */
module Engine {
  import opened Wrappers
  import opened Grids
  import opened Rules
  import opened Catalog
  import opened Strategy

  /** Dots per side of a board built without an explicit size (a 3 by 3 box game). */
  const GRID_SIZE: int := 4

  /** One double loop of `available_moves`: the undrawn edges of grid `g`, row by
      row and, within a row, by column. */
  method UndrawnEdgesOf(g: seq<seq<bool>>, rows: int, cols: int, isH: bool) returns (moves: seq<Move>)
    requires rows >= 0 && cols >= 0 && IsGrid(g, rows, cols)
    ensures moves == GridMoves(g, isH, rows)
  {
    moves := [];
    for r := 0 to rows
      invariant moves == GridMoves(g, isH, r)
    {
      for c := 0 to cols
        invariant moves == GridMoves(g, isH, r) + RowMoves(g[r], r, isH, c)
      {
        if !g[r][c] {
          moves := moves + [Move(r, c, isH)];
        }
      }
    }
  }

  /** The two loops of `check_and_update_boxes`, row by row, building the new
      box grid and scores of board `s`: every unowned complete box goes to the
      player to move, who scores one for it. */
  method ScanBoxes(s: State) returns (owners: seq<seq<Option<Player>>>, points: seq<nat>, madeBox: bool)
    requires WellShaped(s)
    ensures owners == ClaimAll(s)
    ensures points == s.scores[s.currentPlayer := s.scores[s.currentPlayer] + NewCount(s)]
    ensures madeBox <==> NewCount(s) > 0
  {
    var cur := s.currentPlayer;
    owners := s.boxes;
    points := s.scores;
    madeBox := false;
    for r := 0 to s.gridSize - 1
      invariant owners == PartlyClaimed(s, r)
      invariant |points| == 2 && points[1 - cur] == s.scores[1 - cur]
      invariant points[cur] == s.scores[cur] + ClaimableInRows(s, r)
      invariant madeBox <==> ClaimableInRows(s, r) > 0
    {
      PartlyClaimedStep(s, r);
      var row, claimed := ScanRow(s, r);
      owners := owners[r := row];
      points := points[cur := points[cur] + claimed];
      madeBox := madeBox || claimed > 0;
    }
    assert owners == ClaimAll(s);
  }

  /** The inner loop of `check_and_update_boxes` over row `r` of board `s`: each
      unowned box with four drawn sides goes to the player to move. Gives the new
      row and the number of boxes claimed in it. */
  method ScanRow(s: State, r: int) returns (row: seq<Option<Player>>, claimed: nat)
    requires WellShaped(s) && 0 <= r < s.gridSize - 1
    ensures row == ClaimAll(s)[r]
    ensures claimed == ClaimableInRow(s, r, s.gridSize - 1)
    ensures claimed <= s.gridSize - 1
  {
    var n := s.gridSize;
    var cur := s.currentPlayer;
    row := s.boxes[r];
    claimed := 0;
    assert PartlyClaimedRow(s, r, 0) == row;
    for c := 0 to n - 1
      invariant row == PartlyClaimedRow(s, r, c)
      invariant claimed == ClaimableInRow(s, r, c) <= c
    {
      assert row[c] == s.boxes[r][c];
      if row[c].Some? {
        assert PartlyClaimedRow(s, r, c + 1) == row;
        continue;
      }
      if s.hLines[r][c] && s.hLines[r + 1][c] && s.vLines[r][c] && s.vLines[r][c + 1] {
        assert PartlyClaimedRow(s, r, c + 1) == row[c := Some(cur)];
        row := row[c := Some(cur)];
        claimed := claimed + 1;
      } else {
        assert PartlyClaimedRow(s, r, c + 1) == row;
      }
    }
    assert PartlyClaimedRow(s, r, n - 1) == ClaimAll(s)[r];
  }

  class DotsAndBoxesBoard {
    var gridSize: int
    var hLines: seq<seq<bool>>
    var vLines: seq<seq<bool>>
    var boxes: seq<seq<Option<Player>>>
    var currentPlayer: Player
    var scores: seq<nat>
    var gameOver: bool
    var lastMove: Option<Move>

    function State(): Rules.State
      reads this
    {
      Rules.State(gridSize, hLines, vLines, boxes, scores, currentPlayer, gameOver, lastMove)
    }

    /** A fresh board: every edge undrawn, no box owned, scores 0, the human to move. */
    constructor (gridSize: int)
      requires gridSize >= 2
      ensures State() == NewBoard(gridSize)
      ensures Consistent(State()) && Settled(State())
    {
      this.gridSize := gridSize;
      hLines := seq(gridSize, _ => seq(gridSize - 1, _ => false));
      vLines := seq(gridSize - 1, _ => seq(gridSize, _ => false));
      boxes := seq(gridSize - 1, _ => seq(gridSize - 1, _ => None));
      currentPlayer := Human;
      scores := [0, 0];
      gameOver := false;
      lastMove := None;
      new;
      NewBoardSpec(gridSize);
    }

    /** The game hands the first turn of a fresh board to the chosen player. */
    method GiveFirstTurn(first: Player)
      requires Consistent(State()) && Settled(State())
      modifies this
      ensures State() == old(State()).(currentPlayer := first)
      ensures Consistent(State()) && Settled(State())
    {
      currentPlayer := first;
    }

    /** `make_move`: draws edge `m`, whoever plays it; nothing else changes. */
    method MakeMove(m: Move)
      requires Consistent(State()) && IsEdge(gridSize, m)
      modifies this
      ensures State() == WithEdge(old(State()), m)
      ensures Consistent(State())
    {
      WithEdgeConsistent(State(), m);
      if m.isH {
        hLines := hLines[m.r := hLines[m.r][m.c := true]];
      } else {
        vLines := vLines[m.r := vLines[m.r][m.c := true]];
      }
    }

    /** `check_and_update_boxes`: the full scan. Every unowned complete box goes to
        the player to move, whose score rises by the number claimed; the result says
        whether any box was claimed; the game is flagged over once every edge is drawn. */
    method CheckAndUpdateBoxes() returns (madeBox: bool)
      requires Consistent(State())
      modifies this
      ensures State() == Claimed(old(State()))
      ensures madeBox <==> NewCount(old(State())) > 0
      ensures old(gameOver) ==> gameOver
      ensures Consistent(State()) && Settled(State())
    {
      ghost var s0 := State();
      var owners, points;
      owners, points, madeBox := ScanBoxes(State());
      boxes := owners;
      scores := points;
      if IsGameOver(State()) {
        gameOver := true;
      }
      assert State() == Claimed(s0);
      ClaimedConsistent(s0);
    }

    /** `available_moves`: the catalogue of undrawn edges, horizontal grid first. */
    method AvailableMoves() returns (moves: seq<Move>)
      requires WellShaped(State())
      ensures moves == UndrawnMoves(State())
    {
      var hs := UndrawnEdgesOf(hLines, gridSize, gridSize - 1, true);
      var vs := UndrawnEdgesOf(vLines, gridSize - 1, gridSize, false);
      moves := hs + vs;
    }

    /** `copy_state`: a new board with the same grids and flags. The grids are
        values, so drawing on the copy cannot reach the original. */
    method CopyState() returns (copy: DotsAndBoxesBoard)
      requires Consistent(State())
      ensures fresh(copy)
      ensures copy.State() == State() && Consistent(copy.State())
    {
      copy := new DotsAndBoxesBoard(GRID_SIZE);
      copy.gridSize := gridSize;
      copy.hLines := hLines;
      copy.vLines := vLines;
      copy.boxes := boxes;
      copy.currentPlayer := currentPlayer;
      copy.scores := scores;
      copy.gameOver := gameOver;
      copy.lastMove := lastMove;
    }

    /** The deep copy at work: an edge drawn on a copy shows on the copy only. The
        method may change nothing that existed before it ran, this board included. */
    method DrawOnCopy(m: Move) returns (copy: DotsAndBoxesBoard)
      requires Consistent(State()) && IsEdge(gridSize, m)
      ensures fresh(copy) && copy.State() == WithEdge(State(), m)
      ensures State() == old(State())
    {
      copy := CopyState();
      copy.MakeMove(m);
    }

    /** One probe of `_find_box_completing_move`: draw `m` on a copy and run the
        move-local scan there. */
    method CompletesOnCopy(m: Move) returns (completes: bool)
      requires Consistent(State()) && IsEdge(gridSize, m)
      ensures completes == CompletesBox(State(), m)
    {
      var test := DrawOnCopy(m);
      completes := CheckAndUpdateBoxesForMove(test.State(), m);
    }

    /** `_find_box_completing_move`: the first move of `moves` that, drawn on a
        copy of the board, lets the move-local scan find a box; None if none does. */
    method FindBoxCompletingMove(moves: seq<Move>) returns (found: Option<Move>)
      requires Consistent(State()) && forall i | 0 <= i < |moves| :: IsEdge(gridSize, moves[i])
      ensures found.None? <==> forall i | 0 <= i < |moves| :: !CompletesBox(State(), moves[i])
      ensures found.Some? ==>
                exists i :: 0 <= i < |moves| && moves[i] == found.value && CompletesBox(State(), moves[i])
                            && forall j | 0 <= j < i :: !CompletesBox(State(), moves[j])
    {
      ghost var s := State();
      for i := 0 to |moves|
        invariant State() == s
        invariant forall j | 0 <= j < i :: !CompletesBox(s, moves[j])
      {
        var completes := CompletesOnCopy(moves[i]);
        if completes {
          return Some(moves[i]);
        }
      }
      return None;
    }

    /** `_find_safe_move`: a move of `moves` that gives no box a third side, picked
        at random among all such moves; None exactly when there is none. */
    method FindSafeMove(moves: seq<Move>) returns (choice: Option<Move>)
      requires Consistent(State()) && forall m | m in moves :: IsEdge(gridSize, m)
      ensures choice.None? <==> forall m | m in moves :: MoveMakesThirdSide(State(), m)
      ensures choice.Some? ==> choice.value in SafeMoves(State(), moves)
      ensures choice.Some? ==> choice.value in moves && !MoveMakesThirdSide(State(), choice.value)
    {
      var safe := SafeMoves(State(), moves);
      if safe == [] {
        return None;
      }
      var k :| 0 <= k < |safe|;
      assert safe[k] in safe;
      return Some(safe[k]);
    }

    /** `_simulate_opponent_chain`, run on a copy: while some undrawn edge would
        complete boxes, draw the first one completing the most and add its count. */
    method SimulateOpponentChain() returns (total: nat)
      requires Consistent(State())
      modifies this
      ensures (total, State()) == OpponentChain(old(State()))
      ensures Consistent(State())
    {
      ghost var chain := OpponentChain(State());
      assert chain == OpponentChain(old(State()));
      total := 0;
      while true
        invariant Consistent(State())
        invariant chain.0 == total + OpponentChain(State()).0
        invariant chain.1 == OpponentChain(State()).1
        decreases UndrawnCount(State())
      {
        ghost var s := State();
        var moves := AvailableMoves();
        UndrawnMovesSpec(s);
        var best, bestCount := BestClaimMove(moves);
        if best.Some? && bestCount > 0 {
          BestClaimSpec(s, moves);
          OpponentChainStep(s, best.value, bestCount);
          WithEdgeDrawsOne(s, best.value);
          MakeMove(best.value);
          // The source also calls check_and_update_boxes_for_move here and ignores its answer.
          total := total + bestCount;
        } else {
          OpponentChainStops(s);
          assert total == chain.0;
          assert State() == s;
          assert State() == chain.1;
          break;
        }
      }
    }

    /** The inner loop of `_simulate_opponent_chain`: the first move of `moves`
        completing the most boxes, with that number; nothing when none completes any. */
    method BestClaimMove(moves: seq<Move>) returns (best: Option<Move>, bestCount: nat)
      requires WellShaped(State()) && forall i | 0 <= i < |moves| :: IsEdge(gridSize, moves[i])
      ensures (best, bestCount) == BestClaim(State(), moves)
    {
      best := None;
      bestCount := 0;
      for i := 0 to |moves|
        invariant (best, bestCount) == BestClaim(State(), moves[..i])
      {
        assert moves[..i + 1][..i] == moves[..i];
        var count := CountNewBoxes(State(), moves[i]);
        if count > bestCount {
          bestCount := count;
          best := Some(moves[i]);
        }
      }
      assert moves[..|moves|] == moves;
    }

    /** One round of `_find_least_damaging_move`: draw `m` on a copy and simulate
        the opponent's chain there. This board is not touched. */
    method ChainAfter(m: Move) returns (chain: nat)
      requires Consistent(State()) && IsEdge(gridSize, m)
      ensures chain == ChainCost(State(), m)
    {
      var test := CopyState();
      test.MakeMove(m);
      chain := test.SimulateOpponentChain();
    }

    /** `_find_least_damaging_move`: for each move, draw it on a copy and simulate
        the opponent's chain; pick at random among the moves of smallest chain. */
    method FindLeastDamagingMove(moves: seq<Move>) returns (choice: Move)
      requires Consistent(State()) && moves != [] && forall m | m in moves :: IsEdge(gridSize, m)
      ensures choice in LeastDamageScan(moves, ChainCosts(State(), moves)).1
      ensures choice in moves
      ensures forall m | m in moves :: ChainCost(State(), choice) <= ChainCost(State(), m)
    {
      var minChain, bestMoves := ScanChains(moves);
      LeastDamageScanMinimal(moves, ChainCosts(State(), moves));
      var k :| 0 <= k < |bestMoves|;
      choice := bestMoves[k];
      LeastDamagePickIsMinimal(State(), moves, choice);
    }

    /** The loop of `_find_least_damaging_move`: the least chain cost over
        `moves` and the moves reaching it, in order. */
    method ScanChains(moves: seq<Move>) returns (minChain: Option<nat>, bestMoves: seq<Move>)
      requires Consistent(State()) && forall m | m in moves :: IsEdge(gridSize, m)
      ensures (minChain, bestMoves) == LeastDamageScan(moves, ChainCosts(State(), moves))
    {
      ghost var costs := ChainCosts(State(), moves);
      minChain := None;
      bestMoves := [];
      for i := 0 to |moves|
        invariant (minChain, bestMoves) == LeastDamageScan(moves[..i], costs[..i])
      {
        LeastDamageScanStep(moves, costs, i);
        var chain := ChainAfter(moves[i]);
        if minChain.None? || chain < minChain.value {
          minChain := Some(chain);
          bestMoves := [moves[i]];
        } else if chain == minChain.value {
          bestMoves := bestMoves + [moves[i]];
        }
      }
      assert moves[..|moves|] == moves && costs[..|costs|] == costs;
    }

    /** `_execute_computer_move`: draw the edge, remember it, scan; the computer
        keeps the turn if it claimed a box, otherwise the human moves next. */
    method ExecuteComputerMove(m: Move)
      requires Consistent(State()) && IsEdge(gridSize, m) && currentPlayer == Computer
      modifies this
      ensures State() == AfterMove(old(State()), m)
      ensures Consistent(State()) && Settled(State())
    {
      ghost var s := State();
      MakeMove(m);
      ghost var drawn := State().(lastMove := Some(m));
      InvariantsIgnoreTurn(State(), currentPlayer, Some(m));
      lastMove := Some(m);
      assert State() == drawn;
      var madeBox := CheckAndUpdateBoxes();
      ghost var t := State();
      assert t == Claimed(drawn);
      if !madeBox {
        InvariantsIgnoreTurn(t, Human, t.lastMove);
        currentPlayer := Human;
        assert State() == t.(currentPlayer := Human);
      }
    }

    /** `computer_move`: when it is the computer's turn and the game is not over,
        pick a move by the three tiers and play it. */
    method ComputerMove() returns (played: Option<Move>)
      requires Consistent(State()) && Settled(State())
      modifies this
      ensures Consistent(State()) && Settled(State())
      ensures played.None? <==> old(currentPlayer != Computer || gameOver)
      ensures played.None? ==> State() == old(State())
      ensures played.Some? ==>
                && IsEdge(old(gridSize), played.value) && !Drawn(old(State()), played.value)
                && PlaysByTiers(old(State()), played.value)
                && State() == AfterMove(old(State()), played.value)
    {
      if currentPlayer != Computer || gameOver {
        return None;
      }
      var moves := AvailableMoves();
      GameOverIffNoMoves(State());
      var move := ChooseMove(moves);
      ExecuteComputerMove(move);
      return Some(move);
    }

    /** The three tiers of `computer_move` over the catalogue `moves`: a box-completing
        move, else a safe move, else a move of least chain cost. */
    method ChooseMove(moves: seq<Move>) returns (move: Move)
      requires Consistent(State()) && moves == UndrawnMoves(State()) && moves != []
      ensures IsEdge(gridSize, move) && !Drawn(State(), move)
      ensures PlaysByTiers(State(), move)
    {
      UndrawnMovesSpec(State());
      var found := FindBoxCompletingMove(moves);
      if found.Some? {
        ghost var i :| 0 <= i < |moves| && moves[i] == found.value && CompletesBox(State(), moves[i])
                       && forall j | 0 <= j < i :: !CompletesBox(State(), moves[j]);
        FirstCompletingPlaysByTiers(State(), moves, i);
        return found.value;
      }
      found := FindSafeMove(moves);
      if found.Some? {
        SafePlaysByTiers(State(), moves, found.value);
        return found.value;
      }
      move := FindLeastDamagingMove(moves);
      FallbackPlaysByTiers(State(), moves, move);
    }

    /** The computer's whole turn: `computer_move` is scheduled again after every
        move that claimed a box, so the computer moves until it claims nothing or
        the game is over. */
    method ComputerTurn() returns (ghost played: seq<Move>)
      requires Consistent(State()) && Settled(State())
      modifies this
      ensures Consistent(State()) && Settled(State())
      ensures currentPlayer != Computer || gameOver
      ensures played == [] <==> old(currentPlayer != Computer || gameOver)
      ensures ComputerPlays(old(State()), played)
      ensures State() == Replay(old(State()), played)
      ensures gridSize == old(gridSize)
      ensures forall e | IsEdge(gridSize, e) :: Drawn(State(), e) <==> Drawn(old(State()), e) || e in played
    {
      ghost var s0 := State();
      played := [];
      while currentPlayer == Computer && !gameOver
        invariant Consistent(State()) && Settled(State())
        invariant gridSize == s0.gridSize
        invariant ComputerPlays(s0, played) && State() == Replay(s0, played)
        invariant s0.currentPlayer != Computer || s0.gameOver ==> played == []
        invariant played == [] ==> State() == s0
        decreases UndrawnCount(State())
      {
        ghost var before := State();
        var move := ComputerMove();
        AfterMoveDrawsOne(before, move.value);
        ComputerPlaysExtend(s0, played, move.value);
        played := played + [move.value];
      }
      ReplayDrawsMoves(s0, played);
    }

    /** The move part of `mousePressEvent`, from an already decoded click: ignored
        unless it is the human's turn, the game is on, the click hit an edge and the
        edge is undrawn; otherwise the move is played and the turn passes to the
        computer only when no box was claimed. */
    method HumanMove(click: Option<Move>) returns (accepted: bool)
      requires Consistent(State()) && Settled(State())
      requires click.Some? ==> IsEdge(gridSize, click.value)
      modifies this
      ensures Consistent(State()) && Settled(State())
      ensures accepted <==> old(currentPlayer == Human && !gameOver && click.Some? && !Drawn(State(), click.value))
      ensures !accepted ==> State() == old(State())
      ensures accepted ==> State() == AfterMove(old(State()), click.value)
    {
      if currentPlayer != Human || gameOver {
        return false;
      }
      if click.None? {
        return false;
      }
      var m := click.value;
      if m.isH {
        if hLines[m.r][m.c] {
          return false;
        }
      } else {
        if vLines[m.r][m.c] {
          return false;
        }
      }
      PlayHumanMove(m);
      return true;
    }

    /** The second half of `mousePressEvent`: draw the clicked edge, remember it,
        scan; the human keeps the turn if a box was claimed, otherwise the
        computer moves next. */
    method PlayHumanMove(m: Move)
      requires Consistent(State()) && IsEdge(gridSize, m) && currentPlayer == Human
      modifies this
      ensures State() == AfterMove(old(State()), m)
      ensures Consistent(State()) && Settled(State())
    {
      MakeMove(m);
      ghost var drawn := State().(lastMove := Some(m));
      InvariantsIgnoreTurn(State(), currentPlayer, Some(m));
      lastMove := Some(m);
      assert State() == drawn;
      var madeBox := CheckAndUpdateBoxes();
      ghost var t := State();
      assert t == Claimed(drawn);
      if !madeBox {
        InvariantsIgnoreTurn(t, Computer, t.lastMove);
        currentPlayer := Computer;
        assert State() == t.(currentPlayer := Computer);
      }
    }
  }
}
