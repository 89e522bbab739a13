/**
 * The game window's small decisions around the board: who moves first, how a
 * new game starts, whether a game is under way, and how a finished game is
 * announced.
 */
module GameSetup {
  import opened Wrappers
  import opened Rules
  import opened Engine
  import opened Strategy

  /** A first-player choice: a fixed player id, or a coin toss still to be made. */
  datatype FirstChoice = Fixed(player: int) | Random

  /** `_on_submit`: radio button 0 is the human, 1 the computer, 2 a coin toss;
      with no button checked the human goes first. */
  function ChoiceOfRadio(id: int): (c: FirstChoice)
    ensures c == Random <==> id == 2
    ensures c == Fixed(Computer) <==> id == 1
    ensures c == Fixed(Human) <==> id != 1 && id != 2
  {
    if id == 0 then Fixed(0)
    else if id == 1 then Fixed(1)
    else if id == 2 then Random
    else Fixed(0)
  }

  /** The animation dialog of `_determine_who_goes_first`: when it is accepted, a
      coin toss becomes the tossed player `coin`; otherwise the choice stays as it is. */
  function ResolveChoice(c: Option<FirstChoice>, coin: Player, accepted: bool): (r: Option<FirstChoice>)
    ensures c != Some(Random) || !accepted ==> r == c
    ensures c == Some(Random) && accepted ==> r == Some(Fixed(coin))
  {
    if c == Some(Random) && accepted then Some(Fixed(coin)) else c
  }

  /** `_reset_board_and_start`: only a choice of exactly the computer gives it the
      first move; any other outcome, a dismissed dialog or an unresolved toss
      included, starts with the human. */
  function FirstPlayer(c: Option<FirstChoice>): (p: Player)
    ensures p == Computer <==> c == Some(Fixed(Computer))
  {
    if c == Some(Fixed(1)) then Computer else Human
  }

  /** From radio button to first mover: 1 is the computer, 2 is the coin when the
      toss was shown to the end, everything else is the human. */
  lemma RadioDecidesFirstPlayer(id: int, coin: Player, accepted: bool)
    ensures FirstPlayer(ResolveChoice(Some(ChoiceOfRadio(id)), coin, accepted))
            == if id == 1 || (id == 2 && accepted && coin == Computer) then Computer else Human
  {
    if id == 2 && accepted {
      assert ResolveChoice(Some(ChoiceOfRadio(id)), coin, accepted) == Some(Fixed(coin));
    }
  }

  /** `_reset_board_and_start`: a fresh board, the first turn as chosen, and when
      the computer is first its turn is played at once. */
  method StartGame(gridSize: int, choice: Option<FirstChoice>)
    returns (board: DotsAndBoxesBoard, ghost played: seq<Move>)
    requires gridSize >= 2
    ensures fresh(board)
    ensures board.gridSize == gridSize
    ensures Consistent(board.State()) && Settled(board.State())
    ensures FirstPlayer(choice) == Human ==> played == [] && board.State() == NewBoard(gridSize)
    ensures FirstPlayer(choice) == Computer ==>
              var first := NewBoard(gridSize).(currentPlayer := Computer);
              && played != []
              && ComputerPlays(first, played) && board.State() == Replay(first, played)
              && (board.currentPlayer == Human || board.gameOver)
  {
    board := new DotsAndBoxesBoard(gridSize);
    if FirstPlayer(choice) == Computer {
      board.GiveFirstTurn(Computer);
      played := board.ComputerTurn();
    } else {
      board.GiveFirstTurn(Human);
      played := [];
    }
  }

  /** `game_has_started`: some row of either edge grid holds a drawn edge. */
  predicate GameHasStarted(s: State) {
    || (exists i | 0 <= i < |s.hLines| :: true in s.hLines[i])
    || (exists i | 0 <= i < |s.vLines| :: true in s.vLines[i])
  }

  /** A game has started exactly when some edge is drawn. */
  lemma GameHasStartedIffSomeDrawn(s: State)
    requires WellShaped(s)
    ensures GameHasStarted(s) <==> exists m | IsEdge(s.gridSize, m) :: Drawn(s, m)
  {
    if i :| 0 <= i < |s.hLines| && true in s.hLines[i] {
      var j :| 0 <= j < |s.hLines[i]| && s.hLines[i][j];
      assert IsEdge(s.gridSize, Move(i, j, true)) && Drawn(s, Move(i, j, true));
    } else if i :| 0 <= i < |s.vLines| && true in s.vLines[i] {
      var j :| 0 <= j < |s.vLines[i]| && s.vLines[i][j];
      assert IsEdge(s.gridSize, Move(i, j, false)) && Drawn(s, Move(i, j, false));
    } else {
      forall m | IsEdge(s.gridSize, m)
        ensures !Drawn(s, m)
      {
        if m.isH {
          assert s.hLines[m.r][m.c] in s.hLines[m.r];
        } else {
          assert s.vLines[m.r][m.c] in s.vLines[m.r];
        }
      }
    }
  }

  /** A fresh board has not started, and any move starts it. */
  lemma StartedByFirstMove(n: int, m: Move)
    requires n >= 2 && IsEdge(n, m)
    ensures !GameHasStarted(NewBoard(n))
    ensures GameHasStarted(AfterMove(NewBoard(n), m))
  {
    NewBoardSpec(n);
    GameHasStartedIffSomeDrawn(NewBoard(n));
    var t := AfterMove(NewBoard(n), m);
    assert Drawn(t, m);
    GameHasStartedIffSomeDrawn(t);
  }

  /** How the status line announces a finished game. */
  datatype Outcome = HumanWins | ComputerWins | Tie

  /** The higher score wins; equal scores are a tie. */
  function OutcomeOf(scores: seq<nat>): (o: Outcome)
    requires |scores| == 2
    ensures o == HumanWins <==> scores[Human] > scores[Computer]
    ensures o == ComputerWins <==> scores[Human] < scores[Computer]
    ensures o == Tie <==> scores[Human] == scores[Computer]
  {
    if scores[0] > scores[1] then HumanWins
    else if scores[0] < scores[1] then ComputerWins
    else Tie
  }

  /** With an odd number of boxes a finished game cannot be a tie, since the
      scores add up to the number of boxes. */
  lemma NoTieWithOddBoxCount(s: State)
    requires Consistent(s) && Settled(s) && s.gameOver && (s.gridSize - 1) % 2 == 1
    ensures OutcomeOf(s.scores) != Tie
  {
    FinalScoresCoverBoard(s);
    var k := s.gridSize - 1;
    var h := k / 2;
    assert k == 2 * h + 1;
    assert k * k == 2 * (2 * h * h + 2 * h) + 1;
  }
}
