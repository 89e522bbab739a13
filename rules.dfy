/**
 * The board of a Dots and Boxes game as a value: the drawn edges, the box
 * owners, the scores, whose turn it is and whether the game is over, together
 * with the read-only queries the board answers about itself.
 *
 * A board of `gridSize` dots per side has
 *   - `hLines`: gridSize rows of gridSize-1 horizontal edges,
 *   - `vLines`: gridSize-1 rows of gridSize vertical edges,
 *   - `boxes`:  gridSize-1 rows of gridSize-1 optional owners.
 */
module Rules {
  import opened Wrappers
  import opened Grids

  /** Player ids as the game numbers them: 0 is the human, 1 the computer. */
  type Player = p: int | 0 <= p < 2
  const Human: Player := 0
  const Computer: Player := 1

  /** An edge `(r, c, is_h)`: horizontal edges join dots (r, c) and (r, c+1),
      vertical ones join dots (r, c) and (r+1, c). */
  datatype Move = Move(r: int, c: int, isH: bool)

  /** A box by its top-left dot. */
  datatype Box = Box(r: int, c: int)

  datatype State = State(
    gridSize: int,
    hLines: seq<seq<bool>>,
    vLines: seq<seq<bool>>,
    boxes: seq<seq<Option<Player>>>,
    scores: seq<nat>,
    currentPlayer: Player,
    gameOver: bool,
    lastMove: Option<Move>)

  /** Every grid has the dimensions `gridSize` calls for. */
  predicate WellShaped(s: State) {
    && s.gridSize >= 2
    && IsGrid(s.hLines, s.gridSize, s.gridSize - 1)
    && IsGrid(s.vLines, s.gridSize - 1, s.gridSize)
    && IsGrid(s.boxes, s.gridSize - 1, s.gridSize - 1)
    && |s.scores| == 2
  }

  predicate IsEdge(n: int, m: Move) {
    if m.isH then 0 <= m.r < n && 0 <= m.c < n - 1
    else 0 <= m.r < n - 1 && 0 <= m.c < n
  }

  predicate IsBox(n: int, b: Box) {
    0 <= b.r < n - 1 && 0 <= b.c < n - 1
  }

  function Drawn(s: State, m: Move): bool
    requires WellShaped(s) && IsEdge(s.gridSize, m)
  {
    if m.isH then s.hLines[m.r][m.c] else s.vLines[m.r][m.c]
  }

  /** `m` is the top, bottom, left or right side of `b`. */
  predicate IsSideOf(m: Move, b: Box) {
    || m == Move(b.r, b.c, true)
    || m == Move(b.r + 1, b.c, true)
    || m == Move(b.r, b.c, false)
    || m == Move(b.r, b.c + 1, false)
  }

  /** All four sides of `b` are drawn. */
  predicate Complete(s: State, b: Box)
    requires WellShaped(s) && IsBox(s.gridSize, b)
  {
    && Drawn(s, Move(b.r, b.c, true))
    && Drawn(s, Move(b.r + 1, b.c, true))
    && Drawn(s, Move(b.r, b.c, false))
    && Drawn(s, Move(b.r, b.c + 1, false))
  }

  /** A box the next full scan would claim: complete and still unowned. */
  predicate Claimable(s: State, b: Box)
    requires WellShaped(s) && IsBox(s.gridSize, b)
  {
    Complete(s, b) && s.boxes[b.r][b.c].None?
  }

  /** `is_game_over`: no row of either edge grid contains an undrawn edge. */
  predicate IsGameOver(s: State) {
    GridFull(s.hLines) && GridFull(s.vLines)
  }

  /** No row of `g` contains `False`. */
  predicate GridFull(g: seq<seq<bool>>) {
    forall i | 0 <= i < |g| :: RowFull(g, i)
  }

  predicate RowFull(g: seq<seq<bool>>, i: int)
    requires 0 <= i < |g|
  {
    false !in g[i]
  }

  lemma IsGameOverIffAllDrawn(s: State)
    requires WellShaped(s)
    ensures IsGameOver(s) <==> forall m | IsEdge(s.gridSize, m) :: Drawn(s, m)
  {
    if IsGameOver(s) {
      forall m | IsEdge(s.gridSize, m)
        ensures Drawn(s, m)
      {
        if m.isH {
          assert RowFull(s.hLines, m.r) && s.hLines[m.r][m.c] in s.hLines[m.r];
        } else {
          assert RowFull(s.vLines, m.r) && s.vLines[m.r][m.c] in s.vLines[m.r];
        }
      }
    } else {
      if i :| 0 <= i < |s.hLines| && !RowFull(s.hLines, i) {
        var j :| 0 <= j < |s.hLines[i]| && !s.hLines[i][j];
        assert IsEdge(s.gridSize, Move(i, j, true)) && !Drawn(s, Move(i, j, true));
      } else {
        var i :| 0 <= i < |s.vLines| && !RowFull(s.vLines, i);
        var j :| 0 <= j < |s.vLines[i]| && !s.vLines[i][j];
        assert IsEdge(s.gridSize, Move(i, j, false)) && !Drawn(s, Move(i, j, false));
      }
    }
  }

  /** Number of undrawn edges; every real move lowers it by one. */
  function UndrawnCount(s: State): nat {
    CountGrid(s.hLines, false) + CountGrid(s.vLines, false)
  }

  predicate OwnedIsComplete(s: State, b: Box)
    requires WellShaped(s) && IsBox(s.gridSize, b)
  {
    s.boxes[b.r][b.c].Some? ==> Complete(s, b)
  }

  predicate CompleteIsOwned(s: State, b: Box)
    requires WellShaped(s) && IsBox(s.gridSize, b)
  {
    Complete(s, b) ==> s.boxes[b.r][b.c].Some?
  }

  /** Invariant of every board the game builds: owned boxes are complete,
      each score counts the boxes its player owns, and a finished game has every
      edge drawn. */
  predicate Consistent(s: State) {
    && WellShaped(s)
    && (forall r, c | 0 <= r < s.gridSize - 1 && 0 <= c < s.gridSize - 1 :: OwnedIsComplete(s, Box(r, c)))
    && s.scores[Human] == CountGrid(s.boxes, Some(Human))
    && s.scores[Computer] == CountGrid(s.boxes, Some(Computer))
    && (s.gameOver ==> IsGameOver(s))
  }

  /** What a full scan leaves behind: no complete box is unowned and a board with
      every edge drawn is flagged as finished. */
  predicate Settled(s: State)
    requires WellShaped(s)
  {
    && (forall r, c | 0 <= r < s.gridSize - 1 && 0 <= c < s.gridSize - 1 :: CompleteIsOwned(s, Box(r, c)))
    && (IsGameOver(s) ==> s.gameOver)
  }

  /** Whose turn it is and which move came last play no part in the invariants. */
  lemma InvariantsIgnoreTurn(s: State, p: Player, last: Option<Move>)
    requires Consistent(s)
    ensures Consistent(s.(currentPlayer := p, lastMove := last))
    ensures Settled(s) ==> Settled(s.(currentPlayer := p, lastMove := last))
  {
    var t := s.(currentPlayer := p, lastMove := last);
    assert forall r, c | 0 <= r < s.gridSize - 1 && 0 <= c < s.gridSize - 1 ::
      Complete(t, Box(r, c)) == Complete(s, Box(r, c));
  }

  /** A fresh board as the board's constructor builds it. */
  function NewBoard(n: int): (s: State)
    requires n >= 2
    ensures WellShaped(s)
  {
    State(n, seq(n, _ => seq(n - 1, _ => false)), seq(n - 1, _ => seq(n, _ => false)),
          seq(n - 1, _ => seq(n - 1, _ => None)), [0, 0], Human, false, None)
  }

  /** A fresh board has no edge drawn and no box owned, satisfies the invariants,
      and has a move left. */
  lemma NewBoardSpec(n: int)
    requires n >= 2
    ensures WellShaped(NewBoard(n))
    ensures forall m | IsEdge(n, m) :: !Drawn(NewBoard(n), m)
    ensures forall r, c | 0 <= r < n - 1 && 0 <= c < n - 1 :: NewBoard(n).boxes[r][c].None?
    ensures Consistent(NewBoard(n)) && Settled(NewBoard(n))
    ensures UndrawnCount(NewBoard(n)) > 0
  {
    var s := NewBoard(n);
    assert WellShaped(s);
    CountGridAbsent(s.boxes, Some(Human));
    CountGridAbsent(s.boxes, Some(Computer));
    assert !s.hLines[0][0] && !RowFull(s.hLines, 0);
    CountGridUpdate(s.hLines, 0, 0, true, false);
  }

  /** `make_move`: the board with edge `m` drawn and nothing else changed. */
  function WithEdge(s: State, m: Move): (t: State)
    requires WellShaped(s) && IsEdge(s.gridSize, m)
    ensures WellShaped(t)
    ensures t == s.(hLines := t.hLines, vLines := t.vLines)
    ensures forall e | IsEdge(s.gridSize, e) :: Drawn(t, e) <==> e == m || Drawn(s, e)
  {
    if m.isH then s.(hLines := s.hLines[m.r := s.hLines[m.r][m.c := true]])
    else s.(vLines := s.vLines[m.r := s.vLines[m.r][m.c := true]])
  }

  /** Drawing an undrawn edge lowers the number of undrawn edges by exactly one. */
  lemma WithEdgeDrawsOne(s: State, m: Move)
    requires WellShaped(s) && IsEdge(s.gridSize, m) && !Drawn(s, m)
    ensures UndrawnCount(WithEdge(s, m)) == UndrawnCount(s) - 1
  {
    if m.isH {
      CountGridUpdate(s.hLines, m.r, m.c, true, false);
    } else {
      CountGridUpdate(s.vLines, m.r, m.c, true, false);
    }
  }

  /** Drawing an edge keeps the board's invariant: edges are only ever added. */
  lemma {:induction false} WithEdgeConsistent(s: State, m: Move)
    requires Consistent(s) && IsEdge(s.gridSize, m)
    ensures Consistent(WithEdge(s, m))
  {
    var t := WithEdge(s, m);
    forall r, c | 0 <= r < s.gridSize - 1 && 0 <= c < s.gridSize - 1 && t.boxes[r][c].Some?
      ensures Complete(t, Box(r, c))
    {
      assert Complete(s, Box(r, c));
    }
    if s.gameOver {
      IsGameOverIffAllDrawn(s);
      IsGameOverIffAllDrawn(t);
    }
  }

  /** `_adjacent_boxes`: the boxes on either side of an edge. */
  function AdjacentBoxes(n: int, m: Move): (adj: seq<Box>)
    requires IsEdge(n, m)
    ensures forall b :: b in adj <==> IsBox(n, b) && IsSideOf(m, b)
    ensures |adj| == if (m.isH && (m.r == 0 || m.r == n - 1)) || (!m.isH && (m.c == 0 || m.c == n - 1))
                     then 1 else 2
  {
    if m.isH then
      (if m.r > 0 then [Box(m.r - 1, m.c)] else []) + (if m.r < n - 1 then [Box(m.r, m.c)] else [])
    else
      (if m.c > 0 then [Box(m.r, m.c - 1)] else []) + (if m.c < n - 1 then [Box(m.r, m.c)] else [])
  }

  /** Number of boxes of `bs` that are claimable. */
  function CountClaimable(s: State, bs: seq<Box>): (k: nat)
    requires WellShaped(s) && forall b | b in bs :: IsBox(s.gridSize, b)
    ensures k <= |bs|
    ensures k == 0 <==> forall b | b in bs :: !Claimable(s, b)
  {
    if bs == [] then 0
    else (if Claimable(s, bs[0]) then 1 else 0) + CountClaimable(s, bs[1..])
  }

  /** `_count_new_boxes`: how many boxes next to `m` are complete and unowned. */
  function CountNewBoxes(s: State, m: Move): nat
    requires WellShaped(s) && IsEdge(s.gridSize, m)
  {
    CountClaimable(s, AdjacentBoxes(s.gridSize, m))
  }

  /** An undrawn edge is a side of every box next to it, so none of them is
      complete: the count is always zero. */
  lemma CountNewBoxesOfUndrawnEdge(s: State, m: Move)
    requires WellShaped(s) && IsEdge(s.gridSize, m) && !Drawn(s, m)
    ensures CountNewBoxes(s, m) == 0
  {
    forall b | b in AdjacentBoxes(s.gridSize, m)
      ensures !Claimable(s, b)
    {
      assert IsSideOf(m, b);
    }
  }

  /** `check_and_update_boxes_for_move`: some box next to `m` is complete and
      unowned; reads the board and changes nothing. */
  predicate CheckAndUpdateBoxesForMove(s: State, m: Move)
    requires WellShaped(s) && IsEdge(s.gridSize, m)
  {
    exists b :: b in AdjacentBoxes(s.gridSize, m) && Claimable(s, b)
  }

  /** `_box_has_two_sides` counts the drawn sides of a box. */
  function SidesDrawn(s: State, b: Box): (k: nat)
    requires WellShaped(s) && IsBox(s.gridSize, b)
    ensures k <= 4
    ensures k == 4 <==> Complete(s, b)
  {
    (if s.hLines[b.r][b.c] then 1 else 0) + (if s.hLines[b.r + 1][b.c] then 1 else 0)
    + (if s.vLines[b.r][b.c] then 1 else 0) + (if s.vLines[b.r][b.c + 1] then 1 else 0)
  }

  predicate BoxHasTwoSides(s: State, b: Box)
    requires WellShaped(s) && IsBox(s.gridSize, b)
  {
    SidesDrawn(s, b) == 2
  }

  /** Drawing a side of a box that was not drawn adds one to its drawn sides;
      drawing an edge that is not one of its sides changes nothing. */
  lemma SidesDrawnWithEdge(s: State, m: Move, b: Box)
    requires WellShaped(s) && IsEdge(s.gridSize, m) && IsBox(s.gridSize, b)
    ensures SidesDrawn(WithEdge(s, m), b)
            == SidesDrawn(s, b) + (if IsSideOf(m, b) && !Drawn(s, m) then 1 else 0)
  {
    var t := WithEdge(s, m);
    if m.isH {
      assert t.vLines == s.vLines;
      assert t.hLines[b.r][b.c] == (Move(b.r, b.c, true) == m || s.hLines[b.r][b.c]);
      assert t.hLines[b.r + 1][b.c] == (Move(b.r + 1, b.c, true) == m || s.hLines[b.r + 1][b.c]);
    } else {
      assert t.hLines == s.hLines;
      assert t.vLines[b.r][b.c] == (Move(b.r, b.c, false) == m || s.vLines[b.r][b.c]);
      assert t.vLines[b.r][b.c + 1] == (Move(b.r, b.c + 1, false) == m || s.vLines[b.r][b.c + 1]);
    }
  }

  /** `move_makes_third_side`: the box above/below (or left/right of) `m` has
      exactly two drawn sides. */
  predicate MoveMakesThirdSide(s: State, m: Move)
    requires WellShaped(s) && IsEdge(s.gridSize, m)
  {
    var n := s.gridSize;
    if m.isH then
      || (m.r > 0 && BoxHasTwoSides(s, Box(m.r - 1, m.c)))
      || (m.r < n - 1 && BoxHasTwoSides(s, Box(m.r, m.c)))
    else
      || (m.c > 0 && BoxHasTwoSides(s, Box(m.r, m.c - 1)))
      || (m.c < n - 1 && BoxHasTwoSides(s, Box(m.r, m.c)))
  }

  /** The safety test looks at exactly the boxes adjacency yields, and for an
      undrawn edge it means: drawing it leaves some adjacent box one side short
      of complete, a box the opponent can then take. */
  lemma MoveMakesThirdSideMeaning(s: State, m: Move)
    requires WellShaped(s) && IsEdge(s.gridSize, m)
    ensures MoveMakesThirdSide(s, m)
            <==> exists b :: b in AdjacentBoxes(s.gridSize, m) && BoxHasTwoSides(s, b)
    ensures !Drawn(s, m) ==>
            (MoveMakesThirdSide(s, m)
             <==> exists b :: b in AdjacentBoxes(s.gridSize, m) && SidesDrawn(WithEdge(s, m), b) == 3)
  {
    var n := s.gridSize;
    var adj := AdjacentBoxes(n, m);
    forall b | b in adj
      ensures SidesDrawn(WithEdge(s, m), b) == SidesDrawn(s, b) + (if !Drawn(s, m) then 1 else 0)
    {
      SidesDrawnWithEdge(s, m, b);
    }
    if m.isH {
      assert m.r > 0 ==> Box(m.r - 1, m.c) in adj;
      assert m.r < n - 1 ==> Box(m.r, m.c) in adj;
    } else {
      assert m.c > 0 ==> Box(m.r, m.c - 1) in adj;
      assert m.c < n - 1 ==> Box(m.r, m.c) in adj;
    }
  }

  /** One box after the full scan of `check_and_update_boxes`: an unowned
      complete box goes to the player to move, any other keeps its owner. */
  function ClaimedCell(s: State, r: int, c: int): Option<Player>
    requires WellShaped(s) && IsBox(s.gridSize, Box(r, c))
  {
    if Claimable(s, Box(r, c)) then Some(s.currentPlayer) else s.boxes[r][c]
  }

  /** The box grid after the full scan, box by box. */
  function ClaimAll(s: State): (b: seq<seq<Option<Player>>>)
    requires WellShaped(s)
    ensures IsGrid(b, s.gridSize - 1, s.gridSize - 1)
    ensures forall r, c | 0 <= r < s.gridSize - 1 && 0 <= c < s.gridSize - 1 :: b[r][c] == ClaimedCell(s, r, c)
  {
    var n := s.gridSize;
    seq(n - 1, r requires 0 <= r < n - 1 =>
      seq(n - 1, c requires 0 <= c < n - 1 => ClaimedCell(s, r, c)))
  }

  /** Row `r` with its first `c` boxes scanned and the rest as in `s`. */
  function PartlyClaimedRow(s: State, r: int, c: int): (row: seq<Option<Player>>)
    requires WellShaped(s) && 0 <= r < s.gridSize - 1 && 0 <= c <= s.gridSize - 1
    ensures |row| == s.gridSize - 1
  {
    seq(s.gridSize - 1, j requires 0 <= j < s.gridSize - 1 =>
      if j < c then ClaimedCell(s, r, j) else s.boxes[r][j])
  }

  /** Scanning the first `c` boxes of a row raises the count of the mover's boxes
      by the number of claimable ones among them and leaves the other player's count alone. */
  lemma {:induction false} PartlyClaimedRowCount(s: State, g: seq<seq<Option<Player>>>, r: int, c: int, x: Option<Player>)
    requires WellShaped(s) && 0 <= r < s.gridSize - 1 && 0 <= c <= s.gridSize - 1
    requires IsGrid(g, s.gridSize - 1, s.gridSize - 1) && g[r] == s.boxes[r] && x.Some?
    ensures CountGrid(g[r := PartlyClaimedRow(s, r, c)], x)
            == CountGrid(g, x) + (if x == Some(s.currentPlayer) then ClaimableInRow(s, r, c) else 0)
  {
    if c == 0 {
      assert PartlyClaimedRow(s, r, 0) == s.boxes[r];
      assert g[r := PartlyClaimedRow(s, r, 0)] == g;
    } else {
      PartlyClaimedRowCount(s, g, r, c - 1, x);
      var g1 := g[r := PartlyClaimedRow(s, r, c - 1)];
      assert PartlyClaimedRow(s, r, c) == PartlyClaimedRow(s, r, c - 1)[c - 1 := ClaimedCell(s, r, c - 1)];
      assert g[r := PartlyClaimedRow(s, r, c)] == g1[r := g1[r][c - 1 := ClaimedCell(s, r, c - 1)]];
      assert g1[r][c - 1] == s.boxes[r][c - 1];
      CountGridUpdate(g1, r, c - 1, ClaimedCell(s, r, c - 1), x);
    }
  }

  /** Scanning a whole row changes the owner counts by the row's claimable boxes. */
  lemma ClaimedRowCount(s: State, g: seq<seq<Option<Player>>>, r: int, x: Option<Player>)
    requires WellShaped(s) && 0 <= r < s.gridSize - 1
    requires IsGrid(g, s.gridSize - 1, s.gridSize - 1) && g[r] == s.boxes[r] && x.Some?
    ensures CountGrid(g[r := ClaimAll(s)[r]], x)
            == CountGrid(g, x) + (if x == Some(s.currentPlayer) then ClaimableInRow(s, r, s.gridSize - 1) else 0)
  {
    assert PartlyClaimedRow(s, r, s.gridSize - 1) == ClaimAll(s)[r];
    PartlyClaimedRowCount(s, g, r, s.gridSize - 1, x);
  }

  /** The box grid with its first `k` rows scanned and the rest as in `s`. */
  function PartlyClaimed(s: State, k: int): (g: seq<seq<Option<Player>>>)
    requires WellShaped(s) && 0 <= k <= s.gridSize - 1
    ensures IsGrid(g, s.gridSize - 1, s.gridSize - 1)
  {
    var all := ClaimAll(s);
    assert forall i | 0 <= i < s.gridSize - 1 :: |all[i]| == s.gridSize - 1;
    seq(s.gridSize - 1, i requires 0 <= i < s.gridSize - 1 => if i < k then all[i] else s.boxes[i])
  }

  lemma PartlyClaimedStep(s: State, k: int)
    requires WellShaped(s) && 0 <= k < s.gridSize - 1
    ensures PartlyClaimed(s, k + 1) == PartlyClaimed(s, k)[k := ClaimAll(s)[k]]
    ensures PartlyClaimed(s, k)[k] == s.boxes[k]
  {
    assert PartlyClaimed(s, k)[k] == s.boxes[k];
  }

  /** Scanning the first `k` rows adds their claimable boxes to the mover's count. */
  lemma {:induction false} PartlyClaimedCount(s: State, k: int, x: Option<Player>)
    requires WellShaped(s) && 0 <= k <= s.gridSize - 1 && x.Some?
    ensures CountGrid(PartlyClaimed(s, k), x)
            == CountGrid(s.boxes, x) + (if x == Some(s.currentPlayer) then ClaimableInRows(s, k) else 0)
  {
    if k == 0 {
      assert PartlyClaimed(s, 0) == s.boxes;
    } else {
      PartlyClaimedCount(s, k - 1, x);
      PartlyClaimedStep(s, k - 1);
      ClaimedRowCount(s, PartlyClaimed(s, k - 1), k - 1, x);
    }
  }

  /** The scan keeps every owner, hands every unowned complete box to the player
      to move and leaves every incomplete box unowned: afterwards a box is owned
      exactly when it is complete, and the game is flagged over once no edge is left. */
  lemma ClaimedSettles(s: State)
    requires Consistent(s)
    ensures forall r, c | 0 <= r < s.gridSize - 1 && 0 <= c < s.gridSize - 1 ::
              && (s.boxes[r][c].Some? ==> Claimed(s).boxes[r][c] == s.boxes[r][c])
              && (Claimable(s, Box(r, c)) ==> Claimed(s).boxes[r][c] == Some(s.currentPlayer))
              && (Claimed(s).boxes[r][c].Some? <==> Complete(Claimed(s), Box(r, c)))
    ensures Claimed(s).gameOver <==> IsGameOver(Claimed(s))
    ensures Settled(Claimed(s))
  {
    var t := Claimed(s);
    assert forall r, c | 0 <= r < s.gridSize - 1 && 0 <= c < s.gridSize - 1 ::
      Complete(t, Box(r, c)) == Complete(s, Box(r, c));
  }

  /** The mover's score rises by exactly the boxes the scan claims: scores that
      counted each player's boxes before the scan still do after it. */
  lemma ClaimedScores(s: State)
    requires WellShaped(s)
    requires s.scores[Human] == CountGrid(s.boxes, Some(Human))
    requires s.scores[Computer] == CountGrid(s.boxes, Some(Computer))
    ensures Claimed(s).scores[Human] == CountGrid(Claimed(s).boxes, Some(Human))
    ensures Claimed(s).scores[Computer] == CountGrid(Claimed(s).boxes, Some(Computer))
  {
    var n := s.gridSize;
    assert PartlyClaimed(s, n - 1) == ClaimAll(s);
    PartlyClaimedCount(s, n - 1, Some(Human));
    PartlyClaimedCount(s, n - 1, Some(Computer));
  }

  /** The scan keeps the board's invariant and leaves it settled. */
  lemma ClaimedConsistent(s: State)
    requires Consistent(s)
    ensures Consistent(Claimed(s)) && Settled(Claimed(s))
  {
    ClaimedSettles(s);
    ClaimedScores(s);
    var t := Claimed(s);
    assert forall r, c | 0 <= r < s.gridSize - 1 && 0 <= c < s.gridSize - 1 :: OwnedIsComplete(t, Box(r, c));
  }

  /** Claimable boxes among the first `k` boxes of row `r`. */
  function ClaimableInRow(s: State, r: int, k: int): nat
    requires WellShaped(s) && 0 <= r < s.gridSize - 1 && 0 <= k <= s.gridSize - 1
  {
    if k == 0 then 0
    else ClaimableInRow(s, r, k - 1) + (if Claimable(s, Box(r, k - 1)) then 1 else 0)
  }

  /** Claimable boxes in the first `k` rows. */
  function ClaimableInRows(s: State, k: int): nat
    requires WellShaped(s) && 0 <= k <= s.gridSize - 1
  {
    if k == 0 then 0
    else ClaimableInRows(s, k - 1) + ClaimableInRow(s, k - 1, s.gridSize - 1)
  }

  /** The number of boxes a full scan claims. */
  function NewCount(s: State): nat
    requires WellShaped(s)
  {
    ClaimableInRows(s, s.gridSize - 1)
  }

  lemma {:induction false} ClaimableInRowPositive(s: State, r: int, k: int)
    requires WellShaped(s) && 0 <= r < s.gridSize - 1 && 0 <= k <= s.gridSize - 1
    ensures ClaimableInRow(s, r, k) > 0 <==> exists c :: 0 <= c < k && Claimable(s, Box(r, c))
  {
    if k > 0 {
      ClaimableInRowPositive(s, r, k - 1);
    }
  }

  lemma {:induction false} ClaimableInRowsPositive(s: State, k: int)
    requires WellShaped(s) && 0 <= k <= s.gridSize - 1
    ensures ClaimableInRows(s, k) > 0
            <==> exists r, c :: 0 <= r < k && 0 <= c < s.gridSize - 1 && Claimable(s, Box(r, c))
  {
    if k > 0 {
      ClaimableInRowsPositive(s, k - 1);
      ClaimableInRowPositive(s, k - 1, s.gridSize - 1);
    }
  }

  /** The full scan claims something exactly when some box is complete and unowned. */
  lemma NewCountPositive(s: State)
    requires WellShaped(s)
    ensures NewCount(s) > 0 <==> exists b :: IsBox(s.gridSize, b) && Claimable(s, b)
  {
    ClaimableInRowsPositive(s, s.gridSize - 1);
    if b :| IsBox(s.gridSize, b) && Claimable(s, b) {
      assert Claimable(s, Box(b.r, b.c));
    }
  }

  /** The local scan agrees with the full one: when the move-local test finds a
      box, the full scan that follows claims at least one. */
  lemma LocalScanImpliesFullScan(s: State, m: Move)
    requires WellShaped(s) && IsEdge(s.gridSize, m)
    requires CheckAndUpdateBoxesForMove(s, m)
    ensures NewCount(s) > 0
  {
    NewCountPositive(s);
  }

  /** `check_and_update_boxes` as a whole: claims, scores and the game-over flag. */
  function Claimed(s: State): (t: State)
    requires WellShaped(s)
  {
    s.(boxes := ClaimAll(s),
       scores := s.scores[s.currentPlayer := s.scores[s.currentPlayer] + NewCount(s)],
       gameOver := s.gameOver || IsGameOver(s))
  }

  /** One move as the game plays it, for either player: draw the edge, remember it
      as the last move, scan for completed boxes, and hand the turn to the other
      player only when no box was claimed. */
  function AfterMove(s: State, m: Move): (t: State)
    requires WellShaped(s) && IsEdge(s.gridSize, m)
    ensures WellShaped(t) && t.gridSize == s.gridSize
  {
    var drawn := WithEdge(s, m).(lastMove := Some(m));
    var t := Claimed(drawn);
    if NewCount(drawn) > 0 then t else t.(currentPlayer := 1 - s.currentPlayer)
  }

  /** The chain rule: the mover keeps the turn exactly when its score rose. */
  lemma AfterMoveTurnRule(s: State, m: Move)
    requires WellShaped(s) && IsEdge(s.gridSize, m)
    ensures var t := AfterMove(s, m);
            && (t.currentPlayer == s.currentPlayer <==> t.scores[s.currentPlayer] > s.scores[s.currentPlayer])
            && t.scores[1 - s.currentPlayer] == s.scores[1 - s.currentPlayer]
  {
  }

  /** A move draws its own edge and no other, and never erases one: edges are
      only ever added. */
  lemma AfterMoveDrawsOneEdge(s: State, m: Move)
    requires WellShaped(s) && IsEdge(s.gridSize, m)
    ensures WellShaped(AfterMove(s, m))
    ensures forall e | IsEdge(s.gridSize, e) :: Drawn(AfterMove(s, m), e) <==> e == m || Drawn(s, e)
  {
    var drawn := WithEdge(s, m).(lastMove := Some(m));
    assert forall e | IsEdge(s.gridSize, e) :: Drawn(drawn, e) == Drawn(WithEdge(s, m), e);
  }

  /** A move on an undrawn edge leaves one undrawn edge fewer. */
  lemma AfterMoveDrawsOne(s: State, m: Move)
    requires WellShaped(s) && IsEdge(s.gridSize, m) && !Drawn(s, m)
    ensures UndrawnCount(AfterMove(s, m)) == UndrawnCount(s) - 1
  {
    WithEdgeDrawsOne(s, m);
    var t := AfterMove(s, m);
    assert t.hLines == WithEdge(s, m).hLines && t.vLines == WithEdge(s, m).vLines;
  }

  /** The scores always add up to the number of owned boxes. */
  lemma {:induction false} ScoresCountOwnedBoxes(s: State)
    requires Consistent(s)
    ensures s.scores[Human] + s.scores[Computer]
            == (s.gridSize - 1) * (s.gridSize - 1) - CountGrid(s.boxes, None)
  {
    forall i, j | 0 <= i < |s.boxes| && 0 <= j < |s.boxes[i]|
      ensures s.boxes[i][j] == Some(Human) || s.boxes[i][j] == Some(Computer) || s.boxes[i][j] == None
    {
      var o := s.boxes[i][j];
      assert o.Some? ==> o.value == Human || o.value == Computer;
    }
    CountGridPartition(s.boxes, s.gridSize - 1, s.gridSize - 1, Some(Human), Some(Computer), None);
  }

  /** At the end of a game every box is owned, so the scores add up to the
      number of boxes. */
  lemma {:induction false} FinalScoresCoverBoard(s: State)
    requires Consistent(s) && Settled(s) && s.gameOver
    ensures s.scores[Human] + s.scores[Computer] == (s.gridSize - 1) * (s.gridSize - 1)
  {
    IsGameOverIffAllDrawn(s);
    forall i, j | 0 <= i < |s.boxes| && 0 <= j < |s.boxes[i]|
      ensures s.boxes[i][j] != None
    {
      assert Complete(s, Box(i, j)) && CompleteIsOwned(s, Box(i, j));
    }
    CountGridAbsent(s.boxes, None);
    ScoresCountOwnedBoxes(s);
  }
}
