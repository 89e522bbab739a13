/**
 * The move catalogue: the list `available_moves` builds of the undrawn edges,
 * horizontal edges row by row first, then vertical edges row by row.
 */
module Catalog {
  import opened Rules

  /** Undrawn edges among the first `k` cells of row `r` of an edge grid, left to right. */
  function RowMoves(row: seq<bool>, r: int, isH: bool, k: int): seq<Move>
    requires 0 <= k <= |row|
  {
    if k == 0 then []
    else RowMoves(row, r, isH, k - 1) + (if row[k - 1] then [] else [Move(r, k - 1, isH)])
  }

  /** A row's list holds exactly its undrawn cells, by increasing column. */
  lemma {:induction false} RowMovesSpec(row: seq<bool>, r: int, isH: bool, k: int)
    requires 0 <= k <= |row|
    ensures forall m :: m in RowMoves(row, r, isH, k) <==> m.r == r && m.isH == isH && 0 <= m.c < k && !row[m.c]
    ensures forall i, j | 0 <= i < j < |RowMoves(row, r, isH, k)| ::
              RowMoves(row, r, isH, k)[i].c < RowMoves(row, r, isH, k)[j].c
  {
    if k > 0 {
      RowMovesSpec(row, r, isH, k - 1);
      var prefix := RowMoves(row, r, isH, k - 1);
      var ms := RowMoves(row, r, isH, k);
      forall i, j | 0 <= i < j < |ms|
        ensures ms[i].c < ms[j].c
      {
        if j < |prefix| {
          assert ms[i] == prefix[i] && ms[j] == prefix[j];
        } else {
          assert ms[i] == prefix[i] && prefix[i] in prefix;
        }
      }
    }
  }

  /** Undrawn edges among the first `k` rows of an edge grid, row-major. */
  function GridMoves(g: seq<seq<bool>>, isH: bool, k: int): seq<Move>
    requires 0 <= k <= |g|
  {
    if k == 0 then []
    else GridMoves(g, isH, k - 1) + RowMoves(g[k - 1], k - 1, isH, |g[k - 1]|)
  }

  /** A grid's list holds exactly its undrawn cells. */
  lemma {:induction false} GridMovesMembers(g: seq<seq<bool>>, isH: bool, k: int)
    requires 0 <= k <= |g|
    ensures forall m :: m in GridMoves(g, isH, k) <==> m.isH == isH && 0 <= m.r < k && 0 <= m.c < |g[m.r]| && !g[m.r][m.c]
  {
    if k > 0 {
      GridMovesMembers(g, isH, k - 1);
      RowMovesSpec(g[k - 1], k - 1, isH, |g[k - 1]|);
    }
  }

  /** Every edge in the list of the first `k` rows lies in one of them. */
  lemma {:induction false} GridMovesBelow(g: seq<seq<bool>>, isH: bool, k: int)
    requires 0 <= k <= |g|
    ensures forall i | 0 <= i < |GridMoves(g, isH, k)| :: 0 <= GridMoves(g, isH, k)[i].r < k
  {
    if k > 0 {
      GridMovesBelow(g, isH, k - 1);
      RowMovesSpec(g[k - 1], k - 1, isH, |g[k - 1]|);
      var prefix := GridMoves(g, isH, k - 1);
      var row := RowMoves(g[k - 1], k - 1, isH, |g[k - 1]|);
      var ms := GridMoves(g, isH, k);
      assert ms == prefix + row;
      forall i | 0 <= i < |ms|
        ensures 0 <= ms[i].r < k
      {
        if i >= |prefix| {
          assert ms[i] == row[i - |prefix|] && row[i - |prefix|] in row;
        } else {
          assert ms[i] == prefix[i];
        }
      }
    }
  }

  /** A grid's list runs row by row, each row by column. */
  lemma {:induction false} GridMovesOrdered(g: seq<seq<bool>>, isH: bool, k: int)
    requires 0 <= k <= |g|
    ensures forall i, j | 0 <= i < j < |GridMoves(g, isH, k)| ::
              || GridMoves(g, isH, k)[i].r < GridMoves(g, isH, k)[j].r
              || (GridMoves(g, isH, k)[i].r == GridMoves(g, isH, k)[j].r && GridMoves(g, isH, k)[i].c < GridMoves(g, isH, k)[j].c)
  {
    if k > 0 {
      GridMovesOrdered(g, isH, k - 1);
      GridMovesBelow(g, isH, k - 1);
      RowMovesSpec(g[k - 1], k - 1, isH, |g[k - 1]|);
      var prefix := GridMoves(g, isH, k - 1);
      var row := RowMoves(g[k - 1], k - 1, isH, |g[k - 1]|);
      var ms := GridMoves(g, isH, k);
      assert ms == prefix + row;
      forall i, j | 0 <= i < j < |ms|
        ensures ms[i].r < ms[j].r || (ms[i].r == ms[j].r && ms[i].c < ms[j].c)
      {
        if j < |prefix| {
          assert ms[i] == prefix[i] && ms[j] == prefix[j];
        } else if i >= |prefix| {
          assert ms[i] == row[i - |prefix|] && ms[j] == row[j - |prefix|];
        } else {
          assert ms[i] == prefix[i];
          assert ms[j] == row[j - |prefix|] && row[j - |prefix|] in row;
        }
      }
    }
  }

  /** The catalogue's order: horizontal before vertical, then by row, then by column. */
  predicate Precedes(a: Move, b: Move) {
    || (a.isH && !b.isH)
    || (a.isH == b.isH && (a.r < b.r || (a.r == b.r && a.c < b.c)))
  }

  /** The list of undrawn edges, horizontal ones first. */
  function UndrawnMoves(s: State): seq<Move>
    requires WellShaped(s)
  {
    GridMoves(s.hLines, true, |s.hLines|) + GridMoves(s.vLines, false, |s.vLines|)
  }

  /** The list holds every undrawn edge and nothing else, in strictly increasing
      catalogue order, hence each exactly once. */
  lemma UndrawnMovesSpec(s: State)
    requires WellShaped(s)
    ensures forall m :: m in UndrawnMoves(s) <==> IsEdge(s.gridSize, m) && !Drawn(s, m)
    ensures forall i | 0 <= i < |UndrawnMoves(s)| :: IsEdge(s.gridSize, UndrawnMoves(s)[i]) && !Drawn(s, UndrawnMoves(s)[i])
    ensures forall i, j | 0 <= i < j < |UndrawnMoves(s)| :: Precedes(UndrawnMoves(s)[i], UndrawnMoves(s)[j])
  {
    var hs := GridMoves(s.hLines, true, |s.hLines|);
    var vs := GridMoves(s.vLines, false, |s.vLines|);
    GridMovesMembers(s.hLines, true, |s.hLines|);
    GridMovesMembers(s.vLines, false, |s.vLines|);
    GridMovesOrdered(s.hLines, true, |s.hLines|);
    GridMovesOrdered(s.vLines, false, |s.vLines|);
    assert forall i | 0 <= i < |hs| :: hs[i] in hs;
    assert forall j | 0 <= j < |vs| :: vs[j] in vs;
  }

  /** A game is over exactly when the catalogue is empty. */
  lemma GameOverIffNoMoves(s: State)
    requires WellShaped(s)
    ensures IsGameOver(s) <==> UndrawnMoves(s) == []
  {
    IsGameOverIffAllDrawn(s);
    UndrawnMovesSpec(s);
    if UndrawnMoves(s) != [] {
      assert UndrawnMoves(s)[0] in UndrawnMoves(s);
    }
  }

  /** Drawing an edge of the catalogue removes exactly that edge from it. */
  lemma WithEdgeRemovesMove(s: State, m: Move)
    requires WellShaped(s) && IsEdge(s.gridSize, m) && !Drawn(s, m)
    ensures forall e :: e in UndrawnMoves(WithEdge(s, m)) <==> e in UndrawnMoves(s) && e != m
  {
    UndrawnMovesSpec(s);
    UndrawnMovesSpec(WithEdge(s, m));
  }
}
