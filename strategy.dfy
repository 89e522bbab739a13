/**
 * What the computer player's three tiers compute, stated on board values:
 *   1. the first move whose drawing lets the move-local scan find a box;
 *   2. the moves that give no box a third side;
 *   3. the moves whose simulated opponent chain is shortest.
 * The board class's methods are proved against these functions.
 */
module Strategy {
  import opened Wrappers
  import opened Rules
  import opened Catalog

  /** Tier 1's test: on a copy with `m` drawn, the move-local scan finds a box. */
  predicate CompletesBox(s: State, m: Move)
    requires WellShaped(s) && IsEdge(s.gridSize, m)
  {
    CheckAndUpdateBoxesForMove(WithEdge(s, m), m)
  }

  /** For an undrawn edge the test means: some unowned box next to it has its
      other three sides drawn. And such a move really claims a box when played. */
  lemma CompletesBoxMeaning(s: State, m: Move)
    requires WellShaped(s) && IsEdge(s.gridSize, m) && !Drawn(s, m)
    ensures CompletesBox(s, m)
            <==> exists b :: b in AdjacentBoxes(s.gridSize, m) && s.boxes[b.r][b.c].None? && SidesDrawn(s, b) == 3
    ensures CompletesBox(s, m) ==> NewCount(WithEdge(s, m)) > 0
  {
    var t := WithEdge(s, m);
    forall b | b in AdjacentBoxes(s.gridSize, m)
      ensures SidesDrawn(t, b) == SidesDrawn(s, b) + 1
      ensures Claimable(t, b) <==> s.boxes[b.r][b.c].None? && SidesDrawn(s, b) == 3
    {
      SidesDrawnWithEdge(s, m, b);
    }
    if CompletesBox(s, m) {
      LocalScanImpliesFullScan(t, m);
    }
  }

  /** Tier 2's candidates: the list comprehension keeping the moves that give
      no box a third side, in their original order. */
  function SafeMoves(s: State, moves: seq<Move>): (safe: seq<Move>)
    requires WellShaped(s) && forall m | m in moves :: IsEdge(s.gridSize, m)
    ensures forall m :: m in safe <==> m in moves && !MoveMakesThirdSide(s, m)
    ensures |safe| <= |moves|
  {
    if moves == [] then []
    else (if MoveMakesThirdSide(s, moves[0]) then [] else [moves[0]]) + SafeMoves(s, moves[1..])
  }

  /** The scan of `_simulate_opponent_chain` over `ms`: the first move with the
      largest positive number of boxes it would complete, with that number. */
  function BestClaim(s: State, ms: seq<Move>): (Option<Move>, nat)
    requires WellShaped(s) && forall i | 0 <= i < |ms| :: IsEdge(s.gridSize, ms[i])
  {
    if ms == [] then (None, 0)
    else
      var prev := BestClaim(s, ms[..|ms| - 1]);
      var last := ms[|ms| - 1];
      var count := CountNewBoxes(s, last);
      if count > prev.1 then (Some(last), count) else prev
  }

  /** A positive best count belongs to a move of `ms`, and no move of `ms`
      completes more boxes. */
  lemma {:induction false} BestClaimSpec(s: State, ms: seq<Move>)
    requires WellShaped(s) && forall i | 0 <= i < |ms| :: IsEdge(s.gridSize, ms[i])
    ensures var res := BestClaim(s, ms);
            && (res.1 > 0 ==> res.0.Some? && res.0.value in ms && CountNewBoxes(s, res.0.value) == res.1)
            && (forall m | m in ms :: CountNewBoxes(s, m) <= res.1)
  {
    if ms != [] {
      var k := |ms| - 1;
      BestClaimSpec(s, ms[..k]);
      assert forall m | m in ms :: m in ms[..k] || m == ms[k];
    }
  }

  /** Ties go to the earliest move: every move of `ms` before the chosen one
      completes fewer boxes. */
  lemma {:induction false} BestClaimIsFirst(s: State, ms: seq<Move>)
    requires WellShaped(s) && forall i | 0 <= i < |ms| :: IsEdge(s.gridSize, ms[i])
    ensures var res := BestClaim(s, ms);
            res.0.Some? && res.1 > 0 ==>
              exists i :: 0 <= i < |ms| && ms[i] == res.0.value && forall j | 0 <= j < i :: CountNewBoxes(s, ms[j]) < res.1
  {
    if ms != [] {
      var k := |ms| - 1;
      var pre := ms[..k];
      var prev := BestClaim(s, pre);
      var res := BestClaim(s, ms);
      if res.0.Some? && res.1 > 0 {
        if CountNewBoxes(s, ms[k]) > prev.1 {
          BestClaimSpec(s, pre);
          forall j | 0 <= j < k
            ensures CountNewBoxes(s, ms[j]) < res.1
          {
            assert ms[j] == pre[j] && pre[j] in pre;
          }
          assert ms[k] == res.0.value;
        } else {
          BestClaimIsFirst(s, pre);
          var i :| 0 <= i < k && pre[i] == prev.0.value && forall j | 0 <= j < i :: CountNewBoxes(s, pre[j]) < prev.1;
          assert ms[i] == res.0.value;
          assert forall j | 0 <= j < i :: ms[j] == pre[j];
        }
      }
    }
  }

  /** What `computer_move` may play on `s`: an undrawn edge; when some edge of the
      catalogue completes a box, the first such edge; otherwise, when some edge is
      safe, a safe one; otherwise one whose simulated chain is no longer than any other's. */
  ghost predicate PlaysByTiers(s: State, m: Move)
    requires WellShaped(s)
  {
    UndrawnMovesSpec(s);
    var ms := UndrawnMoves(s);
    && m in ms
    && ((exists i | 0 <= i < |ms| :: CompletesBox(s, ms[i])) ==>
          exists i | 0 <= i < |ms| :: ms[i] == m && CompletesBox(s, ms[i])
                                      && forall j | 0 <= j < i :: !CompletesBox(s, ms[j]))
    && ((forall i | 0 <= i < |ms| :: !CompletesBox(s, ms[i]))
        && (exists i | 0 <= i < |ms| :: !MoveMakesThirdSide(s, ms[i]))
        ==> !MoveMakesThirdSide(s, m))
    && ((forall i | 0 <= i < |ms| :: !CompletesBox(s, ms[i]) && MoveMakesThirdSide(s, ms[i]))
        ==> forall e | e in ms :: ChainCost(s, m) <= ChainCost(s, e))
  }

  /** Tier 1's pick follows the tiers: the first edge of the catalogue that
      completes a box. */
  lemma FirstCompletingPlaysByTiers(s: State, ms: seq<Move>, i: int)
    requires WellShaped(s) && ms == UndrawnMoves(s)
    requires forall j | 0 <= j < |ms| :: IsEdge(s.gridSize, ms[j])
    requires 0 <= i < |ms| && CompletesBox(s, ms[i])
    requires forall j | 0 <= j < i :: !CompletesBox(s, ms[j])
    ensures PlaysByTiers(s, ms[i])
  {
    assert ms[i] in ms;
  }

  /** Tier 2's pick follows the tiers: no edge of the catalogue completes a box and
      the pick is a safe edge of it. */
  lemma SafePlaysByTiers(s: State, ms: seq<Move>, m: Move)
    requires WellShaped(s) && ms == UndrawnMoves(s)
    requires forall i | 0 <= i < |ms| :: IsEdge(s.gridSize, ms[i])
    requires forall i | 0 <= i < |ms| :: !CompletesBox(s, ms[i])
    requires m in ms && !MoveMakesThirdSide(s, m)
    ensures PlaysByTiers(s, m)
  {
  }

  /** Tier 3's pick follows the tiers: no edge of the catalogue completes a box or
      is safe, so any edge of it will do. */
  lemma FallbackPlaysByTiers(s: State, ms: seq<Move>, m: Move)
    requires WellShaped(s) && ms == UndrawnMoves(s)
    requires forall i | 0 <= i < |ms| :: IsEdge(s.gridSize, ms[i])
    requires forall i | 0 <= i < |ms| :: !CompletesBox(s, ms[i])
    requires forall e | e in ms :: MoveMakesThirdSide(s, e)
    requires m in ms && forall e | e in ms :: ChainCost(s, m) <= ChainCost(s, e)
    ensures PlaysByTiers(s, m)
  {
    forall i | 0 <= i < |ms|
      ensures MoveMakesThirdSide(s, ms[i])
    {
      assert ms[i] in ms;
    }
  }

  /** The board after the moves `ms`, played one after another from `s`. */
  ghost function Replay(s: State, ms: seq<Move>): (t: State)
    requires WellShaped(s) && forall i | 0 <= i < |ms| :: IsEdge(s.gridSize, ms[i])
    ensures WellShaped(t) && t.gridSize == s.gridSize
    decreases |ms|
  {
    if ms == [] then s
    else
      var k := |ms| - 1;
      AfterMove(Replay(s, ms[..k]), ms[k])
  }

  /** After the moves `ms` exactly the edges drawn before and the edges of `ms` are drawn. */
  lemma {:induction false} ReplayDrawsMoves(s: State, ms: seq<Move>)
    requires WellShaped(s) && forall i | 0 <= i < |ms| :: IsEdge(s.gridSize, ms[i])
    ensures forall e | IsEdge(s.gridSize, e) :: Drawn(Replay(s, ms), e) <==> Drawn(s, e) || e in ms
    decreases |ms|
  {
    if ms != [] {
      var k := |ms| - 1;
      ReplayDrawsMoves(s, ms[..k]);
      AfterMoveDrawsOneEdge(Replay(s, ms[..k]), ms[k]);
      assert ms == ms[..k] + [ms[k]];
    }
  }

  /** The `i`-th of the moves `ms` played from `s` was played as `computer_move`
      plays: on the computer's turn in a running game, by the tiers, on the board
      the moves before it left. */
  ghost predicate PlayedByTiersAt(s: State, ms: seq<Move>, i: int)
    requires WellShaped(s) && forall j | 0 <= j < |ms| :: IsEdge(s.gridSize, ms[j])
    requires 0 <= i < |ms|
  {
    var t := Replay(s, ms[..i]);
    t.currentPlayer == Computer && !t.gameOver && PlaysByTiers(t, ms[i])
  }

  /** The moves `ms`, played from `s`, are all computer moves chosen by the tiers. */
  ghost predicate ComputerPlays(s: State, ms: seq<Move>)
    requires WellShaped(s)
  {
    && (forall i | 0 <= i < |ms| :: IsEdge(s.gridSize, ms[i]))
    && forall i | 0 <= i < |ms| :: PlayedByTiersAt(s, ms, i)
  }

  /** One more tier-chosen move on the computer's turn extends the replay by one `AfterMove`. */
  lemma ComputerPlaysExtend(s: State, ms: seq<Move>, m: Move)
    requires WellShaped(s) && ComputerPlays(s, ms)
    requires Replay(s, ms).currentPlayer == Computer && !Replay(s, ms).gameOver
    requires IsEdge(s.gridSize, m) && PlaysByTiers(Replay(s, ms), m)
    ensures ComputerPlays(s, ms + [m])
    ensures Replay(s, ms + [m]) == AfterMove(Replay(s, ms), m)
  {
    var after := ms + [m];
    assert after[..|ms|] == ms;
    AppendedEdges(s, ms, m);
    forall i | 0 <= i < |after|
      ensures PlayedByTiersAt(s, after, i)
    {
      if i < |ms| {
        PlayedEarlierStays(s, ms, m, i);
      }
    }
  }

  /** Appending an edge to a sequence of edges gives a sequence of edges. */
  lemma AppendedEdges(s: State, ms: seq<Move>, m: Move)
    requires forall j | 0 <= j < |ms| :: IsEdge(s.gridSize, ms[j])
    requires IsEdge(s.gridSize, m)
    ensures forall j | 0 <= j < |ms + [m]| :: IsEdge(s.gridSize, (ms + [m])[j])
  {
    var after := ms + [m];
    assert forall j | 0 <= j < |after| :: after[j] == if j < |ms| then ms[j] else m;
  }

  /** Playing one more move does not change how the earlier ones were played. */
  lemma PlayedEarlierStays(s: State, ms: seq<Move>, m: Move, i: int)
    requires WellShaped(s) && IsEdge(s.gridSize, m)
    requires forall j | 0 <= j < |ms| :: IsEdge(s.gridSize, ms[j])
    requires forall j | 0 <= j < |ms + [m]| :: IsEdge(s.gridSize, (ms + [m])[j])
    requires 0 <= i < |ms| && PlayedByTiersAt(s, ms, i)
    ensures PlayedByTiersAt(s, ms + [m], i)
  {
    var after := ms + [m];
    assert after[..i] == ms[..i] && after[i] == ms[i];
  }

  /** `_simulate_opponent_chain` on a copy: while some undrawn edge completes a
      box, draw the best one and add its count. Gives the total and the final board. */
  function OpponentChain(s: State): (res: (nat, State))
    requires WellShaped(s)
    ensures WellShaped(res.1)
    decreases UndrawnCount(s)
  {
    UndrawnMovesSpec(s);
    var best := BestClaim(s, UndrawnMoves(s));
    if best.0.Some? && best.1 > 0 then
      BestClaimSpec(s, UndrawnMoves(s));
      WithEdgeDrawsOne(s, best.0.value);
      var rest := OpponentChain(WithEdge(s, best.0.value));
      (best.1 + rest.0, rest.1)
    else (0, s)
  }

  /** One round of the chain: when the best claim of the catalogue is `m`, worth
      `k > 0` boxes, the chain is `k` plus the chain after drawing `m`. */
  lemma OpponentChainStep(s: State, m: Move, k: nat)
    requires WellShaped(s) && forall i | 0 <= i < |UndrawnMoves(s)| :: IsEdge(s.gridSize, UndrawnMoves(s)[i])
    requires IsEdge(s.gridSize, m) && BestClaim(s, UndrawnMoves(s)) == (Some(m), k) && k > 0
    ensures OpponentChain(s).0 == k + OpponentChain(WithEdge(s, m)).0
    ensures OpponentChain(s).1 == OpponentChain(WithEdge(s, m)).1
  {
  }

  /** When nothing in the catalogue claims a box the chain is empty. */
  lemma OpponentChainStops(s: State)
    requires WellShaped(s) && forall i | 0 <= i < |UndrawnMoves(s)| :: IsEdge(s.gridSize, UndrawnMoves(s)[i])
    requires var best := BestClaim(s, UndrawnMoves(s)); best.0.None? || best.1 == 0
    ensures OpponentChain(s) == (0, s)
  {
  }

  /** The chain simulation never finds anything: it only ever counts boxes next
      to undrawn edges, and those are never complete. */
  lemma {:induction false} OpponentChainIsEmpty(s: State)
    requires WellShaped(s)
    ensures OpponentChain(s) == (0, s)
  {
    var ms := UndrawnMoves(s);
    UndrawnMovesSpec(s);
    BestClaimSpec(s, ms);
    forall m | m in ms
      ensures CountNewBoxes(s, m) == 0
    {
      CountNewBoxesOfUndrawnEdge(s, m);
    }
  }

  /** Tier 3's cost of a move: the opponent chain after drawing it on a copy. */
  function ChainCost(s: State, m: Move): nat
    requires WellShaped(s) && IsEdge(s.gridSize, m)
  {
    OpponentChain(WithEdge(s, m)).0
  }

  /** Tier 3's costs of the moves of `ms`, position by position. */
  function ChainCosts(s: State, ms: seq<Move>): (costs: seq<nat>)
    requires WellShaped(s) && forall m | m in ms :: IsEdge(s.gridSize, m)
    ensures |costs| == |ms|
    ensures forall i | 0 <= i < |ms| :: costs[i] == ChainCost(s, ms[i])
  {
    seq(|ms|, i requires 0 <= i < |ms| => ChainCost(s, ms[i]))
  }

  /** The loop of `_find_least_damaging_move` over `ms` with costs `costs`: the
      smallest cost seen so far and the moves that reach it, in order. */
  function LeastDamageScan(ms: seq<Move>, costs: seq<nat>): (Option<nat>, seq<Move>)
    requires |costs| == |ms|
  {
    if ms == [] then (None, [])
    else
      var prev := LeastDamageScan(ms[..|ms| - 1], costs[..|ms| - 1]);
      var m := ms[|ms| - 1];
      var chain := costs[|ms| - 1];
      if prev.0.None? || chain < prev.0.value then (Some(chain), [m])
      else if chain == prev.0.value then (prev.0, prev.1 + [m])
      else prev
  }

  /** One more move for the scan: `LeastDamageScan` over a prefix one longer. */
  lemma LeastDamageScanStep(ms: seq<Move>, costs: seq<nat>, i: int)
    requires |costs| == |ms| && 0 <= i < |ms|
    ensures var prev := LeastDamageScan(ms[..i], costs[..i]);
            LeastDamageScan(ms[..i + 1], costs[..i + 1])
            == if prev.0.None? || costs[i] < prev.0.value then (Some(costs[i]), [ms[i]])
               else if costs[i] == prev.0.value then (prev.0, prev.1 + [ms[i]])
               else prev
  {
    assert ms[..i + 1][..i] == ms[..i] && costs[..i + 1][..i] == costs[..i];
  }

  /** The scan keeps exactly the moves of minimal cost. */
  lemma {:induction false} LeastDamageScanMinimal(ms: seq<Move>, costs: seq<nat>)
    requires |costs| == |ms|
    ensures (ms == []) == LeastDamageScan(ms, costs).0.None?
    ensures ms != [] ==> LeastDamageScan(ms, costs).1 != []
    ensures forall m | m in LeastDamageScan(ms, costs).1 ::
              exists i :: 0 <= i < |ms| && ms[i] == m && costs[i] == LeastDamageScan(ms, costs).0.value
    ensures forall i | 0 <= i < |ms| :: LeastDamageScan(ms, costs).0.value <= costs[i]
    ensures forall i | 0 <= i < |ms| && costs[i] == LeastDamageScan(ms, costs).0.value ::
              ms[i] in LeastDamageScan(ms, costs).1
  {
    if ms != [] {
      var k := |ms| - 1;
      LeastDamageScanMinimal(ms[..k], costs[..k]);
      var prev := LeastDamageScan(ms[..k], costs[..k]);
      var res := LeastDamageScan(ms, costs);
      forall m | m in res.1
        ensures exists i :: 0 <= i < |ms| && ms[i] == m && costs[i] == res.0.value
      {
        if prev.0.Some? && costs[k] >= prev.0.value && m in prev.1 {
          var i :| 0 <= i < k && ms[..k][i] == m && costs[..k][i] == prev.0.value;
          assert ms[i] == m && costs[i] == res.0.value;
        } else {
          assert ms[k] == m && costs[k] == res.0.value;
        }
      }
      forall i | 0 <= i < |ms| && costs[i] == res.0.value
        ensures ms[i] in res.1
      {
        if i < k {
          assert ms[..k][i] == ms[i] && costs[..k][i] == costs[i];
        }
      }
      forall i | 0 <= i < k
        ensures res.0.value <= costs[i]
      {
        assert costs[..k][i] == costs[i];
      }
    }
  }

  /** Any move the scan keeps is a move of `ms` whose chain cost is the least. */
  lemma LeastDamagePickIsMinimal(s: State, ms: seq<Move>, m: Move)
    requires WellShaped(s) && forall e | e in ms :: IsEdge(s.gridSize, e)
    requires m in LeastDamageScan(ms, ChainCosts(s, ms)).1
    ensures m in ms && forall e | e in ms :: ChainCost(s, m) <= ChainCost(s, e)
  {
    var costs := ChainCosts(s, ms);
    LeastDamageScanMinimal(ms, costs);
    var i :| 0 <= i < |ms| && ms[i] == m && costs[i] == LeastDamageScan(ms, costs).0.value;
    forall e | e in ms
      ensures ChainCost(s, m) <= ChainCost(s, e)
    {
      var j :| 0 <= j < |ms| && ms[j] == e;
    }
  }

  /** With every cost zero the scan keeps every move: the fallback's random pick
      is uniform over all of `ms`. */
  lemma {:induction false} LeastDamageScanAllZero(ms: seq<Move>, costs: seq<nat>)
    requires |costs| == |ms| && forall i | 0 <= i < |costs| :: costs[i] == 0
    ensures LeastDamageScan(ms, costs) == (if ms == [] then None else Some(0), ms)
  {
    if ms != [] {
      var k := |ms| - 1;
      LeastDamageScanAllZero(ms[..k], costs[..k]);
      assert ms[..k] + [ms[k]] == ms;
    }
  }

  /** Tier 3 does no look-ahead: every chain cost is zero, so the best moves are
      all the moves. */
  lemma LeastDamageKeepsAllMoves(s: State, ms: seq<Move>)
    requires WellShaped(s) && forall m | m in ms :: IsEdge(s.gridSize, m)
    ensures LeastDamageScan(ms, ChainCosts(s, ms)) == (if ms == [] then None else Some(0), ms)
  {
    var costs := ChainCosts(s, ms);
    forall i | 0 <= i < |costs|
      ensures costs[i] == 0
    {
      OpponentChainIsEmpty(WithEdge(s, ms[i]));
    }
    LeastDamageScanAllZero(ms, costs);
  }
}
