/**
  The estimate used by the informed searches: the number of coins that are
  not yet where the goal wants them. A coin counts when it lies on a target
  peg of the other parity, and every coin still on E counts.
*/
module HeuristicEstimate {
  import opened CoinState

  /** Number of coins in `xs` whose oddness equals `odd`. */
  function CountParity(xs: seq<int>, odd: bool): nat {
    if xs == [] then 0
    else CountParity(Pop(xs), odd) + (if IsOdd(Top(xs)) == odd then 1 else 0)
  }

  /** A coin on `p` that the goal does not allow there. */
  predicate IsMisplaced(p: Peg, coin: int) {
    if IsOddTarget(p) then !IsOdd(coin)
    else if IsEvenTarget(p) then IsOdd(coin)
    else true
  }

  /** What one peg adds to the estimate. */
  function Misplaced(p: Peg, xs: seq<int>): nat {
    if IsOddTarget(p) then CountParity(xs, false)
    else if IsEvenTarget(p) then CountParity(xs, true)
    else |xs|
  }

  function Heuristic(s: State): nat {
    Misplaced(A, s.a) + Misplaced(B, s.b) + Misplaced(C, s.c) + Misplaced(D, s.d) + Misplaced(E, s.e)
  }

  /** No coin of the counted parity exactly when the count is zero. */
  lemma {:induction false} CountParityZero(xs: seq<int>, odd: bool)
    ensures CountParity(xs, odd) == 0 <==> forall i :: 0 <= i < |xs| ==> IsOdd(xs[i]) != odd
    decreases |xs|
  {
    if xs != [] {
      var init := Pop(xs);
      CountParityZero(init, odd);
      assert forall i :: 0 <= i < |init| ==> init[i] == xs[i];
    }
  }

  lemma {:induction false} CountParityBound(xs: seq<int>, odd: bool)
    ensures CountParity(xs, odd) <= |xs|
    decreases |xs|
  {
    if xs != [] {
      CountParityBound(Pop(xs), odd);
    }
  }

  /** The estimate never exceeds the number of coins. */
  lemma HeuristicAtMostCoinCount(s: State)
    ensures Heuristic(s) <= CoinCount(s)
  {
    CountParityBound(s.a, false);
    CountParityBound(s.b, true);
    CountParityBound(s.c, false);
    CountParityBound(s.d, true);
  }

  /** The estimate is zero exactly at the goal. */
  lemma HeuristicZeroIffGoal(s: State)
    ensures Heuristic(s) == 0 <==> IsGoal(s)
  {
    CountParityZero(s.a, false);
    CountParityZero(s.b, true);
    CountParityZero(s.c, false);
    CountParityZero(s.d, true);
  }

  /** Placing one coin on `p` adds one to the peg's count exactly when the coin is misplaced there. */
  lemma MisplacedPush(p: Peg, xs: seq<int>, coin: int)
    ensures Misplaced(p, xs + [coin]) == Misplaced(p, xs) + if IsMisplaced(p, coin) then 1 else 0
  {
    assert Pop(xs + [coin]) == xs;
  }

  /** The estimate, peg by peg. */
  lemma HeuristicByPeg(s: State)
    ensures Heuristic(s) == Misplaced(A, s.Stack(A)) + Misplaced(B, s.Stack(B)) + Misplaced(C, s.Stack(C))
      + Misplaced(D, s.Stack(D)) + Misplaced(E, s.Stack(E))
  {
  }

  /** One move lowers the estimate by at most one, so the estimate is consistent. */
  lemma HeuristicStep(s: State, m: Move)
    requires s.Stack(m.src) != []
    ensures Heuristic(s) <= Heuristic(ApplyMove(s, m)) + 1
  {
    if m.src != m.dst {
      var t := ApplyMove(s, m);
      var from := s.Stack(m.src);
      var coin := Top(from);
      assert from == Pop(from) + [coin];
      MisplacedPush(m.src, Pop(from), coin);
      MisplacedPush(m.dst, s.Stack(m.dst), coin);
      assert Misplaced(m.src, t.Stack(m.src)) + 1 >= Misplaced(m.src, s.Stack(m.src));
      assert Misplaced(m.dst, t.Stack(m.dst)) >= Misplaced(m.dst, s.Stack(m.dst));
      HeuristicByPeg(s);
      HeuristicByPeg(t);
    }
  }

  /**
    The estimate is a lower bound on the length of any solution: each move
    fixes at most one misplaced coin.
  */
  lemma {:induction false} HeuristicAdmissible(s: State, path: seq<Move>)
    requires Solves(s, path)
    ensures Heuristic(s) <= |path|
    decreases |path|
  {
    if path == [] {
      HeuristicZeroIffGoal(s);
    } else {
      HeuristicStep(s, path[0]);
      HeuristicAdmissible(ApplyMove(s, path[0]), path[1..]);
    }
  }
}
