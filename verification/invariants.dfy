/**
  The structural invariant of the puzzle: every stack is strictly decreasing
  from bottom to top, A and C hold only odd coins, B and D only even ones,
  and no rank occurs twice. The initial state has it and every legal move
  keeps it.
*/
module Invariants {
  import opened CoinState

  predicate StrictlyDecreasing(xs: seq<int>) {
    forall i, j :: 0 <= i < j < |xs| ==> xs[i] > xs[j]
  }

  /** No rank lies on two pegs or twice on one. */
  predicate Distinct(s: State) {
    forall x | x in Coins(s) :: Coins(s)[x] <= 1
  }

  /** The shape a stack may have on peg `p`. */
  predicate StackOk(p: Peg, xs: seq<int>) {
    && StrictlyDecreasing(xs)
    && (IsOddTarget(p) ==> AllOdd(xs))
    && (IsEvenTarget(p) ==> AllEven(xs))
  }

  predicate WellFormed(s: State) {
    forall p :: StackOk(p, s.Stack(p))
  }

  predicate Inv(s: State) {
    WellFormed(s) && Distinct(s)
  }

  /** A strictly decreasing stack holds each rank at most once. */
  lemma {:induction false} DecreasingIsDistinct(xs: seq<int>)
    requires StrictlyDecreasing(xs)
    ensures forall x :: multiset(xs)[x] <= 1
    decreases |xs|
  {
    if xs != [] {
      var rest := xs[1..];
      assert xs == [xs[0]] + rest;
      assert StrictlyDecreasing(rest);
      DecreasingIsDistinct(rest);
      assert xs[0] !in rest;
    }
  }

  /** The initial state for any coin count satisfies the invariant. */
  lemma InitInv(n: int)
    ensures Inv(Init(n))
    ensures CoinCount(Init(n)) == if n > 0 then n else 0
  {
    var s := Init(n);
    assert StrictlyDecreasing(s.Stack(E));
    forall p
      ensures StrictlyDecreasing(s.Stack(p))
    {
    }
    DecreasingIsDistinct(s.e);
  }

  /** Two different pegs never show the same coin on top. */
  lemma TopsDiffer(s: State, p: Peg, q: Peg)
    requires Distinct(s)
    requires p != q && s.Stack(p) != [] && s.Stack(q) != []
    ensures Top(s.Stack(p)) != Top(s.Stack(q))
  {
    var x := Top(s.Stack(p));
    var y := Top(s.Stack(q));
    assert multiset(s.Stack(p))[x] >= 1;
    assert multiset(s.Stack(q))[y] >= 1;
    CoinsCount(s, x);
    assert Coins(s)[x] >= multiset(s.Stack(p))[x] + multiset(s.Stack(q))[x];
  }

  /** Pushing a coin smaller than the current top keeps a stack strictly decreasing. */
  lemma PushKeepsDecreasing(xs: seq<int>, x: int)
    requires StrictlyDecreasing(xs)
    requires xs != [] ==> x < Top(xs)
    ensures StrictlyDecreasing(xs + [x])
  {
    var ys := xs + [x];
    forall i, j | 0 <= i < j < |ys|
      ensures ys[i] > ys[j]
    {
      if j == |xs| && i < |xs| - 1 {
        assert xs[i] > xs[|xs| - 1];
      }
    }
  }

  /** The destination of a legal move keeps its shape once the coin lands on it. */
  lemma PushKeepsStackOk(s: State, m: Move)
    requires Inv(s)
    requires IsValidMove(s, m)
    ensures StackOk(m.dst, s.Stack(m.dst) + [Top(s.Stack(m.src))])
  {
    ValidMoveRule(s, m);
    var to := s.Stack(m.dst);
    var coin := Top(s.Stack(m.src));
    assert StackOk(m.dst, to);
    if to != [] {
      TopsDiffer(s, m.src, m.dst);
    }
    PushKeepsDecreasing(to, coin);
  }

  /** Removing the top coin keeps a stack's shape. */
  lemma PopKeepsStackOk(p: Peg, xs: seq<int>)
    requires StackOk(p, xs) && xs != []
    ensures StackOk(p, Pop(xs))
  {
  }

  /** After a legal move every peg still has an allowed shape. */
  lemma MoveKeepsStackOk(s: State, m: Move, p: Peg)
    requires Inv(s)
    requires IsValidMove(s, m)
    ensures StackOk(p, ApplyMove(s, m).Stack(p))
  {
    ValidMoveRule(s, m);
    var t := ApplyMove(s, m);
    if p == m.src {
      assert StackOk(p, s.Stack(p));
      PopKeepsStackOk(p, s.Stack(p));
    } else if p == m.dst {
      PushKeepsStackOk(s, m);
    } else {
      assert t.Stack(p) == s.Stack(p);
      assert StackOk(p, s.Stack(p));
    }
  }

  /** A legal move keeps the invariant. */
  lemma ValidMovePreservesInv(s: State, m: Move)
    requires Inv(s)
    requires IsValidMove(s, m)
    ensures Inv(ApplyMove(s, m))
  {
    ValidMoveRule(s, m);
    MoveConservesCoins(s, m);
    forall p
      ensures StackOk(p, ApplyMove(s, m).Stack(p))
    {
      MoveKeepsStackOk(s, m, p);
    }
  }

  /** Every state a legal replay reaches from a state with the invariant has it too. */
  lemma {:induction false} ReplayPreservesInv(s: State, path: seq<Move>)
    requires Inv(s)
    requires Replay(s, path).Some?
    ensures Inv(Replay(s, path).value)
    decreases |path|
  {
    if path != [] {
      ValidMovePreservesInv(s, path[0]);
      ReplayPreservesInv(ApplyMove(s, path[0]), path[1..]);
    }
  }

  /**
    Every state reachable from the initial state by legal moves has the
    invariant and still holds exactly the initial coins.
  */
  lemma ReachableInv(n: int, path: seq<Move>)
    requires Replay(Init(n), path).Some?
    ensures Inv(Replay(Init(n), path).value)
    ensures Coins(Replay(Init(n), path).value) == Coins(Init(n))
    ensures CoinCount(Replay(Init(n), path).value) == if n > 0 then n else 0
  {
    InitInv(n);
    ReplayPreservesInv(Init(n), path);
    ReplayConservesCoins(Init(n), path);
  }
}
