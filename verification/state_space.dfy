/**
  The reachable part of the puzzle is finite: a move only rearranges the
  coins, so every state reached from `s` has five stacks, each no longer
  than the number of coins and built from the ranks of `s`. The searches use
  this finite set to show that they stop.
*/
module StateSpace {
  import opened CoinState

  /** Every sequence of length at most `n` whose elements lie in `ranks`. */
  ghost function SeqsUpTo(ranks: set<int>, n: nat): set<seq<int>> {
    if n == 0 then {[]}
    else {[]} + (set x, rest | x in ranks && rest in SeqsUpTo(ranks, n - 1) :: [x] + rest)
  }

  lemma {:induction false} InSeqsUpTo(ranks: set<int>, n: nat, xs: seq<int>)
    requires |xs| <= n
    requires forall i :: 0 <= i < |xs| ==> xs[i] in ranks
    ensures xs in SeqsUpTo(ranks, n)
    decreases n
  {
    if xs != [] {
      InSeqsUpTo(ranks, n - 1, xs[1..]);
      var x, rest := xs[0], xs[1..];
      assert x in ranks && rest in SeqsUpTo(ranks, n - 1);
      assert xs == [x] + rest;
    }
  }

  /** The distinct ranks present in `s`. */
  ghost function Ranks(s: State): set<int> {
    set x | x in Coins(s)
  }

  /** A finite set containing every state that holds the coins of `s`. */
  ghost function Universe(s: State): set<State> {
    var stacks := SeqsUpTo(Ranks(s), CoinCount(s));
    set a, b, c, d, e | a in stacks && b in stacks && c in stacks && d in stacks && e in stacks
      :: State(a, b, c, d, e)
  }

  lemma CoinsSize(s: State)
    ensures |Coins(s)| == CoinCount(s)
  {
  }

  /** One stack of a state is part of its coins. */
  lemma StackInCoins(t: State, p: Peg)
    ensures |t.Stack(p)| <= CoinCount(t)
    ensures forall i :: 0 <= i < |t.Stack(p)| ==> t.Stack(p)[i] in Coins(t)
  {
    forall i | 0 <= i < |t.Stack(p)|
      ensures t.Stack(p)[i] in Coins(t)
    {
      assert t.Stack(p)[i] in multiset(t.Stack(p));
    }
  }

  /** A state with the same coins as `s` lies in the universe of `s`. */
  lemma InUniverse(s: State, t: State)
    requires Coins(t) == Coins(s)
    ensures t in Universe(s)
  {
    var stacks := SeqsUpTo(Ranks(s), CoinCount(s));
    CoinsSize(s);
    CoinsSize(t);
    forall p
      ensures t.Stack(p) in stacks
    {
      StackInCoins(t, p);
      InSeqsUpTo(Ranks(s), CoinCount(s), t.Stack(p));
    }
    assert t.Stack(A) in stacks && t.Stack(B) in stacks && t.Stack(C) in stacks;
    assert t.Stack(D) in stacks && t.Stack(E) in stacks;
    assert t == State(t.a, t.b, t.c, t.d, t.e);
  }

  /** A finite set of states holding every rearrangement of the coins of `s`. */
  lemma FiniteSpace(s: State) returns (space: set<State>)
    ensures forall t :: Coins(t) == Coins(s) ==> t in space
  {
    space := Universe(s);
    forall t | Coins(t) == Coins(s)
      ensures t in space
    {
      InUniverse(s, t);
    }
  }
}
