/**
  The five-peg coin-sorting puzzle: pegs, states, the move rule, the goal
  predicate, the move generator and the replay of a move sequence.

  Pegs A and C are the odd targets, B and D the even targets, and E is the
  source peg that also serves as a relay. A stack lists its coins from the
  bottom up, so the top coin is the last element.
*/
module CoinState {

  datatype Option<T> = None | Some(value: T)

  /** The pegs, declared in the order the move generator visits them. */
  datatype Peg = A | B | C | D | E

  predicate IsOddTarget(p: Peg) {
    p == A || p == C
  }

  predicate IsEvenTarget(p: Peg) {
    p == B || p == D
  }

  /** Position of a peg in the enumeration order A, B, C, D, E. */
  function Index(p: Peg): nat {
    match p
    case A => 0
    case B => 1
    case C => 2
    case D => 3
    case E => 4
  }

  function PegAt(i: nat): (p: Peg)
    requires i < 5
    ensures Index(p) == i
  {
    if i == 0 then A else if i == 1 then B else if i == 2 then C else if i == 3 then D else E
  }

  /** Parity of a coin, as `coin % 2 != 0` computes it. */
  predicate IsOdd(coin: int) {
    coin % 2 != 0
  }

  function Top(xs: seq<int>): int
    requires xs != []
  {
    xs[|xs| - 1]
  }

  function Pop(xs: seq<int>): seq<int>
    requires xs != []
  {
    xs[..|xs| - 1]
  }

  /** One stack per peg, bottom first. */
  datatype State = State(a: seq<int>, b: seq<int>, c: seq<int>, d: seq<int>, e: seq<int>) {

    function Stack(p: Peg): seq<int> {
      match p
      case A => a
      case B => b
      case C => c
      case D => d
      case E => e
    }

    /** This state with the stack of `p` replaced by `xs`. */
    function Put(p: Peg, xs: seq<int>): (r: State)
      ensures r.Stack(p) == xs
      ensures forall q :: q != p ==> r.Stack(q) == Stack(q)
    {
      match p
      case A => this.(a := xs)
      case B => this.(b := xs)
      case C => this.(c := xs)
      case D => this.(d := xs)
      case E => this.(e := xs)
    }
  }

  /** A move takes the top coin of `src` and puts it on `dst`. */
  datatype Move = Move(src: Peg, dst: Peg)

  /** All coins of a state, wherever they lie. */
  function Coins(s: State): multiset<int> {
    multiset(s.a) + multiset(s.b) + multiset(s.c) + multiset(s.d) + multiset(s.e)
  }

  function CoinCount(s: State): nat {
    |s.a| + |s.b| + |s.c| + |s.d| + |s.e|
  }

  /** The ranks n, n-1, ..., 1 in that order (empty when n <= 0). */
  function Descending(n: int): (r: seq<int>)
    ensures |r| == if n > 0 then n else 0
    ensures forall i :: 0 <= i < |r| ==> r[i] == n - i
  {
    if n <= 0 then [] else [n] + Descending(n - 1)
  }

  /** The starting position: every coin on E, largest at the bottom. */
  function Init(n: int): (s: State)
    ensures s.Stack(A) == [] && s.Stack(B) == [] && s.Stack(C) == [] && s.Stack(D) == []
    ensures |s.Stack(E)| == if n > 0 then n else 0
    ensures forall i :: 0 <= i < |s.Stack(E)| ==> s.Stack(E)[i] == n - i
    ensures n > 0 ==> Top(s.Stack(E)) == 1
  {
    State([], [], [], [], Descending(n))
  }

  /** A coin of this parity may be routed to `p`: odd coins to A, C or E, even coins to B, D or E. */
  predicate Routes(coin: int, p: Peg) {
    if IsOdd(coin) then IsOddTarget(p) || p == E else IsEvenTarget(p) || p == E
  }

  /**
    The legality rule, checked in this order: a non-empty source, a
    different destination, parity routing, then the destination's top coin.
  */
  predicate IsValidMove(s: State, m: Move)
  {
    var from := s.Stack(m.src);
    var to := s.Stack(m.dst);
    if from == [] then false
    else if m.dst == m.src then false
    else
      var coin := Top(from);
      if IsOdd(coin) && !(IsOddTarget(m.dst) || m.dst == E) then false
      else if !IsOdd(coin) && !(IsEvenTarget(m.dst) || m.dst == E) then false
      else if to != [] then
        var top := Top(to);
        if coin > top then false
        else if IsOdd(coin) != IsOdd(top) && m.dst != E then false
        else true
      else true
  }

  /**
    The rule in declarative form. A move is rejected exactly when the source
    is empty, the destination is the source, the coin's parity does not route
    to the destination, or the destination's top coin is smaller than the
    moving coin or (on A to D) of the other parity.
  */
  lemma ValidMoveRule(s: State, m: Move)
    ensures s.Stack(m.src) == [] ==> !IsValidMove(s, m)
    ensures m.src == m.dst ==> !IsValidMove(s, m)
    ensures IsValidMove(s, m) ==> Routes(Top(s.Stack(m.src)), m.dst)
    ensures IsValidMove(s, m) && s.Stack(m.dst) != [] ==>
      Top(s.Stack(m.src)) <= Top(s.Stack(m.dst))
    ensures IsValidMove(s, m) && s.Stack(m.dst) != [] && m.dst != E ==>
      IsOdd(Top(s.Stack(m.src))) == IsOdd(Top(s.Stack(m.dst)))
    ensures s.Stack(m.src) != [] && m.src != m.dst && Routes(Top(s.Stack(m.src)), m.dst)
      && (s.Stack(m.dst) != [] ==>
            Top(s.Stack(m.src)) <= Top(s.Stack(m.dst))
            && (m.dst != E ==> IsOdd(Top(s.Stack(m.src))) == IsOdd(Top(s.Stack(m.dst)))))
      ==> IsValidMove(s, m)
  {
  }

  /**
    The state after moving the top coin of `src` onto `dst`. Only a non-empty
    source is needed for the pop; legality is the caller's concern.
  */
  function ApplyMove(s: State, m: Move): (r: State)
    requires s.Stack(m.src) != []
    ensures m.src != m.dst ==> r.Stack(m.src) == Pop(s.Stack(m.src))
    ensures m.src != m.dst ==> r.Stack(m.dst) == s.Stack(m.dst) + [Top(s.Stack(m.src))]
    ensures m.src == m.dst ==> r == s
    ensures forall p :: p != m.src && p != m.dst ==> r.Stack(p) == s.Stack(p)
  {
    var from := s.Stack(m.src);
    var coin := Top(from);
    assert from == Pop(from) + [coin];
    var popped := s.Put(m.src, Pop(from));
    var r := popped.Put(m.dst, popped.Stack(m.dst) + [coin]);
    if m.src == m.dst then
      StackEquality(r, s);
      r
    else
      r
  }

  /** A move neither creates nor destroys coins: the multiset of ranks and the coin count are kept. */
  lemma MoveConservesCoins(s: State, m: Move)
    requires s.Stack(m.src) != []
    ensures Coins(ApplyMove(s, m)) == Coins(s)
    ensures CoinCount(ApplyMove(s, m)) == CoinCount(s)
  {
    var r := ApplyMove(s, m);
    if m.src != m.dst {
      forall x
        ensures Coins(r)[x] == Coins(s)[x]
      {
        RankConserved(s, m, x);
      }
      assert Coins(r) == Coins(s);
      assert |Coins(r)| == CoinCount(r) && |Coins(s)| == CoinCount(s);
    }
  }

  /** The number of coins of rank `x` is the same before and after a move between two different pegs. */
  lemma RankConserved(s: State, m: Move, x: int)
    requires s.Stack(m.src) != [] && m.src != m.dst
    ensures Coins(ApplyMove(s, m))[x] == Coins(s)[x]
  {
    var r := ApplyMove(s, m);
    CoinsCount(s, x);
    CoinsCount(r, x);
    PegDelta(s, m, A, x);
    PegDelta(s, m, B, x);
    PegDelta(s, m, C, x);
    PegDelta(s, m, D, x);
    PegDelta(s, m, E, x);
  }

  /** How often rank `x` lies on peg `p` before and after a move between two different pegs. */
  lemma PegDelta(s: State, m: Move, p: Peg, x: int)
    requires s.Stack(m.src) != [] && m.src != m.dst
    ensures multiset(ApplyMove(s, m).Stack(p))[x] + (if p == m.src && x == Top(s.Stack(m.src)) then 1 else 0)
      == multiset(s.Stack(p))[x] + (if p == m.dst && x == Top(s.Stack(m.src)) then 1 else 0)
  {
    var from := s.Stack(m.src);
    var r := ApplyMove(s, m);
    if p == m.src {
      assert from == r.Stack(p) + [Top(from)];
    } else if p == m.dst {
      assert r.Stack(p) == s.Stack(p) + [Top(from)];
    } else {
      assert r.Stack(p) == s.Stack(p);
    }
  }

  /** Two states are equal when every peg holds the same stack. */
  lemma StackEquality(s: State, t: State)
    requires forall p :: s.Stack(p) == t.Stack(p)
    ensures s == t
  {
    assert s.Stack(A) == t.Stack(A) && s.Stack(B) == t.Stack(B) && s.Stack(C) == t.Stack(C);
    assert s.Stack(D) == t.Stack(D) && s.Stack(E) == t.Stack(E);
  }

  /** The count of one rank, summed peg by peg. */
  lemma CoinsCount(s: State, x: int)
    ensures Coins(s)[x] == multiset(s.Stack(A))[x] + multiset(s.Stack(B))[x] + multiset(s.Stack(C))[x]
      + multiset(s.Stack(D))[x] + multiset(s.Stack(E))[x]
  {
  }

  /**
    Moving a coin and moving it straight back restores the state: a
    back-and-forth cycle returns to a state already seen.
  */
  lemma MoveUndo(s: State, m: Move)
    requires s.Stack(m.src) != []
    ensures ApplyMove(s, m).Stack(m.dst) != []
    ensures ApplyMove(ApplyMove(s, m), Move(m.dst, m.src)) == s
  {
    if m.src != m.dst {
      var from := s.Stack(m.src);
      var t := ApplyMove(s, m);
      var u := ApplyMove(t, Move(m.dst, m.src));
      assert Top(t.Stack(m.dst)) == Top(from);
      assert u.Stack(m.src) == Pop(from) + [Top(from)] == from;
      assert u.Stack(m.dst) == Pop(t.Stack(m.dst)) == s.Stack(m.dst);
      StackEquality(u, s);
    }
  }

  /** Strict lexicographic order on moves: by source peg, then destination peg. */
  predicate Before(m1: Move, m2: Move) {
    Index(m1.src) < Index(m2.src)
    || (Index(m1.src) == Index(m2.src) && Index(m1.dst) < Index(m2.dst))
  }

  /** True of moves the generator has reached once it is at source `i`, destination `j`. */
  predicate Enumerated(m: Move, i: nat, j: nat) {
    Index(m.src) < i || (Index(m.src) == i && Index(m.dst) < j)
  }

  /**
    The move generator: every pair of pegs, sources in the outer loop and
    destinations in the inner one, kept when the move is legal.
  */
  method ValidMoves(s: State) returns (moves: seq<Move>)
    ensures forall m :: m in moves <==> IsValidMove(s, m)
    ensures forall i, j :: 0 <= i < j < |moves| ==> Before(moves[i], moves[j])
  {
    moves := [];
    var i := 0;
    while i < 5
      invariant 0 <= i <= 5
      invariant forall m :: m in moves <==> IsValidMove(s, m) && Enumerated(m, i, 0)
      invariant forall k, l :: 0 <= k < l < |moves| ==> Before(moves[k], moves[l])
      invariant forall k :: 0 <= k < |moves| ==> Enumerated(moves[k], i, 0)
    {
      var j := 0;
      while j < 5
        invariant 0 <= j <= 5
        invariant forall m :: m in moves <==> IsValidMove(s, m) && Enumerated(m, i, j)
        invariant forall k, l :: 0 <= k < l < |moves| ==> Before(moves[k], moves[l])
        invariant forall k :: 0 <= k < |moves| ==> Enumerated(moves[k], i, j)
      {
        var m := Move(PegAt(i), PegAt(j));
        forall m': Move | Index(m'.src) == i && Index(m'.dst) == j
          ensures m' == m
        {
          IndexInjective(m'.src, m.src);
          IndexInjective(m'.dst, m.dst);
        }
        if IsValidMove(s, m) {
          moves := moves + [m];
        }
        j := j + 1;
      }
      i := i + 1;
    }
  }

  lemma IndexInjective(p: Peg, q: Peg)
    requires Index(p) == Index(q)
    ensures p == q
  {
  }

  /**
    Replays a move sequence from `s`: the final state when every move is legal
    in turn, None at the first illegal one.
  */
  function Replay(s: State, path: seq<Move>): Option<State>
    decreases |path|
  {
    if path == [] then Some(s)
    else if IsValidMove(s, path[0]) then Replay(ApplyMove(s, path[0]), path[1..])
    else None
  }

  /** Every state reached by a legal replay holds exactly the coins of the start. */
  lemma {:induction false} ReplayConservesCoins(s: State, path: seq<Move>)
    requires Replay(s, path).Some?
    ensures Coins(Replay(s, path).value) == Coins(s)
    ensures CoinCount(Replay(s, path).value) == CoinCount(s)
    decreases |path|
  {
    if path != [] {
      MoveConservesCoins(s, path[0]);
      ReplayConservesCoins(ApplyMove(s, path[0]), path[1..]);
    }
  }

  /** `path` is legal from `s` and ends in a goal state. */
  predicate Solves(s: State, path: seq<Move>) {
    Replay(s, path).Some? && IsGoal(Replay(s, path).value)
  }

  /** Extending a replayed path by one move replays that move from the path's end state. */
  lemma {:induction false} ReplayAppend(s: State, path: seq<Move>, m: Move)
    requires Replay(s, path).Some?
    ensures var t := Replay(s, path).value;
      Replay(s, path + [m]) == if IsValidMove(t, m) then Some(ApplyMove(t, m)) else None
    decreases |path|
  {
    if path == [] {
      assert [] + [m] == [m];
      assert [m][1..] == [];
    } else {
      assert (path + [m])[0] == path[0];
      assert (path + [m])[1..] == path[1..] + [m];
      ReplayAppend(ApplyMove(s, path[0]), path[1..], m);
    }
  }

  predicate AllOdd(xs: seq<int>) {
    forall i :: 0 <= i < |xs| ==> IsOdd(xs[i])
  }

  predicate AllEven(xs: seq<int>) {
    forall i :: 0 <= i < |xs| ==> !IsOdd(xs[i])
  }

  /** The sorted position: E is empty, A and C hold only odd coins, B and D only even ones. */
  predicate IsGoal(s: State) {
    AllOdd(s.a) && AllOdd(s.c) && AllEven(s.b) && AllEven(s.d) && s.e == []
  }
}
