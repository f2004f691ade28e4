/**
  The four solvers share one graph search. The frontier holds entries of a
  state and the moves that led to it; the visited set holds expanded states.
  A popped entry is first tested against the goal, then discarded if its
  state was already expanded, and otherwise expanded: its state is marked
  visited and one child per legal move is appended to the frontier. The
  solvers differ only in which entry they pop.
*/
module Search {
  import opened CoinState
  import opened HeuristicEstimate
  import opened StateSpace

  /** Which entry leaves the frontier next. */
  datatype Discipline =
    | Lifo                  // depth-first: the newest entry
    | Fifo                  // breadth-first: the oldest entry
    | ByHeuristic           // greedy best-first: least estimate
    | ByCostPlusHeuristic   // A*: least moves-so-far plus estimate

  /** A frontier entry: its priority, the number of moves made, the state and the moves themselves. */
  datatype Entry = Entry(key: int, g: nat, state: State, path: seq<Move>)

  /** The priority of a state reached after `g` moves; the stack and the queue ignore it. */
  function Key(d: Discipline, g: nat, s: State): int {
    match d
    case Lifo => 0
    case Fifo => 0
    case ByHeuristic => Heuristic(s)
    case ByCostPlusHeuristic => g + Heuristic(s)
  }

  /** The first entry of least key, so ties go to the earliest pushed. */
  function MinIndex(f: seq<Entry>): (k: nat)
    requires f != []
    ensures k < |f|
    ensures forall i :: 0 <= i < |f| ==> f[k].key <= f[i].key
    ensures forall i :: 0 <= i < k ==> f[i].key > f[k].key
  {
    if |f| == 1 then 0
    else
      var k := MinIndex(f[..|f| - 1]);
      if f[|f| - 1].key < f[k].key then |f| - 1 else k
  }

  /**
    The entry each discipline pops: the newest for the stack, the oldest for
    the queue, and the first of least key for the two priority queues.
  */
  function PopIndex(d: Discipline, f: seq<Entry>): (k: nat)
    requires f != []
    ensures k < |f|
    ensures d == Lifo ==> k == |f| - 1
    ensures d == Fifo ==> k == 0
    ensures d == ByHeuristic || d == ByCostPlusHeuristic ==>
      (forall i :: 0 <= i < |f| ==> f[k].key <= f[i].key) && (forall i :: 0 <= i < k ==> f[i].key > f[k].key)
  {
    match d
    case Lifo => |f| - 1
    case Fifo => 0
    case ByHeuristic => MinIndex(f)
    case ByCostPlusHeuristic => MinIndex(f)
  }

  function Remove(f: seq<Entry>, k: nat): seq<Entry>
    requires k < |f|
  {
    f[..k] + f[k + 1..]
  }

  /** The entry pushed for the move `m` out of `e`'s state. */
  function Child(d: Discipline, e: Entry, m: Move): Entry
    requires e.state.Stack(m.src) != []
  {
    var next := ApplyMove(e.state, m);
    Entry(Key(d, e.g + 1, next), e.g + 1, next, e.path + [m])
  }

  /**
    What every frontier entry satisfies: replaying its path from the start
    gives its state, its move count is the length of its path, and its key is
    the discipline's priority.
  */
  ghost predicate EntryOk(init: State, d: Discipline, e: Entry) {
    Replay(init, e.path) == Some(e.state) && e.g == |e.path| && e.key == Key(d, e.g, e.state)
  }

  /** A child of a sound entry through a legal move is sound. */
  lemma ChildOk(init: State, d: Discipline, e: Entry, m: Move)
    requires EntryOk(init, d, e)
    requires IsValidMove(e.state, m)
    ensures EntryOk(init, d, Child(d, e, m))
  {
    ReplayAppend(init, e.path, m);
  }

  ghost predicate InFrontier(t: State, f: seq<Entry>) {
    exists e :: e in f && e.state == t
  }

  /** `t` has been expanded or is waiting in the frontier. */
  ghost predicate Covered(t: State, visited: set<State>, f: seq<Entry>) {
    t in visited || InFrontier(t, f)
  }

  /** Every successor of an expanded state has been expanded or is waiting. */
  ghost predicate Closed(visited: set<State>, f: seq<Entry>) {
    forall v, m :: v in visited && IsValidMove(v, m) ==> Covered(ApplyMove(v, m), visited, f)
  }

  lemma PushKeepsCovered(t: State, visited: set<State>, f: seq<Entry>, c: Entry)
    requires Covered(t, visited, f)
    ensures Covered(t, visited, f + [c])
  {
    if t !in visited {
      var e :| e in f && e.state == t;
      assert e in f + [c];
    }
  }

  /** Popping entry `k` and marking its state visited keeps every state covered. */
  lemma PopKeepsCovered(t: State, visited: set<State>, f: seq<Entry>, k: nat)
    requires k < |f|
    requires Covered(t, visited, f)
    ensures Covered(t, visited + {f[k].state}, Remove(f, k))
  {
    if t !in visited && t != f[k].state {
      var e :| e in f && e.state == t;
      var i :| 0 <= i < |f| && f[i] == e;
      if i < k {
        assert Remove(f, k)[i] == e;
      } else {
        assert Remove(f, k)[i - 1] == e;
      }
    }
  }

  /** With nothing waiting, the expanded states are closed under legal moves. */
  lemma {:induction false} ClosedReach(visited: set<State>, s: State, path: seq<Move>)
    requires Closed(visited, [])
    requires s in visited
    requires Replay(s, path).Some?
    ensures Replay(s, path).value in visited
    decreases |path|
  {
    if path != [] {
      assert Covered(ApplyMove(s, path[0]), visited, []);
      ClosedReach(visited, ApplyMove(s, path[0]), path[1..]);
    }
  }

  /** Popping entry `k` and marking its state visited keeps the expanded states closed, its own successors aside. */
  lemma PopKeepsClosed(visited: set<State>, f: seq<Entry>, k: nat)
    requires k < |f|
    requires Closed(visited, f)
    ensures forall v, m :: v in visited && IsValidMove(v, m) ==>
      Covered(ApplyMove(v, m), visited + {f[k].state}, Remove(f, k))
  {
    forall v, m | v in visited && IsValidMove(v, m)
      ensures Covered(ApplyMove(v, m), visited + {f[k].state}, Remove(f, k))
    {
      PopKeepsCovered(ApplyMove(v, m), visited, f, k);
    }
  }

  /**
    `f` is `frontier` followed by one child of `entry` per move of `moves`, in
    that order.
  */
  ghost predicate Appended(d: Discipline, entry: Entry, frontier: seq<Entry>, moves: seq<Move>, f: seq<Entry>) {
    && |f| == |frontier| + |moves|
    && f[..|frontier|] == frontier
    && forall i :: 0 <= i < |moves| ==>
      IsValidMove(entry.state, moves[i]) && f[|frontier| + i] == Child(d, entry, moves[i])
  }

  /** Appending the child for one more legal move extends the picture by that move. */
  lemma AppendOne(d: Discipline, entry: Entry, frontier: seq<Entry>, moves: seq<Move>, f: seq<Entry>, m: Move)
    requires Appended(d, entry, frontier, moves, f)
    requires IsValidMove(entry.state, m)
    ensures Appended(d, entry, frontier, moves + [m], f + [Child(d, entry, m)])
  {
    var f' := f + [Child(d, entry, m)];
    var moves' := moves + [m];
    assert f'[..|frontier|] == f[..|frontier|];
    forall i | 0 <= i < |moves'|
      ensures IsValidMove(entry.state, moves'[i]) && f'[|frontier| + i] == Child(d, entry, moves'[i])
    {
      if i < |moves| {
        assert moves'[i] == moves[i] && f'[|frontier| + i] == f[|frontier| + i];
      }
    }
  }

  /** Children of a sound entry through legal moves, appended to a sound frontier, leave it sound. */
  lemma AppendedSound(init: State, d: Discipline, entry: Entry, frontier: seq<Entry>, moves: seq<Move>, f: seq<Entry>)
    requires EntryOk(init, d, entry)
    requires forall e :: e in frontier ==> EntryOk(init, d, e)
    requires Appended(d, entry, frontier, moves, f)
    ensures forall e :: e in f ==> EntryOk(init, d, e)
  {
    forall e | e in f
      ensures EntryOk(init, d, e)
    {
      var k :| 0 <= k < |f| && f[k] == e;
      if k < |frontier| {
        assert e == frontier[k];
      } else {
        ChildOk(init, d, entry, moves[k - |frontier|]);
      }
    }
  }

  /**
    Appending one child per legal move of a newly visited state closes the
    expanded states again, and keeps the start covered.
  */
  lemma AppendedCloses(init: State, d: Discipline, entry: Entry, visited: set<State>, frontier: seq<Entry>,
                       moves: seq<Move>, f: seq<Entry>)
    requires forall v, m :: v in visited && v != entry.state && IsValidMove(v, m) ==>
      Covered(ApplyMove(v, m), visited, frontier)
    requires Covered(init, visited, frontier)
    requires forall m :: m in moves <==> IsValidMove(entry.state, m)
    requires Appended(d, entry, frontier, moves, f)
    ensures Closed(visited, f)
    ensures Covered(init, visited, f)
  {
    forall t | Covered(t, visited, frontier)
      ensures Covered(t, visited, f)
    {
      if t !in visited {
        var e :| e in frontier && e.state == t;
        var k :| 0 <= k < |frontier| && frontier[k] == e;
        assert f[k] == e;
      }
    }
    forall v, m | v in visited && IsValidMove(v, m)
      ensures Covered(ApplyMove(v, m), visited, f)
    {
      if v == entry.state {
        var i :| 0 <= i < |moves| && moves[i] == m;
        assert f[|frontier| + i].state == ApplyMove(v, m);
      }
    }
  }

  /**
    Expansion of a freshly visited entry: one child per legal move, in the
    generator's order, appended to the frontier, which is otherwise left as it
    was. Afterwards every expanded state, this one included, has its
    successors covered.
  */
  method Expand(init: State, d: Discipline, entry: Entry, visited: set<State>, frontier: seq<Entry>)
    returns (f: seq<Entry>, moves: seq<Move>)
    requires EntryOk(init, d, entry)
    requires entry.state in visited
    requires forall e :: e in frontier ==> EntryOk(init, d, e)
    requires forall v, m :: v in visited && v != entry.state && IsValidMove(v, m) ==>
      Covered(ApplyMove(v, m), visited, frontier)
    requires Covered(init, visited, frontier)
    ensures forall m :: m in moves <==> IsValidMove(entry.state, m)
    ensures forall i, j :: 0 <= i < j < |moves| ==> Before(moves[i], moves[j])
    ensures |f| == |frontier| + |moves| && f[..|frontier|] == frontier
    ensures forall i :: 0 <= i < |moves| ==>
      IsValidMove(entry.state, moves[i]) && f[|frontier| + i] == Child(d, entry, moves[i])
    ensures Appended(d, entry, frontier, moves, f)
    ensures forall e :: e in f ==> EntryOk(init, d, e)
    ensures Closed(visited, f)
    ensures Covered(init, visited, f)
  {
    moves := ValidMoves(entry.state);
    f := frontier;
    var j := 0;
    while j < |moves|
      invariant 0 <= j <= |moves|
      invariant Appended(d, entry, frontier, moves[..j], f)
    {
      assert moves[j] in moves;
      AppendOne(d, entry, frontier, moves[..j], f, moves[j]);
      assert moves[..j + 1] == moves[..j] + [moves[j]];
      f := f + [Child(d, entry, moves[j])];
      j := j + 1;
    }
    assert moves[..j] == moves;
    AppendedSound(init, d, entry, frontier, moves, f);
    AppendedCloses(init, d, entry, visited, frontier, moves, f);
  }

  /** Marking a new state of the universe visited leaves fewer unvisited states. */
  lemma VisitShrinks(universe: set<State>, visited: set<State>, x: State)
    requires x in universe && x !in visited
    ensures |universe - (visited + {x})| < |universe - visited|
  {
    assert universe - (visited + {x}) == (universe - visited) - {x};
  }

  /**
    What holds between two iterations of the search loop: every waiting entry
    is sound, every expanded state lies in `universe` and is not a goal, the
    expanded states have their successors covered, and the start is covered.
  */
  ghost predicate SearchInv(init: State, d: Discipline, universe: set<State>, visited: set<State>, f: seq<Entry>) {
    && (forall e :: e in f ==> EntryOk(init, d, e))
    && visited <= universe
    && (forall v :: v in visited ==> !IsGoal(v))
    && Closed(visited, f)
    && Covered(init, visited, f)
  }

  /**
    One iteration of the search loop: pop an entry, stop at a goal, skip an
    already expanded state, and otherwise expand it. Unless a solution is
    found, either one more state of the universe is expanded or the frontier
    shrinks.
  */
  method Step(init: State, d: Discipline, ghost universe: set<State>, visited: set<State>, frontier: seq<Entry>)
    returns (found: Option<seq<Move>>, visited': set<State>, frontier': seq<Entry>, moves: seq<Move>)
    requires frontier != []
    requires forall t :: Coins(t) == Coins(init) ==> t in universe
    requires SearchInv(init, d, universe, visited, frontier)
    ensures found.Some? <==> IsGoal(frontier[PopIndex(d, frontier)].state)
    ensures found.Some? ==> found.value == frontier[PopIndex(d, frontier)].path
    ensures found.Some? ==> Solves(init, found.value)
    ensures found.None? ==> visited' == visited + {frontier[PopIndex(d, frontier)].state}
    ensures found.None? ==>
      |frontier'| >= |frontier| - 1 && frontier'[..|frontier| - 1] == Remove(frontier, PopIndex(d, frontier))
    ensures found.None? && frontier[PopIndex(d, frontier)].state in visited ==>
      frontier' == Remove(frontier, PopIndex(d, frontier))
    ensures found.None? && frontier[PopIndex(d, frontier)].state !in visited ==>
      && (forall m :: m in moves <==> IsValidMove(frontier[PopIndex(d, frontier)].state, m))
      && (forall i, j :: 0 <= i < j < |moves| ==> Before(moves[i], moves[j]))
      && Appended(d, frontier[PopIndex(d, frontier)], Remove(frontier, PopIndex(d, frontier)), moves, frontier')
    ensures found.None? ==> SearchInv(init, d, universe, visited', frontier')
    ensures found.None? ==>
      |universe - visited'| < |universe - visited| || (visited' == visited && |frontier'| < |frontier|)
  {
    var k := PopIndex(d, frontier);
    var entry := frontier[k];
    assert entry in frontier;
    PopKeepsClosed(visited, frontier, k);
    PopKeepsCovered(init, visited, frontier, k);
    frontier' := Remove(frontier, k);
    visited' := visited;

    if IsGoal(entry.state) {
      return Some(entry.path), visited', frontier', [];
    }
    if entry.state in visited {
      assert visited + {entry.state} == visited;
      forall e | e in frontier'
        ensures EntryOk(init, d, e)
      {
        assert e in frontier;
      }
      return None, visited', frontier', [];
    }

    ReplayConservesCoins(init, entry.path);
    VisitShrinks(universe, visited, entry.state);
    visited' := visited + {entry.state};
    var rest := frontier';
    frontier', moves := Expand(init, d, entry, visited', rest);
    assert Appended(d, entry, rest, moves, frontier');
    found := None;
  }

  /**
    The shared search loop. A returned path solves the puzzle from `init`;
    None means no sequence of legal moves from `init` reaches the goal.
  */
  method GraphSearch(init: State, d: Discipline) returns (r: Option<seq<Move>>)
    ensures r.Some? ==> Solves(init, r.value)
    ensures r.None? ==> forall path :: !Solves(init, path)
  {
    var frontier := [Entry(Key(d, 0, init), 0, init, [])];
    var visited: set<State> := {};
    ghost var universe := FiniteSpace(init);
    while frontier != []
      invariant SearchInv(init, d, universe, visited, frontier)
      decreases |universe - visited|, |frontier|
    {
      var found, moves;
      found, visited, frontier, moves := Step(init, d, universe, visited, frontier);
      if found.Some? {
        return found;
      }
    }

    forall path
      ensures !Solves(init, path)
    {
      if Replay(init, path).Some? {
        ClosedReach(visited, init, path);
      }
    }
    return None;
  }

  /** Depth-first search: the frontier is a stack. */
  method Dfs(init: State) returns (r: Option<seq<Move>>)
    ensures r.Some? ==> Solves(init, r.value)
    ensures r.None? ==> forall path :: !Solves(init, path)
  {
    r := GraphSearch(init, Lifo);
  }

  /** Breadth-first search: the frontier is a queue. */
  method Bfs(init: State) returns (r: Option<seq<Move>>)
    ensures r.Some? ==> Solves(init, r.value)
    ensures r.None? ==> forall path :: !Solves(init, path)
  {
    r := GraphSearch(init, Fifo);
  }

  /** Greedy best-first search: the frontier is ordered by the estimate alone. */
  method GreedyBestFirst(init: State) returns (r: Option<seq<Move>>)
    ensures r.Some? ==> Solves(init, r.value)
    ensures r.None? ==> forall path :: !Solves(init, path)
  {
    r := GraphSearch(init, ByHeuristic);
  }

  /** A* search: the frontier is ordered by moves so far plus the estimate. */
  method AStar(init: State) returns (r: Option<seq<Move>>)
    ensures r.Some? ==> Solves(init, r.value)
    ensures r.None? ==> forall path :: !Solves(init, path)
  {
    r := GraphSearch(init, ByCostPlusHeuristic);
  }
}
