# Coin-sorting puzzle and its four solvers, in Dafny

This project models `Assignment/CoinState.py`. It is a five-peg puzzle. N coins of
distinct ranks start on peg E, largest at the bottom. They must end up with the odd
coins on A and C and the even coins on B and D, and with E empty. E also serves as a
relay. Four solvers search the graph of states that single legal moves connect:
depth-first, breadth-first, greedy best-first and A*.

Files, one module each:

- `coin_state.dfy` (module `CoinState`) holds the core types and rules:
  - pegs, states (five stacks, listed bottom first) and moves;
  - the initial state, the legality rule, move application and the goal predicate;
  - the move generator and the replay of a move sequence.
- `invariants.dfy` (module `Invariants`) holds the structural invariant that legal moves keep.
- `heuristic.dfy` (module `HeuristicEstimate`) holds the misplaced-coin estimate and its properties.
- `state_space.dfy` (module `StateSpace`) builds a finite set that contains every
  rearrangement of a state's coins. The solvers use it to prove that they stop.
- `search.dfy` (module `Search`) holds the shared search loop and the four solvers.

Modelling choices:

- A state is a datatype with one `seq<int>` per peg, not a dictionary of lists.
  Because Dafny values are immutable, `ApplyMove` cannot change the state it is given.
- The visited set holds states, not their printed form. Two states are the same exactly
  when their printed forms are the same, so the search behaves identically.
- The heap of the priority solvers is a plain sequence. The solver pops the first entry
  with the least key, so ties go to the earliest pushed entry.
- In the code, a popped entry is tested against the goal BEFORE the visited check. The
  model does the same. The order makes no difference to the result, because a visited
  state is never a goal.
- Integers are unbounded, as in Python. Parity is `coin % 2 != 0`. Dafny's `%` and
  Python's `%` agree for divisor 2, negative coins included.

## Model

| member | source | states |
|---|---|---|
| CoinState.Descending | Assignment/CoinState.py:13 | The list built from `range(n, 0, -1)` has length n (or 0 when n <= 0), and position i holds n - i. |
| CoinState.Init | Assignment/CoinState.py:11-13 | In the initial state, pegs A to D are empty. E holds n, n-1, ..., 1 from the bottom, so coin 1 is on top. |
| CoinState.IsValidMove | Assignment/CoinState.py:21-39 | The legality test, written as the same chain of early rejections. Its meaning is stated by `ValidMoveRule`, in both directions. |
| CoinState.ValidMoveRule | Assignment/CoinState.py:21-39 | A move is legal exactly when all of these hold: the source is non-empty; the destination differs from the source; an odd coin goes to A, C or E and an even coin to B, D or E; and on a non-empty destination the coin is no larger than the top, with equal parity unless the destination is E. |
| CoinState.ApplyMove | Assignment/CoinState.py:41-46 | The source loses its top coin and the destination gains it on top. The other three stacks are unchanged. A move from a peg to itself gives back the same state. |
| CoinState.MoveConservesCoins | Assignment/CoinState.py:41-46 | A move keeps the multiset of ranks and the total coin count. |
| CoinState.MoveUndo | Assignment/CoinState.py:41-46 | Moving a coin and moving it straight back restores the original state. |
| CoinState.ValidMoves | Assignment/CoinState.py:58-64 | The generated list contains exactly the legal moves. It is strictly increasing by source peg, then by destination peg, in A..E order, so it has no duplicates. |
| CoinState.Replay | Assignment/CoinState.py:92-94 | Applies a path move by move, stopping with None at the first illegal move. A search's `path + [move]` only ever adds a generated, hence legal, move. `ReplayAppend` describes how it extends by one move, and `Solves` (legal replay ending at a goal) is the property every solver promises. The replay loop of `main` (lines 194-196) applies moves without checking them; it is only ever given a solver's path. |
| CoinState.ReplayConservesCoins | Assignment/CoinState.py:41-46 | Every state reached by replaying legal moves has the coins and the coin count of the start. |
| CoinState.ReplayAppend | Assignment/CoinState.py:92-94 | Replaying `path + [move]` gives the same result as replaying `path` and then applying the move, if that move is legal. |
| CoinState.IsGoal | Assignment/CoinState.py:48-56 | E is empty, A and C hold only odd coins, and B and D only even ones. `HeuristicZeroIffGoal` ties it to the estimate in both directions. |
| Invariants.InitInv | Assignment/CoinState.py:11-13 | The initial state satisfies the invariant, and it holds n coins (0 when n <= 0). The invariant: every stack strictly decreases from bottom to top; A and C hold only odd coins; B and D hold only even coins; no rank appears twice. |
| Invariants.MoveKeepsStackOk | Assignment/CoinState.py:21-46 | After a legal move, each peg still holds a strictly decreasing stack, with only odd coins on A and C and only even coins on B and D. |
| Invariants.ValidMovePreservesInv | Assignment/CoinState.py:21-46 | A legal move keeps the invariant. |
| Invariants.ReplayPreservesInv | Assignment/CoinState.py:21-46 | Any sequence of legal moves keeps the invariant. |
| Invariants.ReachableInv | Assignment/CoinState.py:11-46 | Every state reachable from the initial state has the invariant, the same multiset of ranks and exactly n coins. |
| HeuristicEstimate.Heuristic | Assignment/CoinState.py:66-76 | Counts the even coins on A and C, the odd coins on B and D, and every coin on E. `HeuristicZeroIffGoal`, `HeuristicAtMostCoinCount`, `HeuristicStep` and `HeuristicAdmissible` state its properties. |
| HeuristicEstimate.HeuristicZeroIffGoal | Assignment/CoinState.py:48-76 | The misplaced-coin count is zero exactly when `is_goal` holds. |
| HeuristicEstimate.HeuristicAtMostCoinCount | Assignment/CoinState.py:66-76 | The misplaced-coin count never exceeds the number of coins. |
| HeuristicEstimate.HeuristicStep | Assignment/CoinState.py:66-76 | One move lowers the count by at most one, so the estimate is consistent for unit move costs. |
| HeuristicEstimate.HeuristicAdmissible | Assignment/CoinState.py:66-76 | Every solving path from a state is at least as long as the state's count, so the estimate is admissible. |
| Search.PopIndex | Assignment/CoinState.py:83-143 | Which entry leaves the frontier: depth-first takes the newest (`stack.pop()`), breadth-first the oldest (`queue.popleft()`), and the two heap searches an entry of least key, the first such. |
| Search.MinIndex | Assignment/CoinState.py:123 | The popped entry has a key no larger than any other entry's. Every entry before it has a strictly larger key. |
| Search.Key | Assignment/CoinState.py:119-155 | The priority of an entry: none for the stack and the queue, the estimate for greedy best-first (lines 119, 134), and moves so far plus the estimate for A* (lines 139, 155). `ChildOk` shows that every pushed entry carries exactly this key. |
| Search.Child | Assignment/CoinState.py:92-94 | The entry pushed for a move: the moved state, the path extended by the move and one more move counted (`new_g = g + 1` at lines 153-155). `ChildOk` shows it stays sound. |
| Search.ChildOk | Assignment/CoinState.py:152-155 | Take an entry whose path replays to its state, whose move count equals its path length and whose key is the discipline's priority. Its child through a legal move has all three properties too. |
| Search.Expand | Assignment/CoinState.py:92-94 | The old frontier stays as it was, as a prefix. After it come exactly one child per legal move, in the generator's order. Each child's state is the move applied to the entry's state, its path is the entry's path plus that move, and its move count is one more. Every frontier entry stays sound. Afterwards every legal successor of every visited state is visited or waiting in the frontier. |
| Search.Step | Assignment/CoinState.py:83-94 | One loop iteration pops the entry `PopIndex` picks. It returns that entry's path exactly when the entry's state is a goal, and the path then solves the puzzle. Otherwise that state joins the visited set. When it was already visited, the frontier simply loses the popped entry. When it is new, the rest of the frontier is kept in order, followed by exactly one child per legal move of the popped state, in the generator's order. The loop invariant still holds, and either one more state has been expanded or the frontier has shrunk. |
| Search.GraphSearch | Assignment/CoinState.py:78-157 | The shared loop stops. A returned path is legal move by move from the start and ends at a goal. No path is returned only when no legal move sequence reaches a goal. |
| Search.Dfs | Assignment/CoinState.py:78-96 | Depth-first search: the shared loop with the `Lifo` discipline, whose pop `PopIndex` pins to the newest entry. A returned path solves the puzzle, and no path is returned only when none exists. |
| Search.Bfs | Assignment/CoinState.py:98-116 | Breadth-first search: the shared loop with the `Fifo` discipline, whose pop `PopIndex` pins to the oldest entry, with the same guarantee. |
| Search.GreedyBestFirst | Assignment/CoinState.py:118-136 | Greedy best-first search keyed on the estimate, with the same guarantee. |
| Search.AStar | Assignment/CoinState.py:138-157 | A* keyed on moves-so-far plus the estimate, with the same guarantee. |

## Left out

- `main` (Assignment/CoinState.py:160-203) is left out. It is interactive input and printing. `Replay` covers its replay loop, but not the printing.
- `__str__` (Assignment/CoinState.py:15-16) is left out. The model keys the visited set on structural states instead of their printed form.
- `__lt__` (Assignment/CoinState.py:18-19) and the internals of `heapq` are left out. The exact tie-break among equal keys in a binary heap is not modelled. The model pops the earliest-pushed entry among those with the least key.
- Search.MinIndex: it compares the key alone. A*'s heap entries (Assignment/CoinState.py:139,155) are tuples `(g + h, g, state, path)`, so between equal `g + h` Python pops the smaller `g` first. The model drops that second key and pops the earliest-pushed entry among those with the least `g + h`. Greedy best-first pushes `(h, state, path)` (Assignment/CoinState.py:134). Its ties reach `__lt__`, which calls every pair of states equal, so the heap's internal order decides, and the model uses insertion order there too. In A*, when `g + h` and `g` both tie, the same holds.
- CoinState.ApplyMove: like the source, it applies any move whose source is non-empty, legal or not. Moving from an empty peg raises an error in the source, so the model makes a non-empty source a precondition.
- Optimality is not proved: neither that BFS returns a shortest path nor that A* returns an optimal one. Only soundness, completeness (no path is returned only when none exists) and termination are proved. Admissibility and consistency of the estimate are proved separately.
- The cost of copying paths and stacks is not modelled.
