# Fling puzzle engine in Dafny

A model of the puzzle engine of `fling.py`, with proofs about it. In Fling, pieces stand on the cells of a 7 x 8 grid. A move flings one piece along its row or column toward another piece at least two cells away. The flung piece stops right before the piece it strikes, and the struck piece is flung on in turn. The last piece of the line falls off the board. A puzzle is solved when one piece is left.

The model has four parts, one module each, plus the search and its driver:

- `Vertex` (vertex.dfy): the position value type. Positional equality, the lexicographic three-way comparison, the label `row * 7 + col` and its inverse.
- `Board` (board.dfy): boards as sequences of distinct positions. It models the list operations the engine uses: `index`, `remove`, filtering a line out of the board, and sorting it by the moving coordinate.
- `Fling` (fling.dfy): `apply_edge` as a pure recursive function `ApplyEdge`. It is proved equal to a piece-by-piece reference definition `Collapse`, which gives the base case, the chain and the pieces a move leaves in place.
- `Moves` (moves.dfy): `adjacent_vertices` and `find_edges` as methods with loops, each proved equal to a specification function. A move is emitted exactly when it is legal (`EdgesIff`).
- `Backtrack` (backtrack.dfy): `solve` as a specification function `Search`. It returns the outcome of the depth-first search, the trail it leaves, and the four counters.
  - The search is stated for any move generator and move rule (`Game`) in which every move removes a piece.
  - The proofs about it (sound, complete, first answer in generator order, counters consistent with the trail) depend on nothing else.
- `FlingSearch` (flingsearch.dfy): plugs the rules of Fling into the search (`FlingRules`). It proves that the answers are sequences of legal moves that leave one piece, and that `solve` succeeds exactly when such a sequence exists.
- `Solver` (solver.dfy): `solve` as the imperative recursive method `Solve`.
  - It works over a `Trail` object holding the lists `G` and `P`, pushed and popped in place, and a `Stats` object whose counters it increments in place.
  - It is proved to do exactly what `Search` specifies.
  - Its rules are a ghost parameter `g` that must agree with `find_edges` and `apply_edge` (`PlaysFling`). `FlingRulesPlayFling` shows `FlingRules` is such a `g`, and `SameSearch` shows every such `g` searches every board the same way.
  - The loop body of `solve` is split into the method `TryMove`, and the `apply_edge` call into `ApplyMove`. Apart from that, the method follows the source statement by statement.

Python's `Status.SUCCESS`/`FAILURE` (1/0) are modelled as `true`/`false`. This is how `solve` itself uses them.

## Model

| member | source | states |
|---|---|---|
| Vertex.Equal | fling.py:108-109 | two pieces are equal exactly when they are the same position |
| Vertex.NotEqual | fling.py:111-112 | `__ne__` is the exact negation of `__eq__` |
| Vertex.Compare | fling.py:114-125 | the result is -1, 0 or 1; it is 0 exactly when the pieces are equal, -1 exactly when the first comes first in row-major order, and 1 exactly when the second does |
| Vertex.CompareAntisymmetric | fling.py:114-125 | swapping the arguments negates the comparison |
| Vertex.CompareTransitive | fling.py:114-125 | the comparison is transitive, and a chain of "not after" that ends in 0 is a chain of equal pieces |
| Vertex.Hash | fling.py:130-131 | the label agrees with the column modulo 7 |
| Vertex.FromHash | fling.py:134-135 | the decoded piece lies inside the 7 columns and its label is the label decoded |
| Vertex.FromHashOfHash | fling.py:130-135 | decoding the label of a piece gives the piece back exactly when its column is below 7 |
| Vertex.HashInjective | fling.py:130-131 | inside the 7 columns, different pieces have different labels |
| Vertex.HashOrder | fling.py:114-131 | inside the 7 columns, label order is the comparison order |
| Board.IndexOf | fling.py:174-175 | `list.index`: the first position holding the piece |
| Board.RemoveFirst | fling.py:191-192 | `list.remove`: one entry shorter, the first occurrence cut out, the other pieces kept, and no repeat created |
| Board.OnLine | fling.py:182 | `filter`: exactly the board's pieces on the line |
| Board.Sort | fling.py:183 | the sorted line has the same pieces and length |
| Board.Line | fling.py:182-183 | the collision line holds exactly the board's pieces on the given row or column |
| Board.SortIncreasing | fling.py:183 | sorting pieces with distinct moving coordinates gives a strictly increasing line |
| Board.IncreasingUnique | fling.py:183 | two increasing lines with the same pieces are equal, so every sorting routine gives the same line |
| Board.LineIsSortedFilter | fling.py:182-183 | the collision line `Line` equals the filtered board, sorted |
| Board.LineNeighbour | fling.py:191-205 | on the sorted line the next piece in the direction of travel (`F[i+1]` or `F[i-1]`) is the nearest piece ahead, and the test for the last or first piece is the test for no piece ahead |
| Fling.AxisOf | fling.py:177-180 | definition, no contract: the move travels along the shared row when the pieces share one, else along the column |
| Fling.Forward | fling.py:186 | definition, no contract: the move travels toward larger coordinates, right or down |
| Fling.Stop | fling.py:188-200 | definition, no contract: the cell just before `dest` in the direction of travel, where the flung piece comes to rest |
| Fling.Terminal | fling.py:191-203 | definition, no contract: `dest` is the last piece of the sorted line (`F[-1]`) when travelling forward, the first (`F[0]`) otherwise; `Fling.TerminalIsLast` proves this is the no-piece-ahead test |
| Fling.Successor | fling.py:193-205 | the next link of the chain starts from `dest` and strikes the nearest piece ahead of `dest` in the direction of travel, which is `F[i+1]` forward or `F[i-1]` backward on the sorted line |
| Fling.Launch | fling.py:186-200 | the flung piece is moved, in place in the list, to the cell before the struck piece; the board stays free of repeats and the struck piece is still on it |
| Fling.ApplyEdge | fling.py:172-207 | a move removes exactly one piece and never puts two pieces on one cell |
| Fling.TerminalIsLast | fling.py:191-205 | `dest` is the last piece of `F` in the direction of travel exactly when no piece lies ahead of it, and otherwise the next target is the nearest piece ahead |
| Fling.ApplyEdgeIsCollapse | fling.py:172-207 | `apply_edge` computes the reference definition: each piece from the flung one on ends against its successor on the line, and the last one is removed |
| Fling.ApplyEdgeLastPiece | fling.py:186-203 | base case: with no piece beyond `dest`, the flung piece ends at `dest - 1` (forward) or `dest + 1` (backward), and `dest` is removed |
| Fling.ApplyEdgeTerminal | fling.py:191-192 | proof step, one unfolding of `apply_edge`: when `dest` is terminal, the result is the launched board with `dest` removed |
| Fling.ApplyEdgeSuccessor | fling.py:193-194 | when `dest` is not terminal, the result is the next move applied to the launched board, and that move is itself a valid contact |
| Fling.ApplyEdgeChain | fling.py:182-205 | chain: the next move goes from `dest` to the nearest piece beyond it on the line of the input board, and is played on the board where only `src` has moved |
| Fling.ApplyEdgeUntouched | fling.py:172-207 | pieces off the line of the move, or behind the flung piece, are where they were, and no piece lands on such a cell |
| Fling.ApplyEdgeInGrid | fling.py:172-207 | a move keeps every piece on the grid the board was on |
| Fling.ExampleLastPiece | fling.py:186-192 | `[(0,0),(0,5)]` with move `((0,0),(0,5))` gives `[(0,4)]` |
| Fling.ExampleChain | fling.py:186-194 | `[(0,0),(0,3),(0,4)]` with move `((0,0),(0,3))` gives `[(0,2),(0,3)]` through one chained collision |
| Moves.Neighbours | fling.py:215-222 | definition, no contract: the nearest piece to the left, right, above and below `v`, in that order and without sorting; `Moves.NeighboursIff` and `Moves.AppendNeighbours` tie it to the source |
| Moves.Adjacent | fling.py:210-223 | definition, no contract: the result of `adjacent_vertices`, one copy of the neighbours per board entry equal to `v`; `Moves.AdjacentOf` proves that is the neighbours or nothing |
| Moves.AdjacentVertices | fling.py:210-223 | the loop returns the specification `Adjacent`: the neighbours of `v` when it is on the board, else nothing |
| Moves.AppendNeighbours | fling.py:215-222 | the inner loop appends the neighbours of `v` along its row, then along its column |
| Moves.AppendBeside | fling.py:216-222 | for one line, appends the piece just before and the piece just after `v` on the sorted line, when there are such pieces |
| Moves.SortedLine | fling.py:216-217 | the line the source builds by filtering and sorting is the collision line `Line` |
| Moves.AdjacentOf | fling.py:213-214 | the scan for `v` yields its neighbours when `v` is on the board and nothing otherwise |
| Moves.NeighboursIff | fling.py:215-222 | a piece is a neighbour exactly when it is the nearest piece before or after `v` on its row or its column |
| Moves.NeighboursBound | fling.py:215-222 | at most 4 neighbours, each a different piece of the board on `v`'s row or column |
| Moves.AdjacentBound | fling.py:210-223 | `adjacent_vertices` returns at most 4 pieces |
| Moves.Edges | fling.py:226-235 | definition, no contract: the result of `find_edges`, the moves passing the distance test over pieces in board order and neighbours in neighbour order; `Moves.EdgesIff` proves these are exactly the legal moves |
| Moves.FindEdges | fling.py:226-235 | the loop returns the specification `Edges`: over the pieces in board order and their neighbours in neighbour order, each move that passes the distance test |
| Moves.AppendMoves | fling.py:230-234 | the inner loop appends the moves from `u` to those of its neighbours that pass the distance test, in order |
| Moves.MovesAppend | fling.py:231-234 | of the two tests at most one passes, so each neighbour adds at most one move |
| Moves.IsMove | fling.py:231-234 | definition, no contract: the distance test, same row and more than one column apart, or same column and more than one row apart |
| Moves.EdgesFromIff | fling.py:230-234 | a move is emitted for `u` exactly when its target is one of the neighbours scanned and passes the distance test |
| Moves.MovesUpToIff | fling.py:229-234 | a move is emitted by the first `n` pieces exactly when its source is one of them and its target is a neighbour passing the distance test |
| Moves.MovesPrefix | fling.py:229-235 | the moves of the first `n` pieces are a prefix of all moves, so the outer loop follows board order |
| Moves.EdgesIff | fling.py:226-235 | a move is emitted exactly when it is legal: same row or column, a gap above 1, and no piece strictly between |
| Moves.EdgesBound | fling.py:226-235 | at most 4 moves per piece |
| Moves.ExampleNeighbours | fling.py:210-223 | on `[(0,0),(0,5)]` each piece is the other's only neighbour |
| Moves.ExampleEdges | fling.py:226-235 | on `[(0,0),(0,5)]` the moves are `((0,0),(0,5))` then `((0,5),(0,0))` |
| Backtrack.Search | fling.py:238-258 | definition, no contract: the outcome of `solve` on a board; one piece succeeds at once with empty trail and counters, otherwise the generated moves are counted as discovered and tried in order; its properties are the lemmas below |
| Backtrack.SearchFrom | fling.py:245-258 | definition, no contract: the `for` loop of `solve` from the `i`-th move on: searched, pushed and solved below, or backtracked and popped before the next move |
| Backtrack.Child | fling.py:247 | the board after a generated move is smaller |
| Backtrack.FoundStep | fling.py:250-252 | proof step, one unfolding of the loop: a move whose board is solvable heads the answer; it counts one search and one step of solution depth |
| Backtrack.FailedStep | fling.py:253-256 | proof step, one unfolding of the loop: a move whose board is unsolvable counts one search and one backtrack, and the loop goes on with the next move |
| Backtrack.SolvedByFirst | fling.py:245-252 | a board whose first move leaves one piece is solved by that move alone: 1 searched, solution depth 1, no backtrack, and only its own moves discovered |
| Backtrack.SearchSound | fling.py:238-258 | when `solve` succeeds, its trail is a line of play, with the board after each move, that ends with one piece |
| Backtrack.SearchComplete | fling.py:238-258 | when some line of play leaves one piece, `solve` succeeds |
| Backtrack.SearchIff | fling.py:238-258 | `solve` succeeds exactly when the board has a solution |
| Backtrack.SearchCounts | fling.py:243-254 | moves on the trail match boards on it; searched = solution depth + backtracks; solution depth = trail length on success; a failure pushes nothing; a board of more than one piece counts at least its own moves as discovered |
| Backtrack.TriedStep | fling.py:245-256 | proof step for the loop invariant of `Solver.Solve`: after `i` failed moves the loop, resumed from move `i`, finishes the whole loop; a further failed move keeps this so |
| Backtrack.SearchEndsAt | fling.py:245-252 | proof step for the early return of `Solver.Solve`: when the loop succeeds at move `i`, the outcome of `solve` is that move, the answer below it, and the counters of the earlier failures plus its own |
| Backtrack.SearchExhausted | fling.py:245-258 | proof step for the final return of `Solver.Solve`: when every move fails, `solve` fails with the discovered moves and the counters of all failures |
| Backtrack.SearchFromFirst | fling.py:245-252 | from move `i`, the loop answers with the first later move whose board is solvable, followed by that board's answer |
| Backtrack.SearchFirst | fling.py:245-252 | depth first in generator order: the answer starts with the first solvable move, and the boards with the board it leads to |
| Backtrack.SearchNone | fling.py:245-258 | when no move leads to a solvable board, `solve` fails |
| FlingSearch.Generated | fling.py:242 | definition, no contract: the moves `solve` tries on a board, those of `find_edges` |
| FlingSearch.Play | fling.py:247 | definition, no contract: `apply_edge` on the moves it is applied to |
| FlingSearch.FlingShrinks | fling.py:242-247 | every move `find_edges` generates makes `apply_edge` remove a piece, so the recursion is bounded by the board size |
| FlingSearch.FlingRules | fling.py:242-247 | definition, no contract: the game built from `Generated` and `Play`; its type records `FlingShrinks`, and `FlingSearch.FlingRulesPlayFling` proves it agrees with `find_edges` and `apply_edge` |
| FlingSearch.FlingRulesPlayFling | fling.py:242-247 | those rules generate the moves of `find_edges` and play each legal move with `apply_edge` |
| FlingSearch.PlaysFlingChild | fling.py:242-247 | under such rules, the `i`-th move tried is the `i`-th move of `find_edges`, is legal, and leads to the board `apply_edge` returns |
| FlingSearch.SameSearch | fling.py:238-258 | all rules that agree with `find_edges` and `apply_edge` give the same outcome on every board |
| FlingSearch.PathIff | fling.py:245-249 | a line of play of the search is exactly a sequence of legal moves, each with the board `apply_edge` gives after it |
| FlingSearch.SolvedIff | fling.py:238-258 | a solution of the search is exactly a sequence of legal moves that leaves one piece |
| FlingSearch.PathSizes | fling.py:245-249 | along a line of play there is one board per move, and the `j`-th board has `j + 1` pieces fewer than the start |
| FlingSearch.SolutionLength | fling.py:239-249 | a solution of an `n`-piece board has exactly `n - 1` moves and boards |
| FlingSearch.FlingSound | fling.py:238-258 | a successful `solve` leaves legal moves in `P`, each followed in `G` by the board `apply_edge` gives, ending with one piece |
| FlingSearch.FlingIff | fling.py:238-258 | `solve` succeeds exactly when some sequence of legal moves leaves a single piece |
| FlingSearch.PlaysFlingAnswer | fling.py:238-258 | under any rules that agree with the source: success ⇔ a solution exists; success ⇒ the trail is a solution; failure ⇒ the trail is empty |
| FlingSearch.ExampleSolved | fling.py:238-252 | on `[(0,0),(0,5)]`, `solve` succeeds with `P = [((0,0),(0,5))]` and `G = [[(0,4)]]`, having discovered 2 moves, searched 1, a solution depth of 1 and no backtrack |
| FlingSearch.ExampleStuck | fling.py:242-258 | `solve` fails on `[(0,0),(3,4)]`, which has no move, without changing a counter |
| Solver.Trail.Push | fling.py:248-249 | the board and the move are appended to `G` and to `P` |
| Solver.Trail.Pop | fling.py:255-256 | the last board and the last move are removed |
| Solver.Stats.constructor | fling.py:43-48 | all four counters start at zero |
| Solver.Solve | fling.py:238-258 | the method succeeds exactly when the search does; it leaves the search's answer appended to `G` and `P`; it adds the search's counts to each of the four counters |
| Solver.TryMove | fling.py:246-256 | one turn of the loop counts the move as searched and pushes it; on success it keeps the answer below and adds one to the solution depth; otherwise it adds one backtrack and pops the move |
| Solver.ApplyMove | fling.py:247 | `apply_edge` applies to the generated move, and the board it returns is the one the search moves to, with no repeated positions |

## Left out

- `FlingDatabase` (sqlite persistence and JSON), `VertexEncoder` and `Vertex.json_hook`: I/O and library glue.
- `print_graph`, `print_solution`, `cellstr`, `Stats.print_stats` and `Vertex.__str__`: console output only.
- The `__main__` block: a hard-coded layout plus command-line and cache orchestration. `setup.py` is packaging metadata.
- `copy.deepcopy` and object identity. Boards are immutable sequences of position values, so the input board of `apply_edge` is unchanged by construction.
- Fling.ApplyEdge: requires `Contact(V, e)`. This means a board without repeats, both pieces on it and on a common row or column, and nothing between them. Every move `solve` plays meets this (`EdgesIff`). The `ValueError` of `list.index` on other inputs, self-moves and boards with repeats are not modelled.
- Moves.FindEdges: requires a board without repeated positions, as does `Moves.AdjacentVertices`. With repeats, `list.index` finds the first copy, and the source's output for such boards is not modelled.
- Solver.Solve: requires a board without repeated positions. Every board it reaches from such a board is again one.
- FlingSearch.Generated: gives no moves on a board with repeated positions, which the search never reaches.
- Vertex.FromHash: defined on non-negative labels only. Positions have non-negative coordinates, and there Python 2's floor division agrees with Dafny's.
- Board.Sort: Python's `list.sort` is modelled by insertion sort. On a line the keys are distinct, so every sorting routine gives the same line (`Board.IncreasingUnique`).
- Python integers are unbounded, like Dafny's, so counters and coordinates need no wrap-around.
