/** `solve` (fling.py:238-258) as the recursive method it is: it fills the
    caller's lists of boards and moves and bumps the statistics counters in
    place, and is proved to do what the search of module Backtrack
    specifies for the rules of Fling. */
module Solver {
  import opened Board
  import opened Fling
  import opened Moves
  import opened Backtrack
  import opened FlingSearch

  /** The two lists `G` (boards) and `P` (moves) that `solve` appends to
      and pops from. */
  class Trail {
    var boards: seq<Board>
    var moves: seq<Edge>

    constructor ()
      ensures boards == [] && moves == []
    {
      boards := [];
      moves := [];
    }

    /** `G.append(W)` and `P.append(e)` (fling.py:248-249). */
    method Push(W: Board, e: Edge)
      modifies this
      ensures boards == old(boards) + [W] && moves == old(moves) + [e]
    {
      boards := boards + [W];
      moves := moves + [e];
    }

    /** `G.pop()` and `P.pop()` (fling.py:255-256). */
    method Pop()
      requires boards != [] && moves != []
      modifies this
      ensures boards == old(boards)[..|old(boards)| - 1]
      ensures moves == old(moves)[..|old(moves)| - 1]
    {
      boards := boards[..|boards| - 1];
      moves := moves[..|moves| - 1];
    }
  }

  /** `Stats` (fling.py:43-48): the four counters, all zero at first. */
  class Stats {
    var edgesDiscovered: nat
    var edgesSearched: nat
    var solutionDepth: nat
    var backtrackDepth: nat

    constructor ()
      ensures Counters() == NoCounts
    {
      edgesDiscovered, edgesSearched, solutionDepth, backtrackDepth := 0, 0, 0, 0;
    }

    function Counters(): Counts
      reads this
    {
      Counts(edgesDiscovered, edgesSearched, solutionDepth, backtrackDepth)
    }
  }

  /** `solve(V, G, P, s)`: succeeds exactly when the search does, leaves the
      search's answer appended to the trail (nothing on failure), and adds
      the search's counts to the statistics. */
  method Solve(V: Board, trail: Trail, stats: Stats, ghost g: Rules) returns (ok: bool)
    requires Distinct(V) && PlaysFling(g)
    modifies trail, stats
    ensures var r := Search(g, V);
            && ok == r.found
            && trail.boards == old(trail.boards) + r.boards
            && trail.moves == old(trail.moves) + r.moves
            && stats.edgesDiscovered == old(stats.edgesDiscovered) + r.counts.discovered
            && stats.edgesSearched == old(stats.edgesSearched) + r.counts.searched
            && stats.solutionDepth == old(stats.solutionDepth) + r.counts.solutionDepth
            && stats.backtrackDepth == old(stats.backtrackDepth) + r.counts.backtracks
    decreases |V|, 1
  {
    if |V| == 1 {
      return true;
    }
    var E := FindEdges(V);
    assert g.moves(V) == E;
    stats.edgesDiscovered := stats.edgesDiscovered + |E|;
    ResumesStart(g, V);
    for i := 0 to |E|
      invariant trail.boards == old(trail.boards) && trail.moves == old(trail.moves)
      invariant var t := Tried(g, V, i);
                && stats.edgesDiscovered == old(stats.edgesDiscovered) + |E| + t.discovered
                && stats.edgesSearched == old(stats.edgesSearched) + t.searched
                && stats.solutionDepth == old(stats.solutionDepth) + t.solutionDepth
                && stats.backtrackDepth == old(stats.backtrackDepth) + t.backtracks
      invariant Resumes(g, V, i)
    {
      var solved := TryMove(V, E, i, trail, stats, g);
      if solved {
        SearchEndsAt(g, V, i);
        return true;
      }
      TriedStep(g, V, i);
    }
    SearchExhausted(g, V);
    return false;
  }

  /** One turn of the loop of `solve` (fling.py:246-256): the `i`-th move
      is counted, played and pushed; when the search below succeeds the
      solution depth grows by one and the trail keeps the answer; otherwise
      the move is counted as a backtrack and popped. */
  method TryMove(V: Board, E: seq<Edge>, i: nat, trail: Trail, stats: Stats, ghost g: Rules) returns (solved: bool)
    requires Distinct(V) && PlaysFling(g) && E == Edges(V) && i < |E|
    modifies trail, stats
    ensures var W := Child(g, V, i);
            var r := Search(g, W);
            && solved == r.found
            && trail.boards == old(trail.boards) + (if solved then [W] + r.boards else [])
            && trail.moves == old(trail.moves) + (if solved then [E[i]] + r.moves else [])
            && stats.edgesDiscovered == old(stats.edgesDiscovered) + r.counts.discovered
            && stats.edgesSearched == old(stats.edgesSearched) + r.counts.searched + 1
            && stats.solutionDepth == old(stats.solutionDepth) + r.counts.solutionDepth + (if solved then 1 else 0)
            && stats.backtrackDepth == old(stats.backtrackDepth) + r.counts.backtracks + (if solved then 0 else 1)
    decreases |V|, 0
  {
    var e := E[i];
    stats.edgesSearched := stats.edgesSearched + 1;
    var W := ApplyMove(V, E, i, g);
    trail.Push(W, e);
    SearchCounts(g, W);
    solved := Solve(W, trail, stats, g);
    if solved {
      stats.solutionDepth := stats.solutionDepth + 1;
    } else {
      stats.backtrackDepth := stats.backtrackDepth + 1;
      trail.Pop();
    }
  }

  /** `W = apply_edge(e, V)` (fling.py:247): a generated move is legal, so
      `apply_edge` applies to it, and the board it returns is the one the
      search moves to. */
  method ApplyMove(V: Board, E: seq<Edge>, i: nat, ghost g: Rules) returns (W: Board)
    requires Distinct(V) && PlaysFling(g) && E == Edges(V) && i < |E|
    ensures W == Child(g, V, i) && Distinct(W)
  {
    EdgesIff(V, E[i]);
    W := ApplyEdge(E[i], V);
  }
}
