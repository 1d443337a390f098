/** The backtracking solver of fling.py:238-258 as a specification: a
    depth-first search over the generated moves in order, recording the
    boards and moves of the line of play it ends on and the four statistics
    counters. The search is stated for any move generator and move rule that
    remove a piece per move; the Fling rules are plugged in by module
    FlingSearch. */
module Backtrack {
  import opened Board

  /** The four counters of `Stats` (fling.py:43-48), as values. */
  datatype Counts = Counts(discovered: nat, searched: nat, solutionDepth: nat, backtracks: nat)

  const NoCounts: Counts := Counts(0, 0, 0, 0)

  /** The effect of one call of `solve`: whether it succeeds, the moves and
      boards it leaves pushed on the trail, and what it adds to each counter. */
  datatype Outcome = Outcome(found: bool, moves: seq<Edge>, boards: seq<Board>, counts: Counts)

  /** A move generator and the rule that plays a generated move. */
  datatype Game = Game(moves: Board -> seq<Edge>, play: (Edge, Board) -> Board)

  /** Every generated move leaves fewer pieces: what makes the search end. */
  ghost predicate Shrinks(g: Game)
  {
    forall V: Board, i :: 0 <= i < |g.moves(V)| ==> |g.play(g.moves(V)[i], V)| < |V|
  }

  type Rules = g: Game | Shrinks(g) witness Game(V => [], (e, V) => V)

  /** The board after the `i`-th generated move. */
  function Child(g: Rules, V: Board, i: nat): (W: Board)
    requires i < |g.moves(V)|
    ensures |W| < |V|
  {
    g.play(g.moves(V)[i], V)
  }

  /** `solve(V, G, P, s)`: a board of one piece is solved at once;
      otherwise the moves are generated, counted, and tried in order. */
  function Search(g: Rules, V: Board): Outcome
    decreases |V|, 1, 0
  {
    if |V| == 1 then Outcome(true, [], [], NoCounts)
    else
      var r := SearchFrom(g, V, 0);
      Outcome(r.found, r.moves, r.boards,
              Counts(|g.moves(V)| + r.counts.discovered, r.counts.searched,
                     r.counts.solutionDepth, r.counts.backtracks))
  }

  /** The loop of `solve` from the `i`-th generated move on: the move is
      counted and played; when the search below succeeds, it is the first
      move of the answer and the solution depth grows by one; otherwise it is
      counted as a backtrack, taken back, and the next move is tried. */
  function SearchFrom(g: Rules, V: Board, i: nat): Outcome
    requires i <= |g.moves(V)|
    decreases |V|, 0, |g.moves(V)| - i
  {
    if i == |g.moves(V)| then Outcome(false, [], [], NoCounts)
    else
      var W := Child(g, V, i);
      var r := Search(g, W);
      if r.found then
        Outcome(true, [g.moves(V)[i]] + r.moves, [W] + r.boards,
                Counts(r.counts.discovered, r.counts.searched + 1,
                       r.counts.solutionDepth + 1, r.counts.backtracks))
      else
        var rest := SearchFrom(g, V, i + 1);
        Outcome(rest.found, rest.moves, rest.boards,
                Counts(r.counts.discovered + rest.counts.discovered,
                       r.counts.searched + 1 + rest.counts.searched,
                       r.counts.solutionDepth + rest.counts.solutionDepth,
                       r.counts.backtracks + 1 + rest.counts.backtracks))
  }

  /** Adds `c` to the counters of an outcome. */
  function Resume(c: Counts, r: Outcome): (q: Outcome)
    ensures q.found == r.found && q.moves == r.moves && q.boards == r.boards
  {
    Outcome(r.found, r.moves, r.boards,
            Counts(c.discovered + r.counts.discovered, c.searched + r.counts.searched,
                   c.solutionDepth + r.counts.solutionDepth, c.backtracks + r.counts.backtracks))
  }

  /** A move whose board is solvable ends the loop: it heads the answer. */
  lemma FoundStep(g: Rules, V: Board, i: nat)
    requires i < |g.moves(V)| && Search(g, Child(g, V, i)).found
    ensures var r := Search(g, Child(g, V, i));
            SearchFrom(g, V, i) == Outcome(true, [g.moves(V)[i]] + r.moves, [Child(g, V, i)] + r.boards,
                                           Counts(r.counts.discovered, r.counts.searched + 1,
                                                  r.counts.solutionDepth + 1, r.counts.backtracks))
  {
  }

  /** A board whose first move leaves a single piece is solved by that
      move alone: one move searched, a solution one move deep, and nothing
      discovered beyond the board's own moves. */
  lemma SolvedByFirst(g: Rules, V: Board)
    requires |V| != 1 && |g.moves(V)| > 0 && |Child(g, V, 0)| == 1
    ensures Search(g, V) == Outcome(true, [g.moves(V)[0]], [Child(g, V, 0)], Counts(|g.moves(V)|, 1, 1, 0))
  {
    FoundStep(g, V, 0);
  }

  /** A move whose board is not solvable is searched, backtracked, and the
      loop goes on with the next move. */
  lemma FailedStep(g: Rules, V: Board, i: nat)
    requires i < |g.moves(V)| && !Search(g, Child(g, V, i)).found
    ensures var c := Search(g, Child(g, V, i)).counts;
            SearchFrom(g, V, i) == Resume(Counts(c.discovered, c.searched + 1, c.solutionDepth, c.backtracks + 1),
                                          SearchFrom(g, V, i + 1))
  {
  }

  /** Two games that generate the same moves on `V`, lead to the same
      board by the `i`-th and search it the same way, and go on the same way
      after it, run the loop the same way from the `i`-th move. */
  lemma SameStep(g: Rules, h: Rules, V: Board, i: nat)
    requires i < |g.moves(V)| && g.moves(V) == h.moves(V)
    requires Child(g, V, i) == Child(h, V, i) && Search(g, Child(g, V, i)) == Search(h, Child(h, V, i))
    requires SearchFrom(g, V, i + 1) == SearchFrom(h, V, i + 1)
    ensures SearchFrom(g, V, i) == SearchFrom(h, V, i)
  {
  }

  /** `P` is a sequence of generated moves played from `V`, and `G` holds
      the board after each of them. */
  predicate Path(g: Game, V: Board, P: seq<Edge>, G: seq<Board>)
    decreases P
  {
    if P == [] then G == []
    else
      && G != []
      && P[0] in g.moves(V)
      && G[0] == g.play(P[0], V)
      && Path(g, G[0], P[1..], G[1..])
  }

  /** The board reached at the end of the trail. */
  function Final(V: Board, G: seq<Board>): Board
  {
    if G == [] then V else G[|G| - 1]
  }

  /** A solution: a line of play that leaves a single piece. */
  predicate Solution(g: Game, V: Board, P: seq<Edge>, G: seq<Board>)
  {
    Path(g, V, P, G) && |Final(V, G)| == 1
  }

  lemma FinalCons(V: Board, W: Board, G: seq<Board>)
    ensures Final(V, [W] + G) == Final(W, G)
  {
  }

  /** What is left of a solution after its first move is a solution of the
      board that move leads to. */
  lemma SolutionTail(g: Game, V: Board, P: seq<Edge>, G: seq<Board>)
    requires Solution(g, V, P, G) && P != []
    ensures Solution(g, G[0], P[1..], G[1..])
  {
    assert G == [G[0]] + G[1..];
    FinalCons(V, G[0], G[1..]);
  }

  /** A solution with a first move prepended. */
  lemma SolutionCons(g: Game, V: Board, e: Edge, W: Board, P: seq<Edge>, G: seq<Board>)
    requires e in g.moves(V) && W == g.play(e, V) && Solution(g, W, P, G)
    ensures Solution(g, V, [e] + P, [W] + G)
  {
    assert ([e] + P)[1..] == P;
    assert ([W] + G)[1..] == G;
    FinalCons(V, W, G);
  }

  /** Every answer the search returns is a solution: the trail it pushes is
      a line of play, with the board after each move, that ends with a
      single piece. */
  lemma {:induction false} SearchSound(g: Rules, V: Board)
    ensures Search(g, V).found ==> Solution(g, V, Search(g, V).moves, Search(g, V).boards)
    decreases |V|, 1, 0
  {
    if |V| != 1 {
      SearchFromSound(g, V, 0);
    }
  }

  lemma {:induction false} SearchFromSound(g: Rules, V: Board, i: nat)
    requires i <= |g.moves(V)|
    ensures SearchFrom(g, V, i).found ==> Solution(g, V, SearchFrom(g, V, i).moves, SearchFrom(g, V, i).boards)
    decreases |V|, 0, |g.moves(V)| - i
  {
    if i < |g.moves(V)| {
      var W := Child(g, V, i);
      if Search(g, W).found {
        SearchSound(g, W);
        FoundStep(g, V, i);
        SolutionCons(g, V, g.moves(V)[i], W, Search(g, W).moves, Search(g, W).boards);
      } else {
        SearchFromSound(g, V, i + 1);
        FailedStep(g, V, i);
      }
    }
  }

  /** The search misses no solution: when some line of play leaves a single
      piece, `solve` succeeds. */
  lemma {:induction false} SearchComplete(g: Rules, V: Board, P: seq<Edge>, G: seq<Board>)
    requires Solution(g, V, P, G)
    ensures Search(g, V).found
    decreases |V|, 1, 0
  {
    if |V| != 1 {
      assert P != [];
      var j :| 0 <= j < |g.moves(V)| && g.moves(V)[j] == P[0];
      SearchFromComplete(g, V, 0, j, P, G);
    }
  }

  lemma {:induction false} SearchFromComplete(g: Rules, V: Board, i: nat, j: nat, P: seq<Edge>, G: seq<Board>)
    requires Solution(g, V, P, G) && P != []
    requires i <= j < |g.moves(V)| && g.moves(V)[j] == P[0]
    ensures SearchFrom(g, V, i).found
    decreases |V|, 0, |g.moves(V)| - i
  {
    if Search(g, Child(g, V, i)).found {
      FoundStep(g, V, i);
    } else {
      if i == j {
        SolutionTail(g, V, P, G);
        SearchComplete(g, Child(g, V, i), P[1..], G[1..]);
      } else {
        SearchFromComplete(g, V, i + 1, j, P, G);
        FailedStep(g, V, i);
      }
    }
  }

  /** `solve` succeeds exactly when the board has a solution. */
  lemma SearchIff(g: Rules, V: Board)
    ensures Search(g, V).found <==> exists P, G :: Solution(g, V, P, G)
  {
    if Search(g, V).found {
      SearchSound(g, V);
    }
    if exists P, G :: Solution(g, V, P, G) {
      var P, G :| Solution(g, V, P, G);
      SearchComplete(g, V, P, G);
    }
  }

  /** The counters agree with the trail: every searched move is either a
      backtrack or a step of the solution, the solution depth is the length
      of the answer, and a failed search pushes nothing. */
  predicate Consistent(r: Outcome)
  {
    && |r.moves| == |r.boards|
    && r.counts.searched == r.counts.solutionDepth + r.counts.backtracks
    && r.counts.solutionDepth == (if r.found then |r.moves| else 0)
    && (!r.found ==> r.moves == [] && r.boards == [])
  }

  /** The counters of every search are consistent with its trail, and a
      board of more than one piece counts each of its moves as discovered. */
  lemma {:induction false} SearchCounts(g: Rules, V: Board)
    ensures Consistent(Search(g, V))
    ensures |V| != 1 ==> Search(g, V).counts.discovered >= |g.moves(V)|
    decreases |V|, 1, 0
  {
    if |V| != 1 {
      SearchFromCounts(g, V, 0);
    }
  }

  lemma {:induction false} SearchFromCounts(g: Rules, V: Board, i: nat)
    requires i <= |g.moves(V)|
    ensures Consistent(SearchFrom(g, V, i))
    decreases |V|, 0, |g.moves(V)| - i
  {
    if i < |g.moves(V)| {
      var r := Search(g, Child(g, V, i));
      SearchCounts(g, Child(g, V, i));
      if r.found {
        FoundStep(g, V, i);
      } else {
        SearchFromCounts(g, V, i + 1);
        FailedStep(g, V, i);
      }
    }
  }

  /** The counters added by the first `i` moves of the loop when every one
      of them failed: each is searched, backtracked, and adds what the search
      below it added. */
  ghost function Tried(g: Rules, V: Board, i: nat): Counts
    requires i <= |g.moves(V)|
  {
    if i == 0 then NoCounts
    else
      var t := Tried(g, V, i - 1);
      var c := Search(g, Child(g, V, i - 1)).counts;
      Counts(t.discovered + c.discovered, t.searched + c.searched + 1,
             t.solutionDepth + c.solutionDepth, t.backtracks + c.backtracks + 1)
  }

  /** The loop from the `i`-th move on, after `i` failed moves, finishes
      the loop from the start: it ends the same way and adds the rest of the
      counters. */
  ghost predicate Resumes(g: Rules, V: Board, i: nat)
    requires i <= |g.moves(V)|
  {
    var s, t, q := SearchFrom(g, V, 0), Tried(g, V, i), SearchFrom(g, V, i);
    && s.found == q.found && s.moves == q.moves && s.boards == q.boards
    && s.counts.discovered == t.discovered + q.counts.discovered
    && s.counts.searched == t.searched + q.counts.searched
    && s.counts.solutionDepth == t.solutionDepth + q.counts.solutionDepth
    && s.counts.backtracks == t.backtracks + q.counts.backtracks
  }

  lemma ResumesStart(g: Rules, V: Board)
    ensures Resumes(g, V, 0)
  {
  }

  /** A failed move hands the loop on to the next move. */
  lemma TriedStep(g: Rules, V: Board, i: nat)
    requires i < |g.moves(V)| && !Search(g, Child(g, V, i)).found
    requires Resumes(g, V, i)
    ensures Resumes(g, V, i + 1)
  {
    FailedStep(g, V, i);
  }

  /** The outcome of `solve` when the `i`-th move is the first to succeed,
      with the counters of the `i` failed moves before it. */
  lemma SearchEndsAt(g: Rules, V: Board, i: nat)
    requires |V| != 1 && i < |g.moves(V)| && Search(g, Child(g, V, i)).found
    requires Resumes(g, V, i)
    ensures var t, r := Tried(g, V, i), Search(g, Child(g, V, i));
            Search(g, V) == Outcome(true, [g.moves(V)[i]] + r.moves, [Child(g, V, i)] + r.boards,
                                    Counts(|g.moves(V)| + t.discovered + r.counts.discovered,
                                           t.searched + r.counts.searched + 1,
                                           t.solutionDepth + r.counts.solutionDepth + 1,
                                           t.backtracks + r.counts.backtracks))
  {
    FoundStep(g, V, i);
  }

  /** The outcome of `solve` when every move has failed. */
  lemma SearchExhausted(g: Rules, V: Board)
    requires |V| != 1
    requires Resumes(g, V, |g.moves(V)|)
    ensures var t := Tried(g, V, |g.moves(V)|);
            Search(g, V) == Outcome(false, [], [], Counts(|g.moves(V)| + t.discovered, t.searched,
                                                          t.solutionDepth, t.backtracks))
  {
  }

  /** The loop from the `i`-th move answers with the first later move
      whose board is solvable, followed by the answer for that board. */
  lemma {:induction false} SearchFromFirst(g: Rules, V: Board, i: nat, k: nat)
    requires i <= k < |g.moves(V)|
    requires forall l :: i <= l < k ==> !Search(g, Child(g, V, l)).found
    requires Search(g, Child(g, V, k)).found
    ensures SearchFrom(g, V, i).found
    ensures SearchFrom(g, V, i).moves == [g.moves(V)[k]] + Search(g, Child(g, V, k)).moves
    ensures SearchFrom(g, V, i).boards == [Child(g, V, k)] + Search(g, Child(g, V, k)).boards
    decreases k - i
  {
    if i < k {
      SearchFromFirst(g, V, i + 1, k);
      FailedStep(g, V, i);
    } else {
      FoundStep(g, V, k);
    }
  }

  /** The loop from the `i`-th move fails when no later move leads to a
      solvable board. */
  lemma {:induction false} SearchFromNone(g: Rules, V: Board, i: nat)
    requires i <= |g.moves(V)|
    requires forall l :: i <= l < |g.moves(V)| ==> !Search(g, Child(g, V, l)).found
    ensures !SearchFrom(g, V, i).found
    decreases |g.moves(V)| - i
  {
    if i < |g.moves(V)| {
      SearchFromNone(g, V, i + 1);
      FailedStep(g, V, i);
    }
  }

  /** `solve` answers with the first move, in generator order, whose board
      is solvable, followed by the answer for that board. */
  lemma SearchFirst(g: Rules, V: Board, k: nat)
    requires |V| != 1 && k < |g.moves(V)|
    requires forall l :: 0 <= l < k ==> !Search(g, Child(g, V, l)).found
    requires Search(g, Child(g, V, k)).found
    ensures Search(g, V).found
    ensures Search(g, V).moves == [g.moves(V)[k]] + Search(g, Child(g, V, k)).moves
    ensures Search(g, V).boards == [Child(g, V, k)] + Search(g, Child(g, V, k)).boards
  {
    SearchFromFirst(g, V, 0, k);
  }

  /** When no move leads to a solvable board, `solve` fails. */
  lemma SearchNone(g: Rules, V: Board)
    requires |V| != 1
    requires forall l :: 0 <= l < |g.moves(V)| ==> !Search(g, Child(g, V, l)).found
    ensures !Search(g, V).found
  {
    SearchFromNone(g, V, 0);
  }
}
