/** The search of module Backtrack played with the rules of Fling: the moves
    generated by `find_edges` (fling.py:226-235), each played by
    `apply_edge` (fling.py:172-207). */
module FlingSearch {
  import opened Vertex
  import opened Board
  import opened Fling
  import opened Moves
  import opened Backtrack

  /** The moves `solve` tries on a board (fling.py:242-245). Boards with a
      repeated position are never reached from a board without one, and have
      no moves here. */
  function Generated(V: Board): seq<Edge>
  {
    if Distinct(V) then Edges(V) else []
  }

  /** `apply_edge`, on the moves it is applied to (a generated move always
      is one: `EdgesIff`); any other move leaves the board as it is. */
  function Play(e: Edge, V: Board): Board
  {
    if Contact(V, e) then ApplyEdge(e, V) else V
  }

  /** Every generated move removes a piece. */
  lemma FlingShrinks()
    ensures Shrinks(Game(Generated, Play))
  {
    forall V: Board, i | 0 <= i < |Generated(V)|
      ensures |Play(Generated(V)[i], V)| < |V|
    {
      EdgesIff(V, Edges(V)[i]);
    }
  }

  /** The rules of Fling as a game for the search. */
  function FlingRules(): Rules
  {
    FlingShrinks();
    Game(Generated, Play)
  }

  /** Rules that generate the moves of `find_edges` on every board without
      repeated positions and play each legal move as `apply_edge` does. */
  ghost predicate PlaysFling(g: Game)
  {
    && (forall V: Board {:trigger Edges(V)} :: Distinct(V) ==> g.moves(V) == Edges(V))
    && (forall V: Board, e: Edge {:trigger ApplyEdge(e, V)} :: Contact(V, e) ==> g.play(e, V) == ApplyEdge(e, V))
  }

  lemma FlingRulesPlayFling()
    ensures PlaysFling(FlingRules())
  {
  }

  /** The `i`-th move on a board without repeated positions, under rules
      that play Fling, is the `i`-th move of `find_edges`, and leads to the
      board `apply_edge` computes. */
  lemma PlaysFlingChild(g: Rules, V: Board, i: nat)
    requires PlaysFling(g) && Distinct(V) && i < |Edges(V)|
    ensures g.moves(V) == Edges(V)
    ensures Contact(V, Edges(V)[i])
    ensures Child(g, V, i) == ApplyEdge(Edges(V)[i], V)
  {
    EdgesIff(V, Edges(V)[i]);
  }

  lemma SameChild(g: Rules, h: Rules, V: Board, i: nat)
    requires PlaysFling(g) && PlaysFling(h) && Distinct(V) && i < |Edges(V)|
    ensures Child(g, V, i) == Child(h, V, i) && Distinct(Child(g, V, i))
  {
    PlaysFlingChild(g, V, i);
    PlaysFlingChild(h, V, i);
  }

  /** All rules that play Fling search a board the same way. */
  lemma {:induction false} SameSearch(g: Rules, h: Rules, V: Board)
    requires PlaysFling(g) && PlaysFling(h) && Distinct(V)
    ensures Search(g, V) == Search(h, V)
    decreases |V|, 1, 0
  {
    if |V| != 1 {
      assert g.moves(V) == Edges(V) == h.moves(V);
      SameSearchFrom(g, h, V, 0);
    }
  }

  lemma {:induction false} SameSearchFrom(g: Rules, h: Rules, V: Board, i: nat)
    requires PlaysFling(g) && PlaysFling(h) && Distinct(V) && i <= |Edges(V)|
    requires g.moves(V) == Edges(V) == h.moves(V)
    ensures SearchFrom(g, V, i) == SearchFrom(h, V, i)
    decreases |V|, 0, |Edges(V)| - i
  {
    if i < |Edges(V)| {
      SameChild(g, h, V, i);
      SameSearch(g, h, Child(g, V, i));
      SameSearchFrom(g, h, V, i + 1);
      SameStep(g, h, V, i);
    }
  }

  /** `P` is a sequence of legal moves played from `V`, and `G` holds the
      board after each of them: what `solve` appends to its two lists
      (fling.py:248-249). */
  predicate ValidPath(V: Board, P: seq<Edge>, G: seq<Board>)
    decreases P
  {
    if P == [] then G == []
    else
      && G != []
      && LegalMove(V, P[0])
      && G[0] == ApplyEdge(P[0], V)
      && ValidPath(G[0], P[1..], G[1..])
  }

  /** A solution: legal moves that leave a single piece. */
  predicate Solved(V: Board, P: seq<Edge>, G: seq<Board>)
  {
    ValidPath(V, P, G) && |Final(V, G)| == 1
  }

  /** The lines of play of the search game are the lines of legal moves. */
  lemma {:induction false} PathIff(V: Board, P: seq<Edge>, G: seq<Board>)
    requires Distinct(V)
    ensures Path(FlingRules(), V, P, G) <==> ValidPath(V, P, G)
    decreases P
  {
    if P != [] && G != [] {
      EdgesIff(V, P[0]);
      if LegalMove(V, P[0]) {
        PathIff(ApplyEdge(P[0], V), P[1..], G[1..]);
      }
    }
  }

  lemma SolvedIff(V: Board, P: seq<Edge>, G: seq<Board>)
    requires Distinct(V)
    ensures Solution(FlingRules(), V, P, G) <==> Solved(V, P, G)
  {
    PathIff(V, P, G);
  }

  /** Along a line of play every move removes exactly one piece: there is a
      board per move, and the board after the `j`-th move has `j + 1` pieces
      fewer than the start. */
  lemma {:induction false} PathSizes(V: Board, P: seq<Edge>, G: seq<Board>)
    requires ValidPath(V, P, G)
    ensures |G| == |P|
    ensures forall j :: 0 <= j < |G| ==> |G[j]| + j + 1 == |V|
    decreases P
  {
    if P != [] {
      PathSizes(G[0], P[1..], G[1..]);
      forall j | 0 < j < |G|
        ensures |G[j]| + j + 1 == |V|
      {
        assert G[j] == G[1..][j - 1];
      }
    }
  }

  /** A solution of a board of `n` pieces has exactly `n - 1` moves. */
  lemma SolutionLength(V: Board, P: seq<Edge>, G: seq<Board>)
    requires Solved(V, P, G)
    ensures |G| == |P| && |P| + 1 == |V|
  {
    PathSizes(V, P, G);
  }

  /** Every answer of `solve` is a solution: the lists it fills hold legal
      moves and the board after each, ending with a single piece. */
  lemma FlingSound(V: Board)
    requires Distinct(V)
    ensures var r := Search(FlingRules(), V);
            r.found ==> Solved(V, r.moves, r.boards)
  {
    SearchSound(FlingRules(), V);
    SolvedIff(V, Search(FlingRules(), V).moves, Search(FlingRules(), V).boards);
  }

  /** `solve` succeeds exactly when the board has a solution. */
  lemma FlingIff(V: Board)
    requires Distinct(V)
    ensures Search(FlingRules(), V).found <==> exists P, G :: Solved(V, P, G)
  {
    SearchIff(FlingRules(), V);
    if exists P, G :: Solved(V, P, G) {
      var P, G :| Solved(V, P, G);
      SolvedIff(V, P, G);
    }
    if exists P, G :: Solution(FlingRules(), V, P, G) {
      var P, G :| Solution(FlingRules(), V, P, G);
      SolvedIff(V, P, G);
    }
  }

  /** What `solve` leaves behind under any rules that play Fling: on
      success a solution of the board, on failure nothing; and it succeeds
      exactly when the board has a solution. */
  lemma PlaysFlingAnswer(g: Rules, V: Board)
    requires PlaysFling(g) && Distinct(V)
    ensures var r := Search(g, V);
            && (r.found <==> exists P, G :: Solved(V, P, G))
            && (r.found ==> Solved(V, r.moves, r.boards))
            && (!r.found ==> r.moves == [] && r.boards == [])
  {
    FlingRulesPlayFling();
    SameSearch(g, FlingRules(), V);
    FlingSound(V);
    FlingIff(V);
    SearchCounts(g, V);
  }

  /** Two pieces on row 0, at columns 0 and 5: both moves are generated,
      the first one tried knocks the second piece off and solves the board,
      and the counters record two moves discovered, one searched and a
      solution one move deep. */
  lemma ExampleSolved()
    ensures var r := Search(FlingRules(), [Pos(0, 0), Pos(0, 5)]);
            && r.found
            && r.moves == [Edge(Pos(0, 0), Pos(0, 5))]
            && r.boards == [[Pos(0, 4)]]
            && r.counts == Counts(2, 1, 1, 0)
  {
    var g := FlingRules();
    var V := [Pos(0, 0), Pos(0, 5)];
    var e := Edge(Pos(0, 0), Pos(0, 5));
    ExampleEdges();
    ExampleLastPiece();
    assert g.moves(V) == [e, Edge(Pos(0, 5), Pos(0, 0))];
    assert Child(g, V, 0) == [Pos(0, 4)];
    SolvedByFirst(g, V);
  }

  /** Two pieces on no common row or column: there is no move, and `solve`
      fails at once. */
  lemma ExampleStuck()
    ensures !Search(FlingRules(), [Pos(0, 0), Pos(3, 4)]).found
    ensures Search(FlingRules(), [Pos(0, 0), Pos(3, 4)]).counts == NoCounts
  {
    var V := [Pos(0, 0), Pos(3, 4)];
    if Edges(V) != [] {
      EdgesIff(V, Edges(V)[0]);
      assert false;
    }
    assert FlingRules().moves(V) == [];
  }
}
