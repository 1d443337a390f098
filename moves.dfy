/** The move generator: the immediate neighbours of a piece
    (fling.py:210-223) and the legal moves of a board (fling.py:226-235). */
module Moves {
  import opened Vertex
  import opened Board
  import opened Fling

  /** The two lines through a piece, in the order they are scanned: its row
      first, then its column (fling.py:215). */
  const Axes: seq<Axis> := [Horizontal, Vertical]

  /** The result of a lookup that may find nothing, as a list of at most one piece. */
  function Present(o: Option<Pos>): (s: seq<Pos>)
    ensures |s| <= 1
    ensures forall x :: x in s <==> o == Some(x)
  {
    if o.Some? then [o.value] else []
  }

  /** The pieces nearest to `v` on its line along `ax`: first the nearest
      one toward smaller coordinates, then the nearest one toward larger. */
  function NearestAround(v: Pos, V: Board, ax: Axis): seq<Pos>
  {
    Present(Nearest(V, ax, Fixed(v, ax), Moving(v, ax), false))
    + Present(Nearest(V, ax, Fixed(v, ax), Moving(v, ax), true))
  }

  /** The nearest pieces around `v` on the first `r` lines of `Axes`. */
  function AxesNeighbours(v: Pos, V: Board, r: nat): seq<Pos>
    requires r <= |Axes|
  {
    if r == 0 then [] else AxesNeighbours(v, V, r - 1) + NearestAround(v, V, Axes[r - 1])
  }

  /** The immediate neighbours of `v`, defined without any sorting: the
      nearest piece to its left, to its right, above it and below it, in that
      order, leaving out the directions in which there is none. */
  function Neighbours(v: Pos, V: Board): seq<Pos>
  {
    AxesNeighbours(v, V, |Axes|)
  }

  /** What `adjacent_vertices` has collected after the first `n` pieces of
      the outer loop, when the neighbours of `v` are `N`: a copy of `N` for
      every entry equal to `v`. */
  function AdjacentUpTo(v: Pos, V: Board, n: nat, N: seq<Pos>): seq<Pos>
    requires n <= |V|
  {
    if n == 0 then []
    else AdjacentUpTo(v, V, n - 1, N) + (if Equal(V[n - 1], v) then N else [])
  }

  /** The result of `adjacent_vertices(v, V)`. */
  function Adjacent(v: Pos, V: Board): seq<Pos>
  {
    AdjacentUpTo(v, V, |V|, Neighbours(v, V))
  }

  /** `adjacent_vertices` (fling.py:210-223): scans the board for `v` and,
      for its row and then its column, appends the pieces just before and
      just after it on the sorted line. */
  method AdjacentVertices(v: Pos, V: Board) returns (A: seq<Pos>)
    requires Distinct(V)
    ensures A == Adjacent(v, V)
  {
    A := [];
    for t := 0 to |V|
      invariant A == AdjacentUpTo(v, V, t, Neighbours(v, V))
    {
      var u := V[t];
      if Equal(u, v) {
        A := AppendNeighbours(u, V, A);
      }
    }
  }

  /** The body of the outer loop of `adjacent_vertices` once `v` is found
      (fling.py:215-222): its row and then its column. */
  method AppendNeighbours(v: Pos, V: Board, A: seq<Pos>) returns (A': seq<Pos>)
    requires Distinct(V) && v in V
    ensures A' == A + Neighbours(v, V)
  {
    A' := A;
    for r := 0 to |Axes|
      invariant A' == A + AxesNeighbours(v, V, r)
    {
      A' := AppendBeside(v, V, Axes[r], A');
      AxesStep(A, v, V, r);
    }
  }

  lemma AxesStep(A: seq<Pos>, v: Pos, V: Board, r: nat)
    requires r < |Axes|
    ensures A + AxesNeighbours(v, V, r + 1) == (A + AxesNeighbours(v, V, r)) + NearestAround(v, V, Axes[r])
  {
  }

  /** One line of `adjacent_vertices` (fling.py:216-222): the line through
      `u` along `ax` is filtered from the board and sorted, and the pieces
      just before and just after `u` on it are appended to `A`. */
  method AppendBeside(u: Pos, V: Board, ax: Axis, A: seq<Pos>) returns (A': seq<Pos>)
    requires Distinct(V) && u in V
    ensures A' == A + NearestAround(u, V, ax)
  {
    var F := SortedLine(V, ax, Fixed(u, ax));
    assert u in F;
    var i := IndexOf(F, u);
    LineBefore(V, ax, u, F, i);
    LineAfter(V, ax, u, F, i);
    PresentAppend(A, F, i, Nearest(V, ax, Fixed(u, ax), Moving(u, ax), false),
                  Nearest(V, ax, Fixed(u, ax), Moving(u, ax), true));
    A' := A;
    if i >= 1 {
      A' := A' + [F[i - 1]];
    }
    if i + 1 < |F| {
      A' := A' + [F[i + 1]];
    }
  }

  /** On the sorted line through `u`, the entry just before `u` is the
      nearest piece toward smaller coordinates, and there is none exactly
      when `u` comes first. */
  lemma LineBefore(V: Board, ax: Axis, u: Pos, F: seq<Pos>, i: nat)
    requires Distinct(V) && u in V
    requires F == Line(V, ax, Fixed(u, ax)) && u in F && i == IndexOf(F, u)
    ensures var lo := Nearest(V, ax, Fixed(u, ax), Moving(u, ax), false);
            (i >= 1 <==> lo.Some?) && (i >= 1 ==> lo.value == F[i - 1])
  {
    LineIncreasing(V, ax, Fixed(u, ax));
    SortedNeighbour(V, ax, Fixed(u, ax), F, i, false);
  }

  /** On the sorted line through `u`, the entry just after `u` is the
      nearest piece toward larger coordinates, and there is none exactly
      when `u` comes last. */
  lemma LineAfter(V: Board, ax: Axis, u: Pos, F: seq<Pos>, i: nat)
    requires Distinct(V) && u in V
    requires F == Line(V, ax, Fixed(u, ax)) && u in F && i == IndexOf(F, u)
    ensures var hi := Nearest(V, ax, Fixed(u, ax), Moving(u, ax), true);
            (i + 1 < |F| <==> hi.Some?) && (i + 1 < |F| ==> hi.value == F[i + 1])
  {
    LineIncreasing(V, ax, Fixed(u, ax));
    SortedNeighbour(V, ax, Fixed(u, ax), F, i, true);
  }

  /** Appending the entries just before and just after index `i`, where
      they exist, appends the two lookups that find exactly those entries. */
  lemma PresentAppend(A: seq<Pos>, F: seq<Pos>, i: nat, lo: Option<Pos>, hi: Option<Pos>)
    requires i < |F|
    requires (i >= 1 <==> lo.Some?) && (i >= 1 ==> lo.value == F[i - 1])
    requires (i + 1 < |F| <==> hi.Some?) && (i + 1 < |F| ==> hi.value == F[i + 1])
    ensures var B := if i >= 1 then A + [F[i - 1]] else A;
            (if i + 1 < |F| then B + [F[i + 1]] else B) == A + (Present(lo) + Present(hi))
  {
  }

  /** The collision line as the source builds it (fling.py:216-217): the
      board filtered to the pieces whose fixed coordinate is `k`, then sorted
      by the moving coordinate. */
  method SortedLine(V: Board, ax: Axis, k: nat) returns (F: seq<Pos>)
    requires Distinct(V)
    ensures F == Line(V, ax, k)
  {
    LineIsSortedFilter(V, ax, k);
    F := OnLine(V, ax, k);
    F := Sort(F, ax);
  }

  /** The neighbours are the two nearest pieces on the row, then the two
      nearest pieces on the column. */
  lemma NeighboursSplit(v: Pos, V: Board)
    ensures Neighbours(v, V) == NearestAround(v, V, Horizontal) + NearestAround(v, V, Vertical)
  {
    assert AxesNeighbours(v, V, 1) == NearestAround(v, V, Horizontal);
  }

  /** A piece has at most four neighbours, each a different piece of the
      board on its row or its column. */
  lemma NeighboursBound(v: Pos, V: Board)
    ensures |Neighbours(v, V)| <= 4
    ensures forall w :: w in Neighbours(v, V) ==>
              w in V && w != v && (w.row == v.row || w.col == v.col)
  {
    NeighboursSplit(v, V);
    NearestAroundOnLine(v, V, Horizontal);
    NearestAroundOnLine(v, V, Vertical);
  }

  lemma NearestAroundOnLine(v: Pos, V: Board, ax: Axis)
    ensures |NearestAround(v, V, ax)| <= 2
    ensures forall w :: w in NearestAround(v, V, ax) ==>
              w in V && w != v && (w.row == v.row || w.col == v.col)
  {
    var k := Fixed(v, ax);
    var lo := Nearest(V, ax, k, Moving(v, ax), false);
    var hi := Nearest(V, ax, k, Moving(v, ax), true);
    assert lo.Some? ==> lo.value in V && Fixed(lo.value, ax) == k && Moving(lo.value, ax) < Moving(v, ax);
    assert hi.Some? ==> hi.value in V && Fixed(hi.value, ax) == k && Moving(hi.value, ax) > Moving(v, ax);
  }

  /** `w` is a neighbour of `v` exactly when it is the nearest piece to `v`
      along one of the two lines through `v`, in one of the two directions. */
  lemma NeighboursIff(v: Pos, V: Board, w: Pos)
    ensures w in Neighbours(v, V) <==>
              || Nearest(V, Horizontal, Fixed(v, Horizontal), Moving(v, Horizontal), false) == Some(w)
              || Nearest(V, Horizontal, Fixed(v, Horizontal), Moving(v, Horizontal), true) == Some(w)
              || Nearest(V, Vertical, Fixed(v, Vertical), Moving(v, Vertical), false) == Some(w)
              || Nearest(V, Vertical, Fixed(v, Vertical), Moving(v, Vertical), true) == Some(w)
  {
    NeighboursSplit(v, V);
  }

  /** The outer loop of `adjacent_vertices` contributes exactly once, at the
      one entry equal to `v`: the function returns the neighbours of `v`
      when it is on the board and nothing otherwise. */
  lemma {:induction false} AdjacentIsNeighbours(v: Pos, V: Board, n: nat, N: seq<Pos>)
    requires Distinct(V) && n <= |V|
    ensures AdjacentUpTo(v, V, n, N) == if v in V[..n] then N else []
  {
    if n > 0 {
      AdjacentIsNeighbours(v, V, n - 1, N);
      PrefixMember(V, n, v);
      if V[n - 1] == v {
        DistinctLast(V, n);
        assert AdjacentUpTo(v, V, n, N) == [] + N;
      } else {
        assert AdjacentUpTo(v, V, n, N) == AdjacentUpTo(v, V, n - 1, N) + [];
      }
    }
  }

  lemma AdjacentOf(v: Pos, V: Board)
    requires Distinct(V)
    ensures Adjacent(v, V) == if v in V then Neighbours(v, V) else []
  {
    AdjacentIsNeighbours(v, V, |V|, Neighbours(v, V));
    assert V[..|V|] == V;
  }

  /** `(u, v)` is emitted: they share a row more than one column apart, or a
      column more than one row apart (fling.py:231-234). */
  predicate IsMove(u: Pos, v: Pos)
  {
    (u.row == v.row && Dist(u.col, v.col) > 1) || (u.col == v.col && Dist(u.row, v.row) > 1)
  }

  /** The moves from `u` toward the first `m` of its neighbours `A`. */
  function EdgesFrom(u: Pos, A: seq<Pos>, m: nat): seq<Edge>
    requires m <= |A|
  {
    if m == 0 then []
    else EdgesFrom(u, A, m - 1) + (if IsMove(u, A[m - 1]) then [Edge(u, A[m - 1])] else [])
  }

  /** Each neighbour yields at most one move. */
  lemma {:induction false} EdgesFromBound(u: Pos, A: seq<Pos>, m: nat)
    requires m <= |A|
    ensures |EdgesFrom(u, A, m)| <= m
  {
    if m > 0 {
      EdgesFromBound(u, A, m - 1);
    }
  }

  /** The moves from `u` are exactly the pairs with one of its first `m`
      neighbours that pass the distance test. */
  lemma {:induction false} EdgesFromIff(u: Pos, A: seq<Pos>, m: nat, e: Edge)
    requires m <= |A|
    ensures e in EdgesFrom(u, A, m) <==> e.src == u && e.dest in A[..m] && IsMove(u, e.dest)
  {
    if m > 0 {
      var v := A[m - 1];
      EdgesFromIff(u, A, m - 1, e);
      assert e in EdgesFrom(u, A, m) <==> e in EdgesFrom(u, A, m - 1) || (e == Edge(u, v) && IsMove(u, v));
      assert A[..m] == A[..m - 1] + [v];
      assert e.dest in A[..m] <==> e.dest in A[..m - 1] || e.dest == v;
    }
  }

  /** The moves from the first `n` pieces of the board, each piece's moves
      in the order of its neighbours, where `adj(u)` lists the neighbours of
      `u` in the order they are tried. */
  function MovesUpTo(V: Board, n: nat, adj: Pos -> seq<Pos>): seq<Edge>
    requires n <= |V|
  {
    if n == 0 then []
    else
      var A := adj(V[n - 1]);
      MovesUpTo(V, n - 1, adj) + EdgesFrom(V[n - 1], A, |A|)
  }

  /** The neighbour lists `find_edges` works with: `adjacent_vertices` on the board `V`. */
  function AdjacentOn(V: Board): Pos -> seq<Pos>
  {
    u => Adjacent(u, V)
  }

  /** The result of `find_edges(V)`. */
  function Edges(V: Board): seq<Edge>
  {
    MovesUpTo(V, |V|, AdjacentOn(V))
  }

  /** `find_edges` (fling.py:226-235): for every piece in board order and
      every neighbour in neighbour order, appends a move when the two are
      more than one cell apart along their shared row or column. */
  method FindEdges(V: Board) returns (E: seq<Edge>)
    requires Distinct(V)
    ensures E == Edges(V)
  {
    E := [];
    for t := 0 to |V|
      invariant E == MovesUpTo(V, t, AdjacentOn(V))
    {
      var u := V[t];
      var A := AdjacentVertices(u, V);
      assert A == AdjacentOn(V)(u);
      E := AppendMoves(u, A, E);
    }
  }

  /** The inner loop of `find_edges` (fling.py:230-234): for each neighbour
      in order, the move toward it is appended when the two pieces are more
      than one cell apart along their shared row or column. */
  method AppendMoves(u: Pos, A: seq<Pos>, E: seq<Edge>) returns (E': seq<Edge>)
    ensures E' == E + EdgesFrom(u, A, |A|)
  {
    E' := E;
    for m := 0 to |A|
      invariant E' == E + EdgesFrom(u, A, m)
    {
      var v := A[m];
      MovesAppend(E, u, A, m);
      if u.row == v.row && Dist(u.col, v.col) > 1 {
        E' := E' + [Edge(u, v)];
      }
      if u.col == v.col && Dist(u.row, v.row) > 1 {
        E' := E' + [Edge(u, v)];
      }
    }
  }

  /** One step of the inner loop of `find_edges` (fling.py:231-234): of the
      two tests at most one passes, since two different pieces cannot share
      both their row and their column, so the two appends together add the
      move exactly when it passes the distance test. */
  lemma MovesAppend(E0: seq<Edge>, u: Pos, A: seq<Pos>, m: nat)
    requires m < |A|
    ensures var v, E := A[m], E0 + EdgesFrom(u, A, m);
            var B := if u.row == v.row && Dist(u.col, v.col) > 1 then E + [Edge(u, v)] else E;
            E0 + EdgesFrom(u, A, m + 1) == if u.col == v.col && Dist(u.row, v.row) > 1 then B + [Edge(u, v)] else B
  {
    var v := A[m];
    if u.row == v.row && Dist(u.col, v.col) > 1 {
      assert u.col != v.col;
    }
  }

  /** A legal move: two pieces facing each other along a row or column with
      nothing between them and at least one empty cell between them. */
  predicate LegalMove(V: Board, e: Edge)
  {
    Contact(V, e) && Gap(e) > 1
  }

  /** Membership in the moves of the first `n` pieces: a move from one of
      them toward one of its neighbours that passes the distance test. */
  lemma {:induction false} MovesUpToIff(V: Board, n: nat, adj: Pos -> seq<Pos>, e: Edge)
    requires n <= |V|
    ensures e in MovesUpTo(V, n, adj) <==>
              e.src in V[..n] && e.dest in adj(e.src) && IsMove(e.src, e.dest)
  {
    if n > 0 {
      var u := V[n - 1];
      var A := adj(u);
      MovesUpToIff(V, n - 1, adj, e);
      EdgesFromIff(u, A, |A|, e);
      assert A[..|A|] == A;
      assert V[..n] == V[..n - 1] + [u];
    }
  }

  /** A nearest piece that passes the gap test is a legal move. */
  lemma NearestLegal(V: Board, u: Pos, ax: Axis, inc: bool)
    requires Distinct(V) && u in V
    requires Nearest(V, ax, Fixed(u, ax), Moving(u, ax), inc).Some?
    requires IsMove(u, Nearest(V, ax, Fixed(u, ax), Moving(u, ax), inc).value)
    ensures LegalMove(V, Edge(u, Nearest(V, ax, Fixed(u, ax), Moving(u, ax), inc).value))
  {
    NearestContact(V, u, ax, inc);
  }

  /** `find_edges` emits exactly the legal moves: every move it returns
      joins two facing pieces with no piece between them and a gap of more
      than one cell, and every such move is returned. In particular two
      pieces already side by side never yield a move. */
  lemma EdgesIff(V: Board, e: Edge)
    requires Distinct(V)
    ensures e in Edges(V) <==> LegalMove(V, e)
  {
    MovesUpToIff(V, |V|, AdjacentOn(V), e);
    assert V[..|V|] == V;
    if e.src in V {
      var u := e.src;
      AdjacentOf(u, V);
      NeighboursIff(u, V, e.dest);
      if e in Edges(V) {
        if Nearest(V, Horizontal, Fixed(u, Horizontal), Moving(u, Horizontal), false) == Some(e.dest) {
          NearestLegal(V, u, Horizontal, false);
        } else if Nearest(V, Horizontal, Fixed(u, Horizontal), Moving(u, Horizontal), true) == Some(e.dest) {
          NearestLegal(V, u, Horizontal, true);
        } else if Nearest(V, Vertical, Fixed(u, Vertical), Moving(u, Vertical), false) == Some(e.dest) {
          NearestLegal(V, u, Vertical, false);
        } else {
          NearestLegal(V, u, Vertical, true);
        }
      }
      if LegalMove(V, e) {
        ContactNearest(V, e);
      }
    }
  }

  /** The moves of earlier pieces come first: the moves of the first `n`
      pieces are a prefix of the moves of all of them. */
  lemma {:induction false} MovesPrefix(V: Board, n: nat, adj: Pos -> seq<Pos>)
    requires n <= |V|
    ensures MovesUpTo(V, n, adj) <= MovesUpTo(V, |V|, adj)
    decreases |V| - n
  {
    if n < |V| {
      MovesPrefix(V, n + 1, adj);
      var A := adj(V[n]);
      PrefixOfAppend(MovesUpTo(V, n, adj), EdgesFrom(V[n], A, |A|), MovesUpTo(V, |V|, adj));
    }
  }

  lemma PrefixOfAppend(a: seq<Edge>, b: seq<Edge>, c: seq<Edge>)
    requires a + b <= c
    ensures a <= c
  {
    assert c[..|a|] == (a + b)[..|a|];
  }

  /** When no piece has more than four neighbours, each piece adds at most
      four moves. */
  lemma {:induction false} MovesBound(V: Board, n: nat, adj: Pos -> seq<Pos>)
    requires n <= |V|
    requires forall u :: u in V ==> |adj(u)| <= 4
    ensures |MovesUpTo(V, n, adj)| <= 4 * n
  {
    if n > 0 {
      MovesBound(V, n - 1, adj);
      var A := adj(V[n - 1]);
      EdgesFromBound(V[n - 1], A, |A|);
    }
  }

  /** A board has at most four moves per piece. */
  lemma EdgesBound(V: Board)
    requires Distinct(V)
    ensures |Edges(V)| <= 4 * |V|
  {
    forall u | u in V
      ensures |AdjacentOn(V)(u)| <= 4
    {
      AdjacentBound(u, V);
    }
    MovesBound(V, |V|, AdjacentOn(V));
  }

  /** On a board without repeats `adjacent_vertices` returns at most four pieces. */
  lemma AdjacentBound(v: Pos, V: Board)
    requires Distinct(V)
    ensures |Adjacent(v, V)| <= 4
  {
    AdjacentOf(v, V);
    NeighboursBound(v, V);
  }

  /** Two pieces on row 0, at columns 0 and 5: each is the other's only
      neighbour. */
  lemma ExampleNeighbours()
    ensures Adjacent(Pos(0, 0), [Pos(0, 0), Pos(0, 5)]) == [Pos(0, 5)]
    ensures Adjacent(Pos(0, 5), [Pos(0, 0), Pos(0, 5)]) == [Pos(0, 0)]
  {
    var a, b := Pos(0, 0), Pos(0, 5);
    var V := [a, b];
    NeighboursSplit(a, V);
    NeighboursSplit(b, V);
    assert Nearest(V, Horizontal, 0, 0, false) == None;
    assert Nearest(V, Horizontal, 0, 0, true) == Some(b);
    assert Nearest(V, Vertical, 0, 0, false) == None;
    assert Nearest(V, Vertical, 0, 0, true) == None;
    assert Nearest(V, Horizontal, 0, 5, false) == Some(a);
    assert Nearest(V, Horizontal, 0, 5, true) == None;
    assert Nearest(V, Vertical, 5, 0, false) == None;
    assert Nearest(V, Vertical, 5, 0, true) == None;
    AdjacentOf(a, V);
    AdjacentOf(b, V);
  }

  /** On the same board each piece may be flung at the other, the first
      piece's move coming first. */
  lemma ExampleEdges()
    ensures Edges([Pos(0, 0), Pos(0, 5)]) == [Edge(Pos(0, 0), Pos(0, 5)), Edge(Pos(0, 5), Pos(0, 0))]
  {
    var a, b := Pos(0, 0), Pos(0, 5);
    var V := [a, b];
    ExampleNeighbours();
    assert AdjacentOn(V)(a) == [b];
    assert AdjacentOn(V)(b) == [a];
    assert EdgesFrom(a, [b], 1) == [Edge(a, b)];
    assert EdgesFrom(b, [a], 1) == [Edge(b, a)];
    assert MovesUpTo(V, 1, AdjacentOn(V)) == [Edge(a, b)];
    assert MovesUpTo(V, 2, AdjacentOn(V)) == [Edge(a, b), Edge(b, a)];
  }
}
