/** The move applier: what one fling does to a board, collisions included
    (fling.py:172-207). */
module Fling {
  import opened Vertex
  import opened Board

  /** Distance between two coordinates. */
  function Dist(a: nat, b: nat): nat
  {
    if a <= b then b - a else a - b
  }

  /** The two pieces of the move share a row or a column. */
  predicate Aligned(e: Edge)
  {
    e.src.row == e.dest.row || e.src.col == e.dest.col
  }

  /** The line the move travels on: the shared row when the pieces share
      one, the column otherwise. */
  function AxisOf(e: Edge): Axis
  {
    if e.src.row == e.dest.row then Horizontal else Vertical
  }

  /** The move travels toward larger coordinates (right or down). */
  predicate Forward(e: Edge)
  {
    Moving(e.src, AxisOf(e)) < Moving(e.dest, AxisOf(e))
  }

  /** Distance between the two pieces along the move's line. */
  function Gap(e: Edge): nat
  {
    Dist(Moving(e.src, AxisOf(e)), Moving(e.dest, AxisOf(e)))
  }

  /** `w` stands on the move's line strictly between its two pieces. */
  predicate Between(e: Edge, w: Pos)
  {
    var ax := AxisOf(e);
    Fixed(w, ax) == Fixed(e.src, ax)
    && Ahead(Moving(w, ax), Moving(e.src, ax), Forward(e))
    && Ahead(Moving(e.dest, ax), Moving(w, ax), Forward(e))
  }

  /** `e` joins two different pieces of a board without repeats that face
      each other along a row or column with no piece between them. Every move
      the generator emits, and every link of a collision chain, is one. */
  predicate Contact(V: Board, e: Edge)
  {
    && Distinct(V)
    && e.src in V && e.dest in V && e.src != e.dest
    && Aligned(e)
    && forall w :: w in V ==> !Between(e, w)
  }

  /** The cell just before coordinate `m` for a piece travelling in direction `inc`. */
  function Behind(m: nat, inc: bool): nat
    requires inc ==> m > 0
  {
    if inc then m - 1 else m + 1
  }

  /** Where the flung piece comes to rest: right before the piece it strikes. */
  function Stop(e: Edge): nat
  {
    Behind(Moving(e.dest, AxisOf(e)), Forward(e))
  }

  /** Pieces ahead of `dest` on the move's line: a chain of collisions can
      only run that many links further. */
  function Remaining(V: Board, e: Edge): nat
  {
    var ax := AxisOf(e);
    CountAhead(V, ax, Fixed(e.src, ax), Moving(e.dest, ax), Forward(e))
  }

  lemma DistinctUpdate(V: Board, i: nat, q: Pos)
    requires Distinct(V) && i < |V| && q !in V
    ensures Distinct(V[i := q])
  {
    var W := V[i := q];
    forall s, t | 0 <= s < t < |W| ensures W[s] != W[t] {
      if s != i && t != i {
        assert W[s] == V[s] && W[t] == V[t];
      } else if s == i {
        assert W[t] == V[t];
      } else {
        assert W[s] == V[s];
      }
    }
  }

  lemma UpdateMembers(V: Board, i: nat, q: Pos, w: Pos)
    requires i < |V| && w in V[i := q]
    ensures w == q || w in V
  {
    var t :| 0 <= t < |V| && V[i := q][t] == w;
    if t != i {
      assert V[t] == w;
    }
  }

  /** The board with the flung piece slid up against the piece it strikes
      (fling.py:188-189, 199-200). Already adjacent pieces stay put, which is
      the same as moving to the cell the piece already occupies, so in every
      case the flung piece keeps its place in the list and moves to `Stop(e)`. */
  function Launch(V: Board, e: Edge): (W: Board)
    requires Contact(V, e)
    ensures W == V[IndexOf(V, e.src) := MoveTo(e.src, AxisOf(e), Stop(e))]
    ensures Distinct(W) && e.dest in W
  {
    var ax := AxisOf(e);
    var i := IndexOf(V, e.src);
    var q := MoveTo(e.src, ax, Stop(e));
    var j := IndexOf(V, e.dest);
    assert j != i;
    if Gap(e) != 1 then
      assert Between(e, q);
      DistinctUpdate(V, i, q);
      assert V[i := q][j] == e.dest;
      V[i := q]
    else
      assert V[i := q] == V;
      V
  }

  /** The collision line of the move, computed from the board the move is applied to. */
  function LineOf(V: Board, e: Edge): (F: seq<Pos>)
  {
    Line(V, AxisOf(e), Fixed(e.src, AxisOf(e)))
  }

  /** `dest` is the last piece of the line in the direction of travel
      (fling.py:191, 202). */
  predicate Terminal(V: Board, e: Edge)
    requires Contact(V, e)
  {
    var F := LineOf(V, e);
    assert e.dest in F;
    if Forward(e) then e.dest == F[|F| - 1] else e.dest == F[0]
  }

  /** The next link of the chain: `dest` struck toward the piece after it on
      the sorted line (fling.py:194, 205). That piece is the nearest one
      ahead of `dest` in the direction of travel. */
  function Successor(V: Board, e: Edge): (e': Edge)
    requires Contact(V, e) && !Terminal(V, e)
    ensures e'.src == e.dest
    ensures var ax := AxisOf(e);
            Nearest(V, ax, Fixed(e.src, ax), Moving(e.dest, ax), Forward(e)) == Some(e'.dest)
  {
    var ax := AxisOf(e);
    var F := LineOf(V, e);
    var i := IndexOf(F, e.dest);
    LineIncreasing(V, ax, Fixed(e.src, ax));
    SortedNeighbour(V, ax, Fixed(e.src, ax), F, i, Forward(e));
    Edge(e.dest, if Forward(e) then F[i + 1] else F[i - 1])
  }

  /** For a move in contact, the piece struck is the nearest piece ahead of
      the flung one. */
  lemma ContactNearest(V: Board, e: Edge)
    requires Contact(V, e)
    ensures var ax := AxisOf(e);
            Nearest(V, ax, Fixed(e.src, ax), Moving(e.src, ax), Forward(e)) == Some(e.dest)
  {
    var ax, inc := AxisOf(e), Forward(e);
    var n := Nearest(V, ax, Fixed(e.src, ax), Moving(e.src, ax), inc);
    assert Fixed(e.dest, ax) == Fixed(e.src, ax);
    assert n.Some?;
    assert !Between(e, n.value);
  }

  /** Conversely, the nearest piece ahead of a piece on any line and in any
      direction is a move in contact along that line and direction. */
  lemma NearestContact(V: Board, u: Pos, ax: Axis, inc: bool)
    requires Distinct(V) && u in V
    requires Nearest(V, ax, Fixed(u, ax), Moving(u, ax), inc).Some?
    ensures var v := Nearest(V, ax, Fixed(u, ax), Moving(u, ax), inc).value;
            Contact(V, Edge(u, v)) && AxisOf(Edge(u, v)) == ax && Forward(Edge(u, v)) == inc
  {
    var v := Nearest(V, ax, Fixed(u, ax), Moving(u, ax), inc).value;
    var e := Edge(u, v);
    assert AxisOf(e) == ax;
    forall w | w in V ensures !Between(e, w) {
    }
  }

  /** `Terminal` and `Successor`, read off the sorted line, agree with the
      nearest piece ahead of `dest`: there is none exactly when `dest` is
      terminal, and otherwise it is the successor's target. */
  lemma TerminalIsLast(V: Board, e: Edge)
    requires Contact(V, e)
    ensures var ax := AxisOf(e);
            var n := Nearest(V, ax, Fixed(e.src, ax), Moving(e.dest, ax), Forward(e));
            (Terminal(V, e) <==> n.None?) && (!Terminal(V, e) ==> Successor(V, e).dest == n.value)
  {
    var ax, inc := AxisOf(e), Forward(e);
    var k := Fixed(e.src, ax);
    assert Fixed(e.dest, ax) == k;
    var F := LineOf(V, e);
    assert e.dest in F;
    var i := IndexOf(F, e.dest);
    LinePlace(V, e);
    LineIncreasing(V, ax, k);
    SortedNeighbour(V, ax, k, F, i, inc);
  }

  /** Where `dest` sits on the sorted line decides `Terminal` and `Successor`. */
  lemma LinePlace(V: Board, e: Edge)
    requires Contact(V, e)
    ensures var F := LineOf(V, e);
            e.dest in F &&
            var i := IndexOf(F, e.dest);
            var j: int := if Forward(e) then i + 1 else i - 1;
            (Terminal(V, e) <==> !(0 <= j < |F|)) && (!Terminal(V, e) ==> Successor(V, e).dest == F[j])
  {
    var F := LineOf(V, e);
    assert e.dest in F;
    var i := IndexOf(F, e.dest);
    LineIncreasing(V, AxisOf(e), Fixed(e.src, AxisOf(e)));
    LastIndex(F, AxisOf(e), i);
  }

  lemma LastIndex(F: seq<Pos>, ax: Axis, i: nat)
    requires Increasing(F, ax) && i < |F|
    ensures F[i] == F[|F| - 1] <==> i == |F| - 1
    ensures F[i] == F[0] <==> i == 0
  {
    if i < |F| - 1 {
      assert Moving(F[i], ax) < Moving(F[|F| - 1], ax);
    }
    if i > 0 {
      assert Moving(F[0], ax) < Moving(F[i], ax);
    }
  }

  /** One link of a collision chain leads to another: after the flung piece
      comes to rest, `dest` and the next piece on the line are again in
      contact on the same line and in the same direction, and fewer pieces
      lie ahead. */
  lemma ChainStep(V: Board, e: Edge)
    requires Contact(V, e) && !Terminal(V, e)
    ensures var e', W := Successor(V, e), Launch(V, e);
            && Contact(W, e')
            && AxisOf(e') == AxisOf(e) && Forward(e') == Forward(e)
            && Fixed(e'.src, AxisOf(e)) == Fixed(e.src, AxisOf(e))
            && Remaining(W, e') < Remaining(V, e)
  {
    TerminalIsLast(V, e);
    ChainStepAhead(V, e, Successor(V, e).dest);
  }

  /** `ChainStep` for the nearest piece `n` beyond `dest`, however it was found. */
  lemma ChainStepAhead(V: Board, e: Edge, n: Pos)
    requires Contact(V, e)
    requires var ax := AxisOf(e);
             Nearest(V, ax, Fixed(e.src, ax), Moving(e.dest, ax), Forward(e)) == Some(n)
    ensures var e', W := Edge(e.dest, n), Launch(V, e);
            && Contact(W, e')
            && AxisOf(e') == AxisOf(e) && Forward(e') == Forward(e)
            && Fixed(n, AxisOf(e)) == Fixed(e.src, AxisOf(e))
            && Remaining(W, e') < Remaining(V, e)
  {
    var ax, inc := AxisOf(e), Forward(e);
    var k := Fixed(e.src, ax);
    var i := IndexOf(V, e.src);
    var q := MoveTo(e.src, ax, Stop(e));
    var W := Launch(V, e);
    var e' := Edge(e.dest, n);
    assert Fixed(e.dest, ax) == k;
    assert n in V && Fixed(n, ax) == k && Ahead(Moving(n, ax), Moving(e.dest, ax), inc);
    assert AxisOf(e') == ax;
    var t := IndexOf(V, n);
    assert t != i && W[t] == n;
    forall w | w in W ensures !Between(e', w) {
      UpdateMembers(V, i, q, w);
    }
    CountAheadUpdate(V, ax, k, Moving(n, ax), inc, i, q);
    CountAheadShrinks(V, ax, k, Moving(e.dest, ax), Moving(n, ax), inc, n);
  }

  /** The board after the move `e` (fling.py:172-207): the flung piece slides
      up against `dest`; if `dest` is the last piece of the line it is knocked
      off the board, otherwise it is flung on toward the next piece of the
      line, computed from the board before the slide. Each move removes
      exactly one piece and never puts two pieces on one cell. */
  function ApplyEdge(e: Edge, V: Board): (W: Board)
    requires Contact(V, e)
    ensures |W| == |V| - 1
    ensures Distinct(W)
    decreases Remaining(V, e)
  {
    var W := Launch(V, e);
    if Terminal(V, e) then
      RemoveFirst(W, e.dest)
    else
      ChainStep(V, e);
      ApplyEdge(Successor(V, e), W)
  }

  /** Where a fling along `e` leaves piece `q` of `V`: unchanged when it is
      off the line or behind the flung piece; knocked off (`[]`) when it is
      the last piece of the line ahead; otherwise at rest right before the
      nearest piece ahead of it. */
  function Settle(V: Board, e: Edge, q: Pos): (r: seq<Pos>)
    ensures |r| <= 1
  {
    var ax, inc := AxisOf(e), Forward(e);
    var k := Fixed(e.src, ax);
    if Fixed(q, ax) != k || Ahead(Moving(e.src, ax), Moving(q, ax), inc) then [q]
    else
      match Nearest(V, ax, k, Moving(q, ax), inc)
      case None => []
      case Some(n) => [MoveTo(q, ax, Behind(Moving(n, ax), inc))]
  }

  /** Reference definition of a fling, piece by piece, in board order: every
      piece from the flung one onward ends up against its successor on the
      line and the last one falls off. */
  function Collapse(V: Board, e: Edge, s: seq<Pos>): (r: seq<Pos>)
    ensures |r| <= |s|
  {
    if s == [] then [] else Settle(V, e, s[0]) + Collapse(V, e, s[1..])
  }

  lemma {:induction false} CollapseCongruent(V1: Board, e1: Edge, s1: seq<Pos>, V2: Board, e2: Edge, s2: seq<Pos>)
    requires |s1| == |s2|
    requires forall t :: 0 <= t < |s1| ==> Settle(V1, e1, s1[t]) == Settle(V2, e2, s2[t])
    ensures Collapse(V1, e1, s1) == Collapse(V2, e2, s2)
  {
    if s1 != [] {
      assert Settle(V1, e1, s1[0]) == Settle(V2, e2, s2[0]);
      assert forall t :: 0 <= t < |s1| - 1 ==> s1[1..][t] == s1[t + 1] && s2[1..][t] == s2[t + 1];
      CollapseCongruent(V1, e1, s1[1..], V2, e2, s2[1..]);
    }
  }

  lemma {:induction false} CollapseKeeps(V: Board, e: Edge, s: seq<Pos>, W: seq<Pos>)
    requires |s| == |W|
    requires forall t :: 0 <= t < |s| ==> Settle(V, e, s[t]) == [W[t]]
    ensures Collapse(V, e, s) == W
  {
    if s != [] {
      assert Settle(V, e, s[0]) == [W[0]];
      assert forall t :: 0 <= t < |s| - 1 ==> s[1..][t] == s[t + 1] && W[1..][t] == W[t + 1];
      CollapseKeeps(V, e, s[1..], W[1..]);
      assert W == [W[0]] + W[1..];
    }
  }

  lemma {:induction false} CollapseRemoves(V: Board, e: Edge, s: seq<Pos>, W: seq<Pos>, j: nat)
    requires |s| == |W| && j < |s|
    requires forall t :: 0 <= t < |s| ==> Settle(V, e, s[t]) == if t == j then [] else [W[t]]
    ensures Collapse(V, e, s) == W[..j] + W[j + 1..]
  {
    if j == 0 {
      assert Settle(V, e, s[0]) == [];
      SettleTail(V, e, s, W, j);
      CollapseKeeps(V, e, s[1..], W[1..]);
    } else {
      assert Settle(V, e, s[0]) == [W[0]];
      SettleTail(V, e, s, W, j);
      CollapseRemoves(V, e, s[1..], W[1..], j - 1);
      assert W[..j] + W[j + 1..] == [W[0]] + (W[1..][..j - 1] + W[1..][j..]);
    }
  }

  lemma SettleTail(V: Board, e: Edge, s: seq<Pos>, W: seq<Pos>, j: nat)
    requires |s| == |W| && j < |s|
    requires forall t :: 0 <= t < |s| ==> Settle(V, e, s[t]) == if t == j then [] else [W[t]]
    ensures j == 0 ==> forall t :: 0 <= t < |s| - 1 ==> Settle(V, e, s[1..][t]) == [W[1..][t]]
    ensures j > 0 ==> forall t :: 0 <= t < |s| - 1 ==> Settle(V, e, s[1..][t]) == if t == j - 1 then [] else [W[1..][t]]
  {
    forall t | 0 <= t < |s| - 1
      ensures Settle(V, e, s[1..][t]) == if t + 1 == j then [] else [W[1..][t]]
    {
      assert s[1..][t] == s[t + 1] && W[1..][t] == W[t + 1];
    }
  }

  /** When `dest` is the last piece ahead, the reference definition leaves
      every piece as `Launch` puts it and removes `dest`. */
  lemma SettleLast(V: Board, e: Edge, t: nat)
    requires Contact(V, e) && Terminal(V, e) && t < |V|
    ensures Settle(V, e, V[t]) == if V[t] == e.dest then [] else [Launch(V, e)[t]]
  {
    TerminalIsLast(V, e);
    SettleNoneAhead(V, e, t);
  }

  lemma SettleNoneAhead(V: Board, e: Edge, t: nat)
    requires Contact(V, e) && t < |V|
    requires var ax := AxisOf(e);
             Nearest(V, ax, Fixed(e.src, ax), Moving(e.dest, ax), Forward(e)).None?
    ensures Settle(V, e, V[t]) == if V[t] == e.dest then [] else [Launch(V, e)[t]]
  {
    var ax, inc := AxisOf(e), Forward(e);
    var k := Fixed(e.src, ax);
    var i := IndexOf(V, e.src);
    var x := V[t];
    ContactNearest(V, e);
    assert Fixed(e.dest, ax) == k;
    assert !Between(e, x);
    if t != i {
      assert Launch(V, e)[t] == x;
    }
  }

  /** After one link of the chain, the next link's reference definition,
      on the board after the slide, settles every piece exactly where this
      link's reference definition does. */
  lemma SettleChain(V: Board, e: Edge, t: nat)
    requires Contact(V, e) && !Terminal(V, e) && t < |V|
    ensures Settle(Launch(V, e), Successor(V, e), Launch(V, e)[t]) == Settle(V, e, V[t])
  {
    TerminalIsLast(V, e);
    SettleAhead(V, e, Successor(V, e).dest, t);
  }

  lemma SettleAhead(V: Board, e: Edge, n: Pos, t: nat)
    requires Contact(V, e) && t < |V|
    requires var ax := AxisOf(e);
             Nearest(V, ax, Fixed(e.src, ax), Moving(e.dest, ax), Forward(e)) == Some(n)
    ensures Settle(Launch(V, e), Edge(e.dest, n), Launch(V, e)[t]) == Settle(V, e, V[t])
  {
    var ax, inc := AxisOf(e), Forward(e);
    var k := Fixed(e.src, ax);
    var i := IndexOf(V, e.src);
    var q := MoveTo(e.src, ax, Stop(e));
    var W := Launch(V, e);
    ContactNearest(V, e);
    ChainStepAhead(V, e, n);
    assert Fixed(e.dest, ax) == k;
    if t == i {
      assert W[t] == q;
    } else {
      var x := V[t];
      assert W[t] == x;
      assert !Between(e, x);
      if Fixed(x, ax) == k && !Ahead(Moving(e.src, ax), Moving(x, ax), inc) {
        assert x != e.src;
        assert !Ahead(Moving(e.dest, ax), Moving(x, ax), inc);
        NearestUpdate(V, ax, k, Moving(x, ax), inc, i, q);
      }
    }
  }

  /** The move applier computes the reference definition: a fling moves each
      piece from the flung one onward up against its successor on the line and
      removes the last one, leaving the rest of the board and its order alone. */
  lemma {:induction false} ApplyEdgeIsCollapse(e: Edge, V: Board)
    requires Contact(V, e)
    ensures ApplyEdge(e, V) == Collapse(V, e, V)
    decreases Remaining(V, e)
  {
    if Terminal(V, e) {
      ApplyEdgeTerminal(e, V);
      CollapseTerminal(V, e);
    } else {
      ChainStep(V, e);
      ApplyEdgeSuccessor(e, V);
      ApplyEdgeIsCollapse(Successor(V, e), Launch(V, e));
      CollapseSuccessor(V, e);
    }
  }

  /** Unfolding `ApplyEdge` once when `dest` is not the last piece of the line. */
  lemma ApplyEdgeSuccessor(e: Edge, V: Board)
    requires Contact(V, e) && !Terminal(V, e)
    ensures Contact(Launch(V, e), Successor(V, e))
    ensures ApplyEdge(e, V) == ApplyEdge(Successor(V, e), Launch(V, e))
  {
    ChainStep(V, e);
  }

  lemma CollapseTerminal(V: Board, e: Edge)
    requires Contact(V, e) && Terminal(V, e)
    ensures e.dest in Launch(V, e)
    ensures Collapse(V, e, V) == RemoveFirst(Launch(V, e), e.dest)
  {
    var W := Launch(V, e);
    var j := IndexOf(V, e.dest);
    forall t | 0 <= t < |V| ensures Settle(V, e, V[t]) == if t == j then [] else [W[t]] {
      SettleLast(V, e, t);
    }
    CollapseRemoves(V, e, V, W, j);
    assert W[j] == e.dest;
    IndexOfDistinct(W, j);
  }

  lemma CollapseSuccessor(V: Board, e: Edge)
    requires Contact(V, e) && !Terminal(V, e)
    ensures Collapse(Launch(V, e), Successor(V, e), Launch(V, e)) == Collapse(V, e, V)
  {
    var W := Launch(V, e);
    var e' := Successor(V, e);
    forall t | 0 <= t < |V| ensures Settle(W, e', W[t]) == Settle(V, e, V[t]) {
      SettleChain(V, e, t);
    }
    CollapseCongruent(W, e', W, V, e, V);
  }

  /** `p` is off the move's line, or on it strictly behind the flung piece. */
  predicate Untouched(e: Edge, p: Pos)
  {
    var ax := AxisOf(e);
    Fixed(p, ax) != Fixed(e.src, ax) || Ahead(Moving(e.src, ax), Moving(p, ax), Forward(e))
  }

  lemma {:induction false} CollapseUntouched(V: Board, e: Edge, s: seq<Pos>, p: Pos)
    requires Untouched(e, p)
    ensures p in Collapse(V, e, s) <==> p in s
  {
    if s != [] {
      CollapseUntouched(V, e, s[1..], p);
      assert s == [s[0]] + s[1..];
      if !Untouched(e, s[0]) {
        var r := Settle(V, e, s[0]);
        assert p !in r;
      }
    }
  }

  /** A fling leaves every piece off its line, and every piece behind the
      flung one, where it was, and puts no piece on such a cell. */
  lemma ApplyEdgeUntouched(e: Edge, V: Board, p: Pos)
    requires Contact(V, e) && Untouched(e, p)
    ensures p in ApplyEdge(e, V) <==> p in V
  {
    ApplyEdgeIsCollapse(e, V);
    CollapseUntouched(V, e, V, p);
  }

  lemma {:induction false} CollapseInGrid(V: Board, e: Edge, s: seq<Pos>, rows: nat, cols: nat)
    requires InGrid(V, rows, cols) && InGrid(s, rows, cols)
    ensures InGrid(Collapse(V, e, s), rows, cols)
  {
    if s != [] {
      assert s[0] in s;
      assert InGrid(s[1..], rows, cols) by {
        forall p | p in s[1..] ensures p in s {
        }
      }
      CollapseInGrid(V, e, s[1..], rows, cols);
      var r := Collapse(V, e, s);
      forall p | p in r ensures p.row < rows && p.col < cols {
        if p !in Settle(V, e, s[0]) {
          assert p in Collapse(V, e, s[1..]);
        }
      }
    }
  }

  /** A fling keeps every piece on the grid the board was on. */
  lemma ApplyEdgeInGrid(e: Edge, V: Board, rows: nat, cols: nat)
    requires Contact(V, e) && InGrid(V, rows, cols)
    ensures InGrid(ApplyEdge(e, V), rows, cols)
  {
    ApplyEdgeIsCollapse(e, V);
    CollapseInGrid(V, e, V, rows, cols);
  }

  /** The base case: when no piece lies beyond `dest` on the line, the flung
      piece ends right before `dest` (one cell short of it on the moving axis)
      and `dest` itself is removed. */
  lemma ApplyEdgeLastPiece(e: Edge, V: Board)
    requires Contact(V, e)
    requires var ax := AxisOf(e);
             forall q :: q in V && Fixed(q, ax) == Fixed(e.src, ax) ==>
               !Ahead(Moving(q, ax), Moving(e.dest, ax), Forward(e))
    ensures var ax := AxisOf(e);
            var m := if Forward(e) then Moving(e.dest, ax) - 1 else Moving(e.dest, ax) + 1;
            var W := V[IndexOf(V, e.src) := MoveTo(e.src, ax, m)];
            e.dest in W && ApplyEdge(e, V) == RemoveFirst(W, e.dest)
  {
    var ax := AxisOf(e);
    var m := if Forward(e) then Moving(e.dest, ax) - 1 else Moving(e.dest, ax) + 1;
    assert Stop(e) == m;
    var W := V[IndexOf(V, e.src) := MoveTo(e.src, ax, m)];
    assert Launch(V, e) == W;
    LastPieceTerminal(e, V);
    ApplyEdgeTerminal(e, V);
  }

  lemma ApplyEdgeTerminal(e: Edge, V: Board)
    requires Contact(V, e) && Terminal(V, e)
    ensures e.dest in Launch(V, e) && ApplyEdge(e, V) == RemoveFirst(Launch(V, e), e.dest)
  {
  }

  lemma LastPieceTerminal(e: Edge, V: Board)
    requires Contact(V, e)
    requires var ax := AxisOf(e);
             forall q :: q in V && Fixed(q, ax) == Fixed(e.src, ax) ==>
               !Ahead(Moving(q, ax), Moving(e.dest, ax), Forward(e))
    ensures Terminal(V, e)
  {
    var ax := AxisOf(e);
    TerminalIsLast(V, e);
    assert Nearest(V, ax, Fixed(e.src, ax), Moving(e.dest, ax), Forward(e)).None?;
  }

  /** The chain: when `n` is the nearest piece beyond `dest` on the line, the
      fling is the fling of `dest` toward `n` on the board where only the
      flung piece has moved. */
  lemma ApplyEdgeChain(e: Edge, V: Board, n: Pos)
    requires Contact(V, e)
    requires var ax := AxisOf(e);
             && n in V && Fixed(n, ax) == Fixed(e.src, ax)
             && Ahead(Moving(n, ax), Moving(e.dest, ax), Forward(e))
             && forall w :: w in V && Fixed(w, ax) == Fixed(e.src, ax) && Ahead(Moving(w, ax), Moving(e.dest, ax), Forward(e))
                  ==> !Ahead(Moving(n, ax), Moving(w, ax), Forward(e))
    ensures Contact(Launch(V, e), Edge(e.dest, n))
    ensures ApplyEdge(e, V) == ApplyEdge(Edge(e.dest, n), Launch(V, e))
  {
    var ax, inc := AxisOf(e), Forward(e);
    var k := Fixed(e.src, ax);
    var r := Nearest(V, ax, k, Moving(e.dest, ax), inc);
    TerminalIsLast(V, e);
    assert r.Some?;
    assert !Ahead(Moving(r.value, ax), Moving(n, ax), inc);
    assert r.value == n;
    ChainStep(V, e);
  }

  /** Two pieces on row 0, at columns 0 and 5: flinging the first at the
      second leaves one piece, at column 4. */
  lemma ExampleLastPiece()
    ensures Contact([Pos(0, 0), Pos(0, 5)], Edge(Pos(0, 0), Pos(0, 5)))
    ensures ApplyEdge(Edge(Pos(0, 0), Pos(0, 5)), [Pos(0, 0), Pos(0, 5)]) == [Pos(0, 4)]
  {
    var V := [Pos(0, 0), Pos(0, 5)];
    var e := Edge(Pos(0, 0), Pos(0, 5));
    assert Contact(V, e);
    ApplyEdgeLastPiece(e, V);
    assert V[0 := Pos(0, 4)] == [Pos(0, 4), Pos(0, 5)];
    assert RemoveFirst([Pos(0, 4), Pos(0, 5)], Pos(0, 5)) == [Pos(0, 4)];
  }

  /** A chain of two collisions: flinging (0,0) at (0,3) slides it to (0,2);
      (0,3) then strikes its neighbour (0,4), which falls off. */
  lemma ExampleChain()
    ensures Contact([Pos(0, 0), Pos(0, 3), Pos(0, 4)], Edge(Pos(0, 0), Pos(0, 3)))
    ensures ApplyEdge(Edge(Pos(0, 0), Pos(0, 3)), [Pos(0, 0), Pos(0, 3), Pos(0, 4)]) == [Pos(0, 2), Pos(0, 3)]
  {
    var V := [Pos(0, 0), Pos(0, 3), Pos(0, 4)];
    var e := Edge(Pos(0, 0), Pos(0, 3));
    ExampleChainCollapse();
    ApplyEdgeIsCollapse(e, V);
  }

  lemma ExampleChainCollapse()
    ensures Contact([Pos(0, 0), Pos(0, 3), Pos(0, 4)], Edge(Pos(0, 0), Pos(0, 3)))
    ensures Collapse([Pos(0, 0), Pos(0, 3), Pos(0, 4)], Edge(Pos(0, 0), Pos(0, 3)), [Pos(0, 0), Pos(0, 3), Pos(0, 4)])
            == [Pos(0, 2), Pos(0, 3)]
  {
    var V := [Pos(0, 0), Pos(0, 3), Pos(0, 4)];
    var e := Edge(Pos(0, 0), Pos(0, 3));
    ExampleChainContact();
    ExampleChainSettle();
    assert Collapse(V, e, V[2..]) == [];
    assert Collapse(V, e, V[1..]) == [Pos(0, 3)] + Collapse(V, e, V[2..]);
  }

  lemma ExampleChainContact()
    ensures Contact([Pos(0, 0), Pos(0, 3), Pos(0, 4)], Edge(Pos(0, 0), Pos(0, 3)))
  {
    var V := [Pos(0, 0), Pos(0, 3), Pos(0, 4)];
    var e := Edge(Pos(0, 0), Pos(0, 3));
    assert Distinct(V);
    assert forall w :: w in V ==> !Between(e, w);
  }

  lemma ExampleChainSettle()
    ensures Settle([Pos(0, 0), Pos(0, 3), Pos(0, 4)], Edge(Pos(0, 0), Pos(0, 3)), Pos(0, 0)) == [Pos(0, 2)]
    ensures Settle([Pos(0, 0), Pos(0, 3), Pos(0, 4)], Edge(Pos(0, 0), Pos(0, 3)), Pos(0, 3)) == [Pos(0, 3)]
    ensures Settle([Pos(0, 0), Pos(0, 3), Pos(0, 4)], Edge(Pos(0, 0), Pos(0, 3)), Pos(0, 4)) == []
  {
    var V := [Pos(0, 0), Pos(0, 3), Pos(0, 4)];
    assert Nearest(V, Horizontal, 0, 0, true) == Some(Pos(0, 3));
    assert Nearest(V, Horizontal, 0, 3, true) == Some(Pos(0, 4));
    assert Nearest(V, Horizontal, 0, 4, true) == None;
  }
}
