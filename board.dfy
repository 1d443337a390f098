/** Boards, moves and collision lines: the vocabulary shared by the move
    generator, the move applier and the search. */
module Board {
  import opened Vertex

  datatype Option<T> = None | Some(value: T)

  /** A board lists its pieces in a fixed order; that order decides the order
      in which moves are generated. */
  type Board = seq<Pos>

  /** A move: fling the piece at `src` toward the piece at `dest`. */
  datatype Edge = Edge(src: Pos, dest: Pos)

  /** The axis of a collision line. On a `Horizontal` line the pieces share a
      row and move along the columns; on a `Vertical` line they share a column
      and move along the rows. */
  datatype Axis = Horizontal | Vertical

  /** The coordinate that stays fixed along a line of axis `ax`. */
  function Fixed(p: Pos, ax: Axis): nat
  {
    if ax == Horizontal then p.row else p.col
  }

  /** The coordinate that changes along a line of axis `ax`. */
  function Moving(p: Pos, ax: Axis): nat
  {
    if ax == Horizontal then p.col else p.row
  }

  /** `p` slid along its line of axis `ax` to moving coordinate `m`. */
  function MoveTo(p: Pos, ax: Axis, m: nat): (q: Pos)
    ensures Fixed(q, ax) == Fixed(p, ax) && Moving(q, ax) == m
    ensures m == Moving(p, ax) ==> q == p
  {
    if ax == Horizontal then Pos(p.row, m) else Pos(m, p.col)
  }

  /** No two entries of the board stand on the same cell. */
  predicate Distinct(V: Board)
  {
    forall i, j :: 0 <= i < j < |V| ==> V[i] != V[j]
  }

  /** Every piece lies on a grid of `rows` rows and `cols` columns. */
  predicate InGrid(V: Board, rows: nat, cols: nat)
  {
    forall p :: p in V ==> p.row < rows && p.col < cols
  }

  lemma DistinctCons(a: Pos, s: seq<Pos>)
    requires Distinct(s) && a !in s
    ensures Distinct([a] + s)
  {
    var r := [a] + s;
    forall i, j | 0 <= i < j < |r| ensures r[i] != r[j] {
      if i == 0 {
        assert r[j] == s[j - 1];
      } else {
        assert r[i] == s[i - 1] && r[j] == s[j - 1];
      }
    }
  }

  /** In a board without repeats the last of the first `n` entries is not
      among the entries before it. */
  lemma DistinctLast(s: seq<Pos>, n: nat)
    requires Distinct(s) && 0 < n <= |s|
    ensures s[n - 1] !in s[..n - 1]
  {
  }

  /** The first `n` entries are the first `n - 1` and the entry at `n - 1`. */
  lemma PrefixMember(s: seq<Pos>, n: nat, x: Pos)
    requires 0 < n <= |s|
    ensures x in s[..n] <==> x in s[..n - 1] || x == s[n - 1]
  {
    assert s[..n] == s[..n - 1] + [s[n - 1]];
  }

  lemma DistinctTail(s: seq<Pos>)
    requires Distinct(s) && |s| > 0
    ensures Distinct(s[1..]) && s[0] !in s[1..]
  {
    assert forall j :: 0 <= j < |s| - 1 ==> s[1..][j] == s[j + 1];
  }

  /** Position of the first entry equal to `x` (a list's `index`). */
  function IndexOf(s: seq<Pos>, x: Pos): (i: nat)
    requires x in s
    ensures i < |s| && s[i] == x
    ensures forall t :: 0 <= t < i ==> s[t] != x
  {
    if s[0] == x then 0 else 1 + IndexOf(s[1..], x)
  }

  /** In a board without repeats the index of the piece at `j` is `j`. */
  lemma IndexOfDistinct(s: seq<Pos>, j: nat)
    requires Distinct(s) && j < |s|
    ensures IndexOf(s, s[j]) == j
  {
  }

  /** The list without the first entry equal to `x` (a list's `remove`). */
  function RemoveFirst(s: seq<Pos>, x: Pos): (r: seq<Pos>)
    requires x in s
    ensures |r| == |s| - 1
    ensures r == s[..IndexOf(s, x)] + s[IndexOf(s, x) + 1..]
    ensures Distinct(s) ==> Distinct(r) && x !in r
    ensures forall y :: y in r ==> y in s
    ensures forall y :: y in s && y != x ==> y in r
  {
    var i := IndexOf(s, x);
    RemoveAtMembers(s, i);
    RemoveAtDistinct(s, i);
    s[..i] + s[i + 1..]
  }

  lemma RemoveAtMembers(s: seq<Pos>, i: nat)
    requires i < |s|
    ensures var r := s[..i] + s[i + 1..];
            && (forall y :: y in r ==> y in s)
            && (forall y :: y in s && y != s[i] ==> y in r)
  {
    var r := s[..i] + s[i + 1..];
    assert forall t :: 0 <= t < |r| ==> r[t] == if t < i then s[t] else s[t + 1];
    forall y | y in s && y != s[i] ensures y in r {
      var t :| 0 <= t < |s| && s[t] == y;
      assert r[if t < i then t else t - 1] == y;
    }
  }

  lemma RemoveAtDistinct(s: seq<Pos>, i: nat)
    requires i < |s|
    ensures Distinct(s) ==> Distinct(s[..i] + s[i + 1..]) && s[i] !in s[..i] + s[i + 1..]
  {
    var r := s[..i] + s[i + 1..];
    assert forall t :: 0 <= t < |r| ==> r[t] == if t < i then s[t] else s[t + 1];
  }

  /** The pieces of `V` whose fixed coordinate on axis `ax` is `k` (the `filter` of fling.py:182). */
  function OnLine(V: Board, ax: Axis, k: nat): (F: seq<Pos>)
    ensures forall p :: p in F <==> p in V && Fixed(p, ax) == k
    ensures |F| <= |V|
  {
    if V == [] then []
    else
      assert forall q :: q in V <==> q == V[0] || q in V[1..];
      var rest := OnLine(V[1..], ax, k);
      if Fixed(V[0], ax) == k then [V[0]] + rest else rest
  }

  /** Filtering a board without repeats gives a list without repeats. */
  lemma {:induction false} OnLineDistinct(V: Board, ax: Axis, k: nat)
    requires Distinct(V)
    ensures Distinct(OnLine(V, ax, k))
  {
    if V != [] {
      DistinctTail(V);
      OnLineDistinct(V[1..], ax, k);
      if Fixed(V[0], ax) == k {
        DistinctCons(V[0], OnLine(V[1..], ax, k));
      }
    }
  }

  /** The moving coordinate strictly increases along `s`. */
  predicate Increasing(s: seq<Pos>, ax: Axis)
  {
    forall i, j :: 0 <= i < j < |s| ==> Moving(s[i], ax) < Moving(s[j], ax)
  }

  /** No two entries of `s` share a moving coordinate. */
  predicate DistinctMoving(s: seq<Pos>, ax: Axis)
  {
    forall i, j :: 0 <= i < j < |s| ==> Moving(s[i], ax) != Moving(s[j], ax)
  }

  /** `x` inserted into `s` before the first entry with a larger moving
      coordinate. */
  function Insert(x: Pos, s: seq<Pos>, ax: Axis): (r: seq<Pos>)
    ensures |r| == |s| + 1
    ensures forall y :: y in r <==> y == x || y in s
  {
    assert forall y :: y in s <==> s != [] && (y == s[0] || y in s[1..]);
    if s == [] then [x]
    else if Moving(x, ax) < Moving(s[0], ax) then [x] + s
    else [s[0]] + Insert(x, s[1..], ax)
  }

  /** Putting a piece in front of an increasing list of pieces that all lie
      beyond it keeps the list increasing. */
  lemma ConsIncreasing(a: Pos, t: seq<Pos>, ax: Axis)
    requires Increasing(t, ax)
    requires forall y :: y in t ==> Moving(a, ax) < Moving(y, ax)
    ensures Increasing([a] + t, ax)
  {
    var r := [a] + t;
    forall i, j | 0 <= i < j < |r| ensures Moving(r[i], ax) < Moving(r[j], ax) {
      assert r[j] == t[j - 1] && t[j - 1] in t;
      if i > 0 {
        assert r[i] == t[i - 1];
      }
    }
  }

  /** Inserting into an increasing list keeps it increasing. */
  lemma {:induction false} InsertIncreasing(x: Pos, s: seq<Pos>, ax: Axis)
    requires Increasing(s, ax)
    requires forall y :: y in s ==> Moving(y, ax) != Moving(x, ax)
    ensures Increasing(Insert(x, s, ax), ax)
  {
    if s == [] {
    } else if Moving(x, ax) < Moving(s[0], ax) {
      forall y | y in s ensures Moving(x, ax) < Moving(y, ax) {
        var t :| 0 <= t < |s| && s[t] == y;
        assert Moving(s[0], ax) <= Moving(s[t], ax);
      }
      ConsIncreasing(x, s, ax);
    } else {
      IncreasingTail(s, ax);
      assert forall y :: y in s[1..] ==> y in s;
      InsertIncreasing(x, s[1..], ax);
      var tail := Insert(x, s[1..], ax);
      InsertAbove(x, s, ax, tail);
      ConsIncreasing(s[0], tail, ax);
    }
  }

  lemma InsertAbove(x: Pos, s: seq<Pos>, ax: Axis, tail: seq<Pos>)
    requires Increasing(s, ax) && s != [] && Moving(s[0], ax) < Moving(x, ax)
    requires forall y :: y in tail <==> y == x || y in s[1..]
    ensures forall y :: y in tail ==> Moving(s[0], ax) < Moving(y, ax)
  {
    forall y | y in tail ensures Moving(s[0], ax) < Moving(y, ax) {
      if y != x {
        var t :| 0 <= t < |s[1..]| && s[1..][t] == y;
        assert s[t + 1] == y;
      }
    }
  }

  /** `s` sorted by moving coordinate (the collision line's `sort`). */
  function Sort(s: seq<Pos>, ax: Axis): (r: seq<Pos>)
    ensures |r| == |s|
    ensures forall y :: y in r <==> y in s
  {
    assert forall y :: y in s <==> s != [] && (y == s[0] || y in s[1..]);
    if s == [] then [] else Insert(s[0], Sort(s[1..], ax), ax)
  }

  /** Sorting a list whose entries have different moving coordinates gives
      an increasing list. */
  lemma {:induction false} SortIncreasing(s: seq<Pos>, ax: Axis)
    requires DistinctMoving(s, ax)
    ensures Increasing(Sort(s, ax), ax)
  {
    if s != [] {
      assert DistinctMoving(s[1..], ax) by {
        forall i, j | 0 <= i < j < |s[1..]| ensures Moving(s[1..][i], ax) != Moving(s[1..][j], ax) {
          assert s[1..][i] == s[i + 1] && s[1..][j] == s[j + 1];
        }
      }
      SortIncreasing(s[1..], ax);
      var rest := Sort(s[1..], ax);
      forall y | y in rest ensures Moving(y, ax) != Moving(s[0], ax) {
        var t :| 0 <= t < |s[1..]| && s[1..][t] == y;
        assert s[t + 1] == y;
      }
      InsertIncreasing(s[0], rest, ax);
    }
  }

  /** Two increasing lists with the same entries are the same list; so any
      sorting routine, stable or not, gives the line `Sort` gives. */
  lemma {:induction false} IncreasingUnique(a: seq<Pos>, b: seq<Pos>, ax: Axis)
    requires Increasing(a, ax) && Increasing(b, ax)
    requires forall y :: y in a <==> y in b
    ensures a == b
  {
    assert a != [] ==> a[0] in b;
    assert b != [] ==> b[0] in a;
    if a != [] && b != [] {
      SameHead(a, b, ax);
      SameTail(a, b, ax);
      IncreasingTail(a, ax);
      IncreasingTail(b, ax);
      IncreasingUnique(a[1..], b[1..], ax);
      assert a == [a[0]] + a[1..] && b == [b[0]] + b[1..];
    }
  }

  lemma IncreasingTail(a: seq<Pos>, ax: Axis)
    requires Increasing(a, ax) && a != []
    ensures Increasing(a[1..], ax)
  {
    assert forall t :: 0 <= t < |a| - 1 ==> a[1..][t] == a[t + 1];
  }

  lemma SameHead(a: seq<Pos>, b: seq<Pos>, ax: Axis)
    requires Increasing(a, ax) && Increasing(b, ax)
    requires forall y :: y in a <==> y in b
    requires a != [] && b != []
    ensures a[0] == b[0]
  {
    assert a[0] in b;
    assert b[0] in a;
    var i :| 0 <= i < |b| && b[i] == a[0];
    var j :| 0 <= j < |a| && a[j] == b[0];
    assert Moving(a[0], ax) <= Moving(a[j], ax);
    assert Moving(b[0], ax) <= Moving(b[i], ax);
  }

  lemma SameTail(a: seq<Pos>, b: seq<Pos>, ax: Axis)
    requires Increasing(a, ax) && Increasing(b, ax)
    requires forall y :: y in a <==> y in b
    requires a != [] && b != [] && a[0] == b[0]
    ensures forall y :: y in a[1..] <==> y in b[1..]
  {
    forall y | y in a[1..] ensures y in b[1..] {
      TailMember(a, b, ax, y);
    }
    forall y | y in b[1..] ensures y in a[1..] {
      TailMember(b, a, ax, y);
    }
  }

  lemma TailMember(a: seq<Pos>, b: seq<Pos>, ax: Axis, y: Pos)
    requires Increasing(a, ax) && Increasing(b, ax)
    requires forall y :: y in a <==> y in b
    requires a != [] && b != [] && a[0] == b[0]
    requires y in a[1..]
    ensures y in b[1..]
  {
    var t :| 0 <= t < |a[1..]| && a[1..][t] == y;
    assert a[t + 1] == y && Moving(a[0], ax) < Moving(y, ax);
    assert y in b;
    var u :| 0 <= u < |b| && b[u] == y;
    assert u != 0;
    assert b[1..][u - 1] == y;
  }

  /** The collision line: the pieces of `V` with fixed coordinate `k` on axis
      `ax`, ordered by their moving coordinate. Each piece of the line is
      inserted into the line of the pieces after it; `LineIsSortedFilter`
      shows this is the filtered board, sorted. */
  function Line(V: Board, ax: Axis, k: nat): (F: seq<Pos>)
    ensures forall p :: p in F <==> p in V && Fixed(p, ax) == k
  {
    assert forall q :: q in V <==> V != [] && (q == V[0] || q in V[1..]);
    if V == [] then []
    else if Fixed(V[0], ax) == k then Insert(V[0], Line(V[1..], ax, k), ax)
    else Line(V[1..], ax, k)
  }

  /** On a board without repeats the line is increasing. */
  lemma {:induction false} LineIncreasing(V: Board, ax: Axis, k: nat)
    requires Distinct(V)
    ensures Increasing(Line(V, ax, k), ax)
  {
    if V != [] {
      DistinctTail(V);
      LineIncreasing(V[1..], ax, k);
      if Fixed(V[0], ax) == k {
        var rest := Line(V[1..], ax, k);
        forall y | y in rest ensures Moving(y, ax) != Moving(V[0], ax) {
          assert y in V[1..] && y != V[0];
        }
        InsertIncreasing(V[0], rest, ax);
      }
    }
  }

  /** The line is the board filtered to the line and sorted by the moving
      coordinate, whatever sorting routine produced it. */
  lemma LineIsSortedFilter(V: Board, ax: Axis, k: nat)
    requires Distinct(V)
    ensures Line(V, ax, k) == Sort(OnLine(V, ax, k), ax)
  {
    var G := OnLine(V, ax, k);
    OnLineDistinct(V, ax, k);
    assert DistinctMoving(G, ax) by {
      forall i, j | 0 <= i < j < |G| ensures Moving(G[i], ax) != Moving(G[j], ax) {
        assert G[i] in G && G[j] in G;
      }
    }
    LineIncreasing(V, ax, k);
    SortIncreasing(G, ax);
    IncreasingUnique(Line(V, ax, k), Sort(G, ax), ax);
  }

  /** Moving coordinate `a` lies ahead of `b` when travelling toward larger
      coordinates (`inc`) or toward smaller ones (`!inc`). */
  predicate Ahead(a: nat, b: nat, inc: bool)
  {
    if inc then a > b else a < b
  }

  /** The piece of `V` on line `k` of axis `ax` nearest ahead of moving
      coordinate `m` in direction `inc`, if there is one. */
  function Nearest(V: Board, ax: Axis, k: nat, m: nat, inc: bool): (r: Option<Pos>)
    ensures r.Some? ==> r.value in V && Fixed(r.value, ax) == k && Ahead(Moving(r.value, ax), m, inc)
    ensures r.Some? ==> forall q :: q in V && Fixed(q, ax) == k && Ahead(Moving(q, ax), m, inc) ==>
                          !Ahead(Moving(r.value, ax), Moving(q, ax), inc)
    ensures r.None? <==> forall q :: q in V && Fixed(q, ax) == k ==> !Ahead(Moving(q, ax), m, inc)
  {
    if V == [] then None
    else
      var rest := Nearest(V[1..], ax, k, m, inc);
      assert forall q :: q in V <==> q == V[0] || q in V[1..];
      if Fixed(V[0], ax) == k && Ahead(Moving(V[0], ax), m, inc)
         && (rest.None? || Ahead(Moving(rest.value, ax), Moving(V[0], ax), inc))
      then Some(V[0])
      else rest
  }

  /** On an increasing line the nearest piece ahead of the entry at `i` is its
      neighbour in the sorted order: the successor when travelling toward
      larger coordinates, the predecessor otherwise. There is none exactly
      when that neighbour would fall off the end of the line. */
  lemma LineNeighbour(V: Board, ax: Axis, p: Pos, inc: bool)
    requires Distinct(V) && p in V
    ensures var F := Line(V, ax, Fixed(p, ax));
            var i := IndexOf(F, p);
            var j: int := if inc then i + 1 else i - 1;
            var n := Nearest(V, ax, Fixed(p, ax), Moving(p, ax), inc);
            (0 <= j < |F| <==> n.Some?) && (0 <= j < |F| ==> n.value == F[j])
  {
    var k := Fixed(p, ax);
    var F := Line(V, ax, k);
    var i := IndexOf(F, p);
    assert F[i] == p;
    LineIncreasing(V, ax, k);
    SortedNeighbour(V, ax, k, F, i, inc);
  }

  lemma SortedNeighbour(V: Board, ax: Axis, k: nat, F: seq<Pos>, i: nat, inc: bool)
    requires Increasing(F, ax)
    requires forall p :: p in F <==> p in V && Fixed(p, ax) == k
    requires i < |F|
    ensures var j: int := if inc then i + 1 else i - 1;
            var n := Nearest(V, ax, k, Moving(F[i], ax), inc);
            (0 <= j < |F| <==> n.Some?) && (0 <= j < |F| ==> n.value == F[j])
  {
    var m := Moving(F[i], ax);
    var j: int := if inc then i + 1 else i - 1;
    var n := Nearest(V, ax, k, m, inc);
    if 0 <= j < |F| {
      assert F[j] in F;
      assert Fixed(F[j], ax) == k && Ahead(Moving(F[j], ax), m, inc);
      assert n.Some?;
      assert n.value in F;
      var t :| 0 <= t < |F| && F[t] == n.value;
      assert !Ahead(Moving(F[t], ax), Moving(F[j], ax), inc);
      assert Ahead(Moving(F[t], ax), Moving(F[i], ax), inc);
      assert t == j;
    }
  }

  /** Replacing an entry that is not on the line ahead of `m` by another such
      entry does not change the nearest piece ahead of `m`. */
  lemma {:induction false} NearestUpdate(V: Board, ax: Axis, k: nat, m: nat, inc: bool, i: nat, x: Pos)
    requires i < |V|
    requires !(Fixed(V[i], ax) == k && Ahead(Moving(V[i], ax), m, inc))
    requires !(Fixed(x, ax) == k && Ahead(Moving(x, ax), m, inc))
    ensures Nearest(V[i := x], ax, k, m, inc) == Nearest(V, ax, k, m, inc)
  {
    var W := V[i := x];
    if i == 0 {
      assert W[1..] == V[1..];
    } else {
      assert W[1..] == V[1..][i - 1 := x];
      NearestUpdate(V[1..], ax, k, m, inc, i - 1, x);
    }
  }

  /** Number of pieces of `V` on line `k` of axis `ax` ahead of `m` in direction `inc`. */
  function CountAhead(V: Board, ax: Axis, k: nat, m: nat, inc: bool): nat
  {
    if V == [] then 0
    else (if Fixed(V[0], ax) == k && Ahead(Moving(V[0], ax), m, inc) then 1 else 0)
         + CountAhead(V[1..], ax, k, m, inc)
  }

  /** Replacing an entry that is not counted by another that is not counted keeps the count. */
  lemma {:induction false} CountAheadUpdate(V: Board, ax: Axis, k: nat, m: nat, inc: bool, i: nat, x: Pos)
    requires i < |V|
    requires !(Fixed(V[i], ax) == k && Ahead(Moving(V[i], ax), m, inc))
    requires !(Fixed(x, ax) == k && Ahead(Moving(x, ax), m, inc))
    ensures CountAhead(V[i := x], ax, k, m, inc) == CountAhead(V, ax, k, m, inc)
  {
    var W := V[i := x];
    if i == 0 {
      assert W[1..] == V[1..];
    } else {
      assert W[1..] == V[1..][i - 1 := x];
      CountAheadUpdate(V[1..], ax, k, m, inc, i - 1, x);
    }
  }

  /** Moving the threshold forward past a piece of the line strictly lowers the count. */
  lemma {:induction false} CountAheadShrinks(V: Board, ax: Axis, k: nat, m1: nat, m2: nat, inc: bool, n: Pos)
    requires Ahead(m2, m1, inc)
    requires n in V && Fixed(n, ax) == k && Moving(n, ax) == m2
    ensures CountAhead(V, ax, k, m2, inc) < CountAhead(V, ax, k, m1, inc)
  {
    if V[0] == n {
      CountAheadMonotone(V[1..], ax, k, m1, m2, inc);
    } else {
      assert n in V[1..];
      CountAheadShrinks(V[1..], ax, k, m1, m2, inc, n);
    }
  }

  lemma {:induction false} CountAheadMonotone(V: Board, ax: Axis, k: nat, m1: nat, m2: nat, inc: bool)
    requires Ahead(m2, m1, inc)
    ensures CountAhead(V, ax, k, m2, inc) <= CountAhead(V, ax, k, m1, inc)
  {
    if V != [] {
      CountAheadMonotone(V[1..], ax, k, m1, m2, inc);
    }
  }
}
