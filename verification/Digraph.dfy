/** Finite directed graphs given by their arcs: walks, cycles and depth.
    The work graph of the web client and the DEPENDS_ON graph of the task board share them. */
module Digraph {

  type Arcs<!N(==)> = set<(N, N)>

  /** There is a walk of exactly `k` arcs from `a` to `b`. */
  ghost predicate Walk<N(!new)>(arcs: Arcs<N>, a: N, b: N, k: nat) {
    if k == 0 then a == b
    else exists c :: Walk(arcs, a, c, k - 1) && (c, b) in arcs
  }

  /** `b` is reached from `a` over one or more arcs. */
  ghost predicate Reaches<N(!new)>(arcs: Arcs<N>, a: N, b: N) {
    exists k: nat :: k >= 1 && Walk(arcs, a, b, k)
  }

  ghost predicate Acyclic<N(!new)>(arcs: Arcs<N>) {
    forall n :: !Reaches(arcs, n, n)
  }

  /** No cycle leads to `n` or through it, wherever else there may be one. */
  ghost predicate Rooted<N(!new)>(arcs: Arcs<N>, n: N) {
    !Reaches(arcs, n, n) && forall x :: Reaches(arcs, x, n) ==> !Reaches(arcs, x, x)
  }

  /** Some walk of exactly `k` arcs ends in `n`. */
  ghost predicate Deep<N(!new)>(arcs: Arcs<N>, n: N, k: nat) {
    k == 0 || exists p :: (p, n) in arcs && Deep(arcs, p, k - 1)
  }

  /** `level` is the length of the longest walk that ends in `n`. */
  ghost predicate IsLevel<N(!new)>(arcs: Arcs<N>, n: N, level: nat) {
    Deep(arcs, n, level) && !Deep(arcs, n, level + 1)
  }

  lemma {:induction false} WalkConcat<N(!new)>(arcs: Arcs<N>, a: N, b: N, c: N, j: nat, k: nat)
    requires Walk(arcs, a, b, j) && Walk(arcs, b, c, k)
    ensures Walk(arcs, a, c, j + k)
    decreases k
  {
    if k == 0 {
    } else {
      var m :| Walk(arcs, b, m, k - 1) && (m, c) in arcs;
      WalkConcat(arcs, a, b, m, j, k - 1);
      assert Walk(arcs, a, m, j + k - 1);
    }
  }

  lemma ArcReaches<N(!new)>(arcs: Arcs<N>, a: N, b: N)
    requires (a, b) in arcs
    ensures Reaches(arcs, a, b)
  {
    assert Walk(arcs, a, a, 0);
    assert Walk(arcs, a, b, 1);
  }

  lemma ReachesTrans<N(!new)>(arcs: Arcs<N>, a: N, b: N, c: N)
    requires Reaches(arcs, a, b) && Reaches(arcs, b, c)
    ensures Reaches(arcs, a, c)
  {
    var j: nat :| j >= 1 && Walk(arcs, a, b, j);
    var k: nat :| k >= 1 && Walk(arcs, b, c, k);
    WalkConcat(arcs, a, b, c, j, k);
  }

  /** A set that holds the successors of `a` and is closed under successors holds all that `a` reaches. */
  lemma {:induction false} ClosedHoldsReachable<N(!new)>(arcs: Arcs<N>, a: N, b: N, k: nat, s: set<N>)
    requires k >= 1 && Walk(arcs, a, b, k)
    requires forall x, y :: (x, y) in arcs && (x == a || x in s) ==> y in s
    ensures b in s
    decreases k
  {
    var c :| Walk(arcs, a, c, k - 1) && (c, b) in arcs;
    if k == 1 {
    } else {
      ClosedHoldsReachable(arcs, a, c, k - 1, s);
    }
  }

  /** A longer walk into `n` contains every shorter one. */
  lemma {:induction false} DeepShorter<N(!new)>(arcs: Arcs<N>, n: N, j: nat, k: nat)
    requires j <= k && Deep(arcs, n, k)
    ensures Deep(arcs, n, j)
    decreases k
  {
    if j == 0 {
    } else {
      var p :| (p, n) in arcs && Deep(arcs, p, k - 1);
      DeepShorter(arcs, p, j - 1, k - 1);
    }
  }

  /** A node has at most one level. */
  lemma LevelUnique<N(!new)>(arcs: Arcs<N>, n: N, l: nat, m: nat)
    requires IsLevel(arcs, n, l) && IsLevel(arcs, n, m)
    ensures l == m
  {
    if l < m {
      DeepShorter(arcs, n, l + 1, m);
    } else if m < l {
      DeepShorter(arcs, n, m + 1, l);
    }
  }

  /** Every arc leads to a strictly later level. */
  lemma ArcsClimb<N(!new)>(arcs: Arcs<N>, a: N, b: N, l: nat, m: nat)
    requires (a, b) in arcs && IsLevel(arcs, a, l) && IsLevel(arcs, b, m)
    ensures l < m
  {
    assert Deep(arcs, b, l + 1);
    if m <= l {
      DeepShorter(arcs, b, m + 1, l + 1);
    }
  }

  lemma {:induction false} WalkIsDeep<N(!new)>(arcs: Arcs<N>, a: N, b: N, k: nat)
    requires Walk(arcs, a, b, k)
    ensures Deep(arcs, b, k)
    decreases k
  {
    if k == 0 {
    } else {
      var c :| Walk(arcs, a, c, k - 1) && (c, b) in arcs;
      WalkIsDeep(arcs, a, c, k - 1);
    }
  }

  /** A cycle can be walked as often as one likes. */
  lemma {:induction false} LongLoop<N(!new)>(arcs: Arcs<N>, x: N, least: nat) returns (k: nat)
    requires Reaches(arcs, x, x)
    ensures k >= least && Walk(arcs, x, x, k)
    decreases least
  {
    if least == 0 {
      k := 0;
    } else {
      var before := LongLoop(arcs, x, least - 1);
      var once: nat :| once >= 1 && Walk(arcs, x, x, once);
      WalkConcat(arcs, x, x, x, before, once);
      k := before + once;
    }
  }

  lemma BelowLoopIsDeep<N(!new)>(arcs: Arcs<N>, x: N, n: N, level: nat)
    requires Reaches(arcs, x, x) && (x == n || Reaches(arcs, x, n))
    ensures Deep(arcs, n, level)
  {
    var loop := LongLoop(arcs, x, level);
    var on: nat := 0;
    if x != n { on :| Walk(arcs, x, n, on); }
    WalkConcat(arcs, x, x, n, loop, on);
    WalkIsDeep(arcs, x, n, loop + on);
    DeepShorter(arcs, n, level, loop + on);
  }

  /** Only nodes that no cycle leads to have a level. */
  lemma LevelIsRooted<N(!new)>(arcs: Arcs<N>, n: N, level: nat)
    requires IsLevel(arcs, n, level)
    ensures Rooted(arcs, n)
  {
    if Reaches(arcs, n, n) { BelowLoopIsDeep(arcs, n, n, level + 1); }
    forall x | Reaches(arcs, x, n) ensures !Reaches(arcs, x, x) {
      if Reaches(arcs, x, x) { BelowLoopIsDeep(arcs, x, n, level + 1); }
    }
  }

  /** A numbering in which every arc climbs leaves no room for a cycle. */
  lemma {:induction false} ClimbingWalk<N(!new)>(arcs: Arcs<N>, column: map<N, int>, a: N, b: N, k: nat)
    requires forall x, y :: (x, y) in arcs ==> x in column && y in column && column[x] < column[y]
    requires Walk(arcs, a, b, k) && k >= 1
    ensures a in column && b in column && column[a] < column[b]
    decreases k
  {
    var c :| Walk(arcs, a, c, k - 1) && (c, b) in arcs;
    if k == 1 {
    } else {
      ClimbingWalk(arcs, column, a, c, k - 1);
    }
  }

  lemma ClimbingIsAcyclic<N(!new)>(arcs: Arcs<N>, column: map<N, int>)
    requires forall x, y :: (x, y) in arcs ==> x in column && y in column && column[x] < column[y]
    ensures Acyclic(arcs)
  {
    forall n | Reaches(arcs, n, n) ensures false {
      var k: nat :| k >= 1 && Walk(arcs, n, n, k);
      ClimbingWalk(arcs, column, n, n, k);
    }
  }

  lemma {:induction false} WalkInMore<N(!new)>(fewer: Arcs<N>, arcs: Arcs<N>, a: N, b: N, k: nat)
    requires fewer <= arcs && Walk(fewer, a, b, k)
    ensures Walk(arcs, a, b, k)
    decreases k
  {
    if k == 0 {
    } else {
      var c :| Walk(fewer, a, c, k - 1) && (c, b) in fewer;
      WalkInMore(fewer, arcs, a, c, k - 1);
    }
  }

  lemma FewerArcsStayRooted<N(!new)>(fewer: Arcs<N>, arcs: Arcs<N>, n: N)
    requires fewer <= arcs && Rooted(arcs, n)
    ensures Rooted(fewer, n)
  {
    forall x, y | Reaches(fewer, x, y) ensures Reaches(arcs, x, y) {
      var k: nat :| k >= 1 && Walk(fewer, x, y, k);
      WalkInMore(fewer, arcs, x, y, k);
    }
  }

  /** A walk written out as its nodes, without repetition. */
  ghost predicate SimplePath<N(!new)>(arcs: Arcs<N>, path: seq<N>) {
    && (forall i :: 0 <= i < |path| - 1 ==> (path[i], path[i + 1]) in arcs)
    && (forall i, j :: 0 <= i < j < |path| ==> path[i] != path[j])
  }

  lemma {:induction false} PathWalk<N(!new)>(arcs: Arcs<N>, path: seq<N>, i: nat, j: nat)
    requires i <= j < |path|
    requires forall m :: 0 <= m < |path| - 1 ==> (path[m], path[m + 1]) in arcs
    ensures Walk(arcs, path[i], path[j], j - i)
    decreases j
  {
    if i == j {
    } else {
      PathWalk(arcs, path, i, j - 1);
      assert (path[j - 1], path[j - 1 + 1]) in arcs;
    }
  }

  lemma {:induction false} DistinctFits<N>(path: seq<N>, u: set<N>)
    requires forall i, j :: 0 <= i < j < |path| ==> path[i] != path[j]
    requires forall i :: 0 <= i < |path| ==> path[i] in u
    ensures |path| <= |u|
    decreases |path|
  {
    if path == [] {
    } else {
      var last := path[|path| - 1];
      DistinctFits(path[..|path| - 1], u - {last});
    }
  }

  /** `x` has an arc to a member of `u`. */
  ghost predicate StaysIn<N(!new)>(arcs: Arcs<N>, u: set<N>, x: N) {
    exists y :: y in u && (x, y) in arcs
  }

  lemma ExtendPath<N(!new)>(arcs: Arcs<N>, path: seq<N>, next: N)
    requires Acyclic(arcs) && path != [] && SimplePath(arcs, path)
    requires (path[|path| - 1], next) in arcs
    ensures SimplePath(arcs, path + [next])
  {
    forall i | 0 <= i < |path| ensures path[i] != next {
      if path[i] == next {
        PathWalk(arcs, path, i, |path| - 1);
        assert Walk(arcs, next, next, |path| - 1 - i + 1);
        assert Reaches(arcs, next, next);
      }
    }
  }

  /** In an acyclic graph no finite nonempty set has, for each member, an arc to a member. */
  lemma {:induction false} NoEndlessPath<N(!new)>(arcs: Arcs<N>, u: set<N>, path: seq<N>)
    requires Acyclic(arcs)
    requires forall x :: x in u ==> StaysIn(arcs, u, x)
    requires path != [] && SimplePath(arcs, path)
    requires forall i :: 0 <= i < |path| ==> path[i] in u
    ensures false
    decreases |u| + 1 - |path|
  {
    DistinctFits(path, u);
    var last := path[|path| - 1];
    assert StaysIn(arcs, u, last);
    var next :| next in u && (last, next) in arcs;
    ExtendPath(arcs, path, next);
    NoEndlessPath(arcs, u, path + [next]);
  }

  /** Every finite nonempty set of nodes of an acyclic graph has a member with no arc into the set. */
  lemma AcyclicHasSink<N(!new)>(arcs: Arcs<N>, u: set<N>) returns (sink: N)
    requires Acyclic(arcs) && u != {}
    ensures sink in u && !StaysIn(arcs, u, sink)
  {
    if forall x :: x in u ==> StaysIn(arcs, u, x) {
      var x :| x in u;
      NoEndlessPath(arcs, u, [x]);
    }
    sink :| sink in u && !StaysIn(arcs, u, sink);
  }
}
