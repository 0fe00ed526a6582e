/** The work graph of the web client: adjacency, descendants, collapse, columns and layout
    (apps/web/components/graph-view.tsx). */
module GraphView {
  import opened Digraph

  const NODE_WIDTH := 228
  const NODE_HEIGHT := 114
  const COLUMN_GAP := 76
  const ROW_GAP := 24

  datatype CardKind = Decision | Job | Artifact

  datatype Card = Card(id: string, kind: CardKind, ref: string)

  datatype EdgeKind = Supersedes | Linked | Parent | ArtifactOf | Dependency | Blocked

  datatype Edge = Edge(kind: EdgeKind, source: string, target: string)

  type Adjacency = map<string, seq<string>>

  datatype End = Source | Target

  function Near(e: Edge, key: End): string {
    if key == Source then e.source else e.target
  }

  function Far(e: Edge, key: End): string {
    if key == Source then e.target else e.source
  }

  /** The far ends of the edges at `n`, in edge order. */
  ghost function Neighbours(edges: seq<Edge>, key: End, n: string): seq<string> {
    if edges == [] then []
    else
      var e := edges[|edges| - 1];
      Neighbours(edges[..|edges| - 1], key, n) + if Near(e, key) == n then [Far(e, key)] else []
  }

  ghost predicate IsAdjacency(adjacency: Adjacency, edges: seq<Edge>, key: End) {
    forall n :: if n in adjacency then adjacency[n] == Neighbours(edges, key, n) && adjacency[n] != []
                else Neighbours(edges, key, n) == []
  }

  ghost function ArcsOf(edges: seq<Edge>): Arcs<string> {
    set e | e in edges :: (e.source, e.target)
  }

  /** Neighbours along either key are exactly the arcs, read forwards or backwards. */
  lemma {:induction false} NeighboursAreArcs(edges: seq<Edge>, key: End, n: string, m: string)
    ensures m in Neighbours(edges, key, n) <==>
            (if key == Source then (n, m) else (m, n)) in ArcsOf(edges)
    decreases |edges|
  {
    if edges == [] {
    } else {
      var init, e := edges[..|edges| - 1], edges[|edges| - 1];
      NeighboursAreArcs(init, key, n, m);
      assert edges == init + [e];
      assert ArcsOf(edges) == ArcsOf(init) + {(e.source, e.target)};
    }
  }

  method BuildAdjacency(edges: seq<Edge>, key: End) returns (adjacency: Adjacency)
    ensures IsAdjacency(adjacency, edges, key)
  {
    adjacency := map[];
    for i := 0 to |edges|
      invariant IsAdjacency(adjacency, edges[..i], key)
    {
      var from, to := Near(edges[i], key), Far(edges[i], key);
      assert edges[..i + 1][..i] == edges[..i];
      if from !in adjacency {
        adjacency := adjacency[from := []];
      }
      adjacency := adjacency[from := adjacency[from] + [to]];
    }
    assert edges[..|edges|] == edges;
  }

  // ----- descendants

  /** The arcs a descendant search follows; the empty id counts as no id. */
  ghost function Followed(adjacency: Adjacency): Arcs<string> {
    set a, b | a in adjacency && b in adjacency[a] && b != "" :: (a, b)
  }

  lemma FollowedIsArcs(adjacency: Adjacency, edges: seq<Edge>)
    requires IsAdjacency(adjacency, edges, Source)
    requires forall e :: e in edges ==> e.target != ""
    ensures Followed(adjacency) == ArcsOf(edges)
  {
    forall a, b ensures (a, b) in Followed(adjacency) <==> (a, b) in ArcsOf(edges) {
      NeighboursAreArcs(edges, Source, a, b);
    }
  }

  function Known(adjacency: Adjacency): set<string> {
    set a, b | a in adjacency && b in adjacency[a] :: b
  }

  function Children(adjacency: Adjacency, n: string): seq<string> {
    if n in adjacency then adjacency[n] else []
  }

  /** Exactly the nodes reached over one or more arcs, each listed once, on cyclic graphs too. */
  method CollectDescendants(root: string, adjacency: Adjacency) returns (descendants: seq<string>)
    ensures forall n :: n in descendants <==> Reaches(Followed(adjacency), root, n)
    ensures forall i, j :: 0 <= i < j < |descendants| ==> descendants[i] != descendants[j]
  {
    ghost var arcs := Followed(adjacency);
    descendants := [];
    var queue := Children(adjacency, root);
    forall x | x in queue && x != "" ensures Reaches(arcs, root, x) { ArcReaches(arcs, root, x); }
    while queue != []
      invariant forall i, j :: 0 <= i < j < |descendants| ==> descendants[i] != descendants[j]
      invariant forall x :: x in descendants ==> x in Known(adjacency)
      invariant forall x :: x in queue ==> x in Known(adjacency)
      invariant forall x :: x in descendants ==> Reaches(arcs, root, x)
      invariant forall x :: x in queue && x != "" ==> Reaches(arcs, root, x)
      invariant forall x, y :: (x, y) in arcs && (x == root || x in descendants) ==> y in descendants || y in queue
      decreases Known(adjacency) - Elements(descendants), |queue|
    {
      var next := queue[0];
      ghost var before := queue;
      queue := queue[1..];
      assert before == [next] + queue;
      if next == "" || next in descendants {
        continue;
      }
      ghost var seen := Elements(descendants);
      descendants := descendants + [next];
      assert Elements(descendants) == seen + {next};
      assert next in Known(adjacency) - seen;
      forall y | (next, y) in arcs ensures Reaches(arcs, root, y) {
        ArcReaches(arcs, next, y);
        ReachesTrans(arcs, root, next, y);
      }
      queue := queue + Unseen(Children(adjacency, next), descendants);
    }
    forall n | Reaches(arcs, root, n) ensures n in descendants {
      var k: nat :| k >= 1 && Walk(arcs, root, n, k);
      ClosedHoldsReachable(arcs, root, n, k, Elements(descendants));
    }
  }

  /** The inner loop that queues only children not yet collected. */
  function Unseen(children: seq<string>, descendants: seq<string>): (r: seq<string>)
    ensures forall x :: x in r <==> x in children && x !in descendants
  {
    if children == [] then []
    else (if children[0] in descendants then [] else [children[0]]) + Unseen(children[1..], descendants)
  }

  // ----- collapse

  /** The nodes that some collapsed root reaches. */
  ghost predicate HiddenBy(arcs: Arcs<string>, roots: set<string>, n: string) {
    exists r :: r in roots && Reaches(arcs, r, n)
  }

  /** Hiding spreads along arcs, so a visible node keeps every predecessor. */
  lemma HiddenSpreads(arcs: Arcs<string>, roots: set<string>, a: string, b: string)
    requires (a, b) in arcs && HiddenBy(arcs, roots, a)
    ensures HiddenBy(arcs, roots, b)
  {
    var r :| r in roots && Reaches(arcs, r, a);
    ArcReaches(arcs, a, b);
    ReachesTrans(arcs, r, a, b);
  }

  ghost function VisibleArcs(arcs: Arcs<string>, roots: set<string>): Arcs<string> {
    set arc | arc in arcs && !HiddenBy(arcs, roots, arc.0) && !HiddenBy(arcs, roots, arc.1)
  }

  lemma {:induction false} VisibleDepth(arcs: Arcs<string>, roots: set<string>, n: string, k: nat)
    requires !HiddenBy(arcs, roots, n)
    ensures Deep(VisibleArcs(arcs, roots), n, k) <==> Deep(arcs, n, k)
    decreases k
  {
    if k == 0 {
    } else {
      forall p | (p, n) in arcs
        ensures (p, n) in VisibleArcs(arcs, roots)
        ensures Deep(VisibleArcs(arcs, roots), p, k - 1) <==> Deep(arcs, p, k - 1)
      {
        if HiddenBy(arcs, roots, p) { HiddenSpreads(arcs, roots, p, n); }
        VisibleDepth(arcs, roots, p, k - 1);
      }
    }
  }

  /** Collapsing any set of roots leaves every visible node on its level. */
  lemma CollapseKeepsLevels(arcs: Arcs<string>, roots: set<string>, n: string, level: nat)
    requires !HiddenBy(arcs, roots, n)
    ensures IsLevel(VisibleArcs(arcs, roots), n, level) <==> IsLevel(arcs, n, level)
  {
    VisibleDepth(arcs, roots, n, level);
    VisibleDepth(arcs, roots, n, level + 1);
  }

  // ----- columns

  ghost function Targets(edges: seq<Edge>): set<string> {
    set e | e in edges :: e.target
  }

  lemma PredecessorsMakeTarget(edges: seq<Edge>, n: string)
    requires Neighbours(edges, Target, n) != []
    ensures n in Targets(edges)
  {
    NeighboursAreArcs(edges, Target, n, Neighbours(edges, Target, n)[0]);
  }

  /** What the level search leaves in the cache and answers for `id`: on a graph with cycles the answer depends on what
      was asked before. */
  ghost function LevelSearch(edges: seq<Edge>, cache: map<string, nat>, visiting: set<string>, id: string)
    : (map<string, nat>, nat)
    decreases Targets(edges) - visiting, 0, 0
  {
    if id in cache then (cache, cache[id])
    else if id in visiting || Neighbours(edges, Target, id) == [] then
      (if id in visiting then cache else cache[id := 0], 0)
    else
      PredecessorsMakeTarget(edges, id);
      var (after, best) := HighestSearch(edges, cache, visiting + {id}, Neighbours(edges, Target, id));
      (after[id := best + 1], best + 1)
  }

  ghost function HighestSearch(edges: seq<Edge>, cache: map<string, nat>, visiting: set<string>, ids: seq<string>)
    : (map<string, nat>, nat)
    decreases Targets(edges) - visiting, 1, |ids|
  {
    if ids == [] then (cache, 0)
    else
      var (before, best) := HighestSearch(edges, cache, visiting, ids[..|ids| - 1]);
      var (after, here) := LevelSearch(edges, before, visiting, ids[|ids| - 1]);
      (after, Max(best, here))
  }

  /** What the search has found for `id` while it was being visited, before the level is stored. */
  ghost predicate Found(edges: seq<Edge>, cache: map<string, nat>, visiting: set<string>, id: string,
                        after: map<string, nat>, level: nat) {
    var predecessors := Neighbours(edges, Target, id);
    if predecessors == [] then after == cache && level == 0
    else level > 0 && HighestSearch(edges, cache, visiting, predecessors) == (after, level - 1)
  }

  lemma FoundIsSearched(edges: seq<Edge>, cache: map<string, nat>, visiting: set<string>, inner: set<string>,
                        id: string, after: map<string, nat>, level: nat)
    requires id !in cache && id !in visiting && inner == visiting + {id} && Found(edges, cache, inner, id, after, level)
    ensures LevelSearch(edges, cache, visiting, id) == (after[id := level], level)
  {
  }

  lemma ChildrenAreNeighbours(adjacency: Adjacency, edges: seq<Edge>, key: End, n: string)
    requires IsAdjacency(adjacency, edges, key)
    ensures Children(adjacency, n) == Neighbours(edges, key, n)
  {
  }

  /** The cache once the cards have been asked for in this order. */
  ghost function AskedInOrder(edges: seq<Edge>, cards: seq<Card>): map<string, nat> {
    if cards == [] then map[]
    else LevelSearch(edges, AskedInOrder(edges, cards[..|cards| - 1]), {}, cards[|cards| - 1].id).0
  }

  lemma AskedNext(edges: seq<Edge>, cards: seq<Card>, i: nat)
    requires i < |cards|
    ensures AskedInOrder(edges, cards[..i + 1])
         == LevelSearch(edges, AskedInOrder(edges, cards[..i]), {}, cards[i].id).0
  {
    assert cards[..i + 1][..i] == cards[..i];
  }

  /** The columns are what the search answers when the cards are asked for in this order. */
  ghost predicate Answers(edges: seq<Edge>, cards: seq<Card>, column: map<string, nat>) {
    forall n :: n in column ==> n in AskedInOrder(edges, cards) && column[n] == AskedInOrder(edges, cards)[n]
  }

  /** The memo table and the cycle guard that the level search shares. */
  class LevelTable {
    const incoming: Adjacency
    ghost const edges: seq<Edge>
    ghost const arcs: Arcs<string>
    var levelCache: map<string, nat>
    var visiting: set<string>

    ghost predicate Valid()
      reads this
    {
      && IsAdjacency(incoming, edges, Target)
      && (forall p, n :: (p, n) in arcs <==> n in incoming && p in incoming[n])
      && Levelled(arcs, levelCache)
      && levelCache.Keys !! visiting
    }

    constructor (incoming: Adjacency, edges: seq<Edge>)
      requires IsAdjacency(incoming, edges, Target)
      ensures Valid() && visiting == {} && levelCache == map[] && arcs == ArcsOf(edges) && this.edges == edges
    {
      this.incoming, this.edges, this.arcs := incoming, edges, ArcsOf(edges);
      levelCache, visiting := map[], {};
      new;
      forall p, n ensures (p, n) in arcs <==> n in incoming && p in incoming[n] {
        NeighboursAreArcs(edges, Target, n, p);
      }
    }

    /** Terminates on every graph. The level is always the length of some chain into the node and never
        more than the number of nodes levelled so far; unless a cycle leads to the node it is the longest. */
    method LevelFor(id: string) returns (level: nat)
      requires Valid() && Guarded(arcs, visiting, id)
      modifies this
      ensures Valid() && visiting == old(visiting) && Grows(old(levelCache), levelCache)
      ensures if id in visiting then level == 0 else id in levelCache && level == levelCache[id]
      ensures Attained(arcs, id, level) && level <= |levelCache|
      ensures (levelCache, level) == LevelSearch(edges, old(levelCache), visiting, id)
      decreases incoming.Keys - visiting, 2
    {
      if id in levelCache {
        return levelCache[id];
      }
      if id in visiting {
        return 0;
      }
      level := Visit(id);
    }

    /** The part of the search that runs for a node neither cached nor being visited. */
    method Visit(id: string) returns (level: nat)
      requires Valid() && Guarded(arcs, visiting, id) && id !in levelCache && id !in visiting
      modifies this
      ensures Valid() && visiting == old(visiting) && Grows(old(levelCache), levelCache)
      ensures id in levelCache && level == levelCache[id]
      ensures (levelCache, level) == LevelSearch(edges, old(levelCache), visiting, id)
      decreases incoming.Keys - visiting, 1
    {
      visiting := visiting + {id};
      assert visiting - {id} == old(visiting);
      level := LevelAbove(id);
      FoundIsSearched(edges, old(levelCache), old(visiting), visiting, id, levelCache, level);
      visiting := visiting - {id};
      AddLevel(arcs, levelCache, id, level);
      levelCache := levelCache[id := level];
    }

    /** The part that runs while the node is being visited: one more than its highest predecessor. */
    method LevelAbove(id: string) returns (level: nat)
      requires Valid() && id in visiting && id !in levelCache && Guarded(arcs, visiting - {id}, id)
      modifies this
      ensures Valid() && visiting == old(visiting) && Grows(old(levelCache), levelCache)
      ensures Attained(arcs, id, level) && level <= |levelCache| + 1
      ensures Found(edges, old(levelCache), visiting, id, levelCache, level)
      decreases incoming.Keys - (visiting - {id}), 0
    {
      var predecessors := Children(incoming, id);
      ghost var outer := visiting - {id};
      ChildrenAreNeighbours(incoming, edges, Target, id);
      assert outer + {id} == visiting;
      if predecessors == [] {
        level := 0;
      } else {
        PredecessorsGuarded(arcs, outer, predecessors, id);
        var best := HighestOf(predecessors);
        level := best + 1;
      }
      LevelIsAttained(arcs, levelCache, visiting, predecessors, id, level);
    }

    /** The greatest level among `ids`: that of a levelled one, or 0. */
    method HighestOf(ids: seq<string>) returns (best: nat)
      requires Valid() && forall i :: 0 <= i < |ids| ==> Guarded(arcs, visiting, ids[i])
      modifies this
      ensures Valid() && visiting == old(visiting) && Grows(old(levelCache), levelCache)
      ensures IsHighest(ids, levelCache, visiting, best)
      ensures (levelCache, best) == HighestSearch(edges, old(levelCache), visiting, ids)
      decreases incoming.Keys - visiting, 3
    {
      best := 0;
      for i := 0 to |ids|
        invariant Valid() && visiting == old(visiting) && Grows(old(levelCache), levelCache)
        invariant IsHighest(ids[..i], levelCache, visiting, best)
        invariant (levelCache, best) == HighestSearch(edges, old(levelCache), visiting, ids[..i])
      {
        assert ids[..i + 1][..i] == ids[..i];
        ghost var before := levelCache;
        var here := LevelFor(ids[i]);
        HighestStep(ids, i, before, levelCache, visiting, best, here);
        best := Max(best, here);
      }
      assert ids[..|ids|] == ids;
    }
  }

  /** `best` is the greatest level of the levelled members of `ids`, and 0 when all of them are 0. */
  ghost predicate IsHighest(ids: seq<string>, cache: map<string, nat>, visiting: set<string>, best: nat) {
    && (forall n :: n in ids && n !in visiting ==> n in cache && cache[n] <= best)
    && (best == 0 || exists n :: n in ids && n in cache && cache[n] == best)
  }

  lemma HighestStep(ids: seq<string>, i: nat, before: map<string, nat>, after: map<string, nat>,
                    visiting: set<string>, best: nat, here: nat)
    requires i < |ids| && Grows(before, after) && IsHighest(ids[..i], before, visiting, best)
    requires if ids[i] in visiting then here == 0 else ids[i] in after && here == after[ids[i]]
    ensures IsHighest(ids[..i + 1], after, visiting, Max(best, here))
  {
    assert ids[..i + 1] == ids[..i] + [ids[i]];
    if best < here {
      assert ids[i] in ids[..i + 1] && after[ids[i]] == here;
    } else if best != 0 {
      var n :| n in ids[..i] && n in before && before[n] == best;
      assert n in ids[..i + 1] && after[n] == best;
    }
  }

  ghost predicate Grows(before: map<string, nat>, after: map<string, nat>) {
    |before| <= |after| && forall n :: n in before ==> n in after && after[n] == before[n]
  }

  ghost predicate Levelled(arcs: Arcs<string>, cache: map<string, nat>) {
    forall n :: n in cache ==> cache[n] <= |cache| && Attained(arcs, n, cache[n])
  }

  /** Some chain into `n` has exactly `level` arcs, and unless a cycle leads to `n` none has more. */
  ghost predicate Attained(arcs: Arcs<string>, n: string, level: nat) {
    Deep(arcs, n, level) && (Rooted(arcs, n) ==> IsLevel(arcs, n, level))
  }

  /** Everything being visited lies above `id`. */
  ghost predicate Guarded(arcs: Arcs<string>, visiting: set<string>, id: string) {
    forall v :: v in visiting ==> Reaches(arcs, id, v)
  }

  /** Levels do not depend on the order in which nodes are asked for: two searches agree on every node that no
      cycle leads to. */
  lemma SearchesAgree(arcs: Arcs<string>, n: string, a: nat, b: nat)
    requires Attained(arcs, n, a) && Attained(arcs, n, b) && Rooted(arcs, n)
    ensures a == b
  {
    LevelUnique(arcs, n, a, b);
  }

  /** Walking upwards, a predecessor is among the nodes being visited only below a cycle. */
  lemma GuardNeverFires(arcs: Arcs<string>, visiting: set<string>, p: string, id: string)
    requires (p, id) in arcs && Guarded(arcs, visiting, id)
    ensures Guarded(arcs, visiting + {id}, p)
    ensures Rooted(arcs, id) ==> p !in visiting + {id} && Rooted(arcs, p)
  {
    ArcReaches(arcs, p, id);
    forall v | v in visiting ensures Reaches(arcs, p, v) {
      ReachesTrans(arcs, p, id, v);
    }
    forall x | Reaches(arcs, x, p) ensures Reaches(arcs, x, id) {
      ReachesTrans(arcs, x, p, id);
    }
  }

  lemma PredecessorsGuarded(arcs: Arcs<string>, visiting: set<string>, predecessors: seq<string>, id: string)
    requires Guarded(arcs, visiting, id) && forall p :: p in predecessors ==> (p, id) in arcs
    ensures forall i :: 0 <= i < |predecessors| ==> Guarded(arcs, visiting + {id}, predecessors[i])
    ensures Rooted(arcs, id) ==> forall p :: p in predecessors ==> p !in visiting + {id} && Rooted(arcs, p)
  {
    forall p | p in predecessors
      ensures Guarded(arcs, visiting + {id}, p) && (Rooted(arcs, id) ==> p !in visiting + {id} && Rooted(arcs, p))
    {
      GuardNeverFires(arcs, visiting, p, id);
    }
  }

  /** One more than the greatest level among the predecessors is attained, or 0 without predecessors. */
  lemma LevelIsAttained(arcs: Arcs<string>, cache: map<string, nat>, visiting: set<string>, ids: seq<string>,
                        id: string, level: nat)
    requires (forall p :: p in ids <==> (p, id) in arcs) && Levelled(arcs, cache)
    requires if ids == [] then level == 0 else level > 0 && IsHighest(ids, cache, visiting, level - 1)
    requires Rooted(arcs, id) ==> forall p :: p in ids ==> p !in visiting && Rooted(arcs, p)
    ensures Attained(arcs, id, level) && level <= |cache| + 1
  {
    if ids == [] {
      assert !Deep(arcs, id, 1);
      return;
    }
    var best := level - 1;
    if best == 0 {
      assert (ids[0], id) in arcs && Deep(arcs, ids[0], 0);
    } else {
      var n :| n in ids && n in cache && cache[n] == best;
      assert (n, id) in arcs && Attained(arcs, n, best);
    }
    if Rooted(arcs, id) && Deep(arcs, id, best + 2) {
      var p :| (p, id) in arcs && Deep(arcs, p, best + 1);
      assert Attained(arcs, p, cache[p]);
      DeepShorter(arcs, p, cache[p] + 1, best + 1);
    }
  }

  lemma AddLevel(arcs: Arcs<string>, cache: map<string, nat>, id: string, level: nat)
    requires Levelled(arcs, cache) && id !in cache && level <= |cache| + 1
    requires Attained(arcs, id, level)
    ensures Levelled(arcs, cache[id := level]) && |cache[id := level]| == |cache| + 1
  {
    var after := cache[id := level];
    assert after.Keys == cache.Keys + {id};
    assert |after| == |after.Keys| == |cache.Keys| + 1 == |cache| + 1;
  }

  /** Columns made of attained levels send every arc to a later column exactly when the graph has no cycle. */
  lemma ColumnsClimbIffAcyclic(arcs: Arcs<string>, column: map<string, int>)
    requires forall x, y :: (x, y) in arcs ==> x in column && y in column
    requires forall n :: n in column ==> column[n] >= 0 && Attained(arcs, n, column[n])
    ensures Acyclic(arcs) <==> forall x, y :: (x, y) in arcs ==> column[x] < column[y]
  {
    if Acyclic(arcs) {
      forall x, y | (x, y) in arcs ensures column[x] < column[y] {
        ArcsClimb(arcs, x, y, column[x], column[y]);
      }
    } else if forall x, y :: (x, y) in arcs ==> column[x] < column[y] {
      ClimbingIsAcyclic(arcs, column);
    }
  }

  // ----- layout

  datatype Position = Position(x: int, y: int)

  datatype Layout = Layout(positions: map<string, Position>, width: int, height: int)

  function Cell(level: nat, row: nat): Position {
    Position(level * (NODE_WIDTH + COLUMN_GAP), row * (NODE_HEIGHT + ROW_GAP))
  }

  function Min(a: int, b: int): int { if a < b then a else b }

  function Max(a: int, b: int): int { if a < b then b else a }

  function NormalizePosition(position: Position, width: int, height: int): Position {
    Position(Min(position.x + 40, Max(width - NODE_WIDTH, 0)),
             Min(position.y + 40, Max(height - NODE_HEIGHT, 0)))
  }

  /** Where the client draws a card. */
  function Drawn(layout: Layout, n: string): Position
    requires n in layout.positions
  {
    NormalizePosition(layout.positions[n], layout.width, layout.height)
  }

  function Ids(cards: seq<Card>): (ids: set<string>) {
    set c | c in cards :: c.id
  }

  ghost predicate DistinctIds(cards: seq<Card>) {
    forall i, j :: 0 <= i < j < |cards| ==> cards[i].id != cards[j].id
  }

  /** Two card rectangles at these corners share no point. */
  ghost predicate Apart(p: Position, q: Position) {
    p.x + NODE_WIDTH <= q.x || q.x + NODE_WIDTH <= p.x || p.y + NODE_HEIGHT <= q.y || q.y + NODE_HEIGHT <= p.y
  }

  /** The card rectangle at this corner lies inside the canvas. */
  ghost predicate Inside(p: Position, width: int, height: int) {
    0 <= p.x && p.x + NODE_WIDTH <= width && 0 <= p.y && p.y + NODE_HEIGHT <= height
  }

  /** Where each card went: its column, its row, and no two cards in one cell. */
  ghost predicate OnGrid(ids: set<string>, positions: map<string, Position>, column: map<string, nat>,
                         row: map<string, nat>) {
    && positions.Keys == column.Keys == row.Keys == ids
    && (forall n :: n in ids ==> positions[n] == Cell(column[n], row[n]))
    && (forall m, n :: m in ids && n in ids && m != n ==> column[m] != column[n] || row[m] != row[n])
  }

  /** The canvas that `maxColumn` and `maxRows` give, just large enough for every cell used. */
  ghost predicate Sized(layout: Layout, column: map<string, nat>, row: map<string, nat>, maxColumn: nat, maxRows: nat) {
    && layout.width == (maxColumn + 1) * NODE_WIDTH + maxColumn * COLUMN_GAP + 80
    && layout.height == maxRows * NODE_HEIGHT + (maxRows - 1) * ROW_GAP + 80
    && (forall n :: n in column ==> column[n] <= maxColumn)
    && (forall n :: n in row ==> row[n] < maxRows)
    && (maxColumn == 0 || exists n :: n in column && column[n] == maxColumn)
    && (maxRows == 1 || exists n :: n in row && row[n] == maxRows - 1)
  }

  /** Cells keep cards apart and inside the canvas, so the clamp of `NormalizePosition` never takes effect. */
  lemma GridGeometry(ids: set<string>, layout: Layout, column: map<string, nat>, row: map<string, nat>,
                     maxColumn: nat, maxRows: nat)
    requires OnGrid(ids, layout.positions, column, row) && Sized(layout, column, row, maxColumn, maxRows)
    ensures forall n :: n in ids ==>
              var p := Drawn(layout, n);
              p == Position(Cell(column[n], row[n]).x + 40, Cell(column[n], row[n]).y + 40)
              && Inside(p, layout.width, layout.height)
    ensures forall m, n :: m in ids && n in ids && m != n ==>
              Apart(Drawn(layout, m), Drawn(layout, n))
  {
    forall n | n in ids
      ensures Drawn(layout, n) == Position(Cell(column[n], row[n]).x + 40, Cell(column[n], row[n]).y + 40)
    {
      assert layout.positions[n] == Cell(column[n], row[n]);
      assert column[n] <= maxColumn && row[n] < maxRows;
    }
  }

  /** The cards whose column is `level`, in the order given. */
  ghost function ColumnOf(cards: seq<Card>, column: map<string, nat>, level: nat): seq<Card> {
    if cards == [] then []
    else
      var last := cards[|cards| - 1];
      ColumnOf(cards[..|cards| - 1], column, level)
        + if last.id in column && column[last.id] == level then [last] else []
  }

  /** `columns` lists the nonempty columns. */
  ghost predicate Grouped(cards: seq<Card>, column: map<string, nat>, columns: map<nat, seq<Card>>) {
    && column.Keys == Ids(cards)
    && forall l :: if l in columns then columns[l] == ColumnOf(cards, column, l) && columns[l] != []
                   else ColumnOf(cards, column, l) == []
  }

  lemma {:induction false} ColumnMembers(cards: seq<Card>, column: map<string, nat>, level: nat)
    requires DistinctIds(cards)
    ensures DistinctIds(ColumnOf(cards, column, level))
    ensures forall c :: c in ColumnOf(cards, column, level) <==> c in cards && c.id in column && column[c.id] == level
    decreases |cards|
  {
    if cards == [] {
    } else {
      var init, last := cards[..|cards| - 1], cards[|cards| - 1];
      ColumnMembers(init, column, level);
      assert cards == init + [last];
    }
  }

  lemma {:induction false} ColumnIgnoresOthers(cards: seq<Card>, column: map<string, nat>, id: string, level: nat,
                                               l: nat)
    requires forall c :: c in cards ==> c.id != id
    ensures ColumnOf(cards, column[id := level], l) == ColumnOf(cards, column, l)
    decreases |cards|
  {
    if cards == [] {
    } else {
      ColumnIgnoresOthers(cards[..|cards| - 1], column, id, level, l);
    }
  }

  /** Within each column before `level` the cards take their rows in the given order, without gaps. */
  ghost predicate Ranked(cards: seq<Card>, order: seq<Card> -> seq<Card>, column: map<string, nat>,
                         row: map<string, nat>, level: nat) {
    forall l: nat, i: nat :: l < level && i < |order(ColumnOf(cards, column, l))| ==>
      var n := order(ColumnOf(cards, column, l))[i].id;
      n in row && row[n] == i
  }

  /** Lays the visible cards out in columns by level, each column in an order of its own. */
  method LayoutCards(cards: seq<Card>, edges: seq<Edge>, order: seq<Card> -> seq<Card>)
    returns (layout: Layout, ghost column: map<string, nat>, ghost row: map<string, nat>, ghost maxColumn: nat,
             ghost maxRows: nat)
    requires DistinctIds(cards)
    requires forall s :: multiset(order(s)) == multiset(s)
    ensures OnGrid(Ids(cards), layout.positions, column, row) && Sized(layout, column, row, maxColumn, maxRows)
    ensures Ranked(cards, order, column, row, maxColumn + 1)
    ensures forall n :: n in column ==> Attained(ArcsOf(edges), n, column[n])
    ensures Answers(edges, cards, column)
    ensures layout.positions.Keys == column.Keys == Ids(cards)
    ensures forall n :: n in layout.positions ==> Inside(Drawn(layout, n), layout.width, layout.height)
    ensures forall m, n ::
        m in layout.positions && n in layout.positions && m != n ==> Apart(Drawn(layout, m), Drawn(layout, n))
  {
    var columns: map<nat, seq<Card>>;
    column, columns := GroupByLevel(cards, edges);
    var widest, tallest := Extent(columns);
    var positions;
    positions, row := PlaceColumns(cards, order, column, columns, widest, tallest);
    maxColumn, maxRows := widest, tallest;
    layout := Layout(positions,
                     (widest + 1) * NODE_WIDTH + widest * COLUMN_GAP + 80,
                     tallest * NODE_HEIGHT + (tallest - 1) * ROW_GAP + 80);
    PlacementFits(cards, order, column, row, columns, layout, widest, tallest);
    GridGeometry(Ids(cards), layout, column, row, maxColumn, maxRows);
  }

  /** Places the columns one after another, each sorted by itself. */
  method PlaceColumns(ghost cards: seq<Card>, order: seq<Card> -> seq<Card>, ghost column: map<string, nat>,
                      columns: map<nat, seq<Card>>, widest: nat, ghost tallest: nat)
    returns (positions: map<string, Position>, ghost row: map<string, nat>)
    requires DistinctIds(cards) && Grouped(cards, column, columns)
    requires forall s :: multiset(order(s)) == multiset(s)
    requires forall l :: l in columns ==> |columns[l]| <= tallest
    ensures PlacedBelow(widest + 1, column, row, positions, tallest)
    ensures Ranked(cards, order, column, row, widest + 1)
  {
    positions, row := map[], map[];
    for level := 0 to widest + 1
      invariant PlacedBelow(level, column, row, positions, tallest)
      invariant Ranked(cards, order, column, row, level)
    {
      ghost var oldPositions, oldRow := positions, row;
      if level in columns {
        var sorted := order(columns[level]);
        ColumnMembers(cards, column, level);
        SameCards(sorted, columns[level]);
        ColumnIsNext(cards, column, columns, level, sorted);
        positions := PlaceColumn(level, sorted, positions);
        row := StackRows(sorted, row);
        PlacedNext(level, sorted, column, oldRow, oldPositions, row, positions, tallest);
      } else {
        EmptyColumn(cards, column, columns, level);
        SameCards(order([]), []);
      }
      RankedNext(cards, order, column, oldRow, row, level);
    }
  }

  lemma EmptyColumn(cards: seq<Card>, column: map<string, nat>, columns: map<nat, seq<Card>>, level: nat)
    requires DistinctIds(cards) && Grouped(cards, column, columns) && level !in columns
    ensures ColumnOf(cards, column, level) == [] && forall n :: n in column ==> column[n] != level
  {
    ColumnsInUse(cards, column, columns);
  }

  lemma RankedNext(cards: seq<Card>, order: seq<Card> -> seq<Card>, column: map<string, nat>,
                   row: map<string, nat>, rows: map<string, nat>, level: nat)
    requires Ranked(cards, order, column, row, level)
    requires forall n :: n in row ==> n in rows && rows[n] == row[n]
    requires var sorted := order(ColumnOf(cards, column, level));
             forall i :: 0 <= i < |sorted| ==> sorted[i].id in rows && rows[sorted[i].id] == i
    ensures Ranked(cards, order, column, rows, level + 1)
  {
  }

  lemma PlacementFits(cards: seq<Card>, order: seq<Card> -> seq<Card>, column: map<string, nat>, row: map<string, nat>,
                      columns: map<nat, seq<Card>>, layout: Layout, widest: nat, tallest: nat)
    requires DistinctIds(cards) && Grouped(cards, column, columns) && Ranked(cards, order, column, row, widest + 1)
    requires forall s :: multiset(order(s)) == multiset(s)
    requires PlacedBelow(widest + 1, column, row, layout.positions, tallest)
    requires forall l :: l in columns ==> l <= widest
    requires widest == 0 || widest in columns
    requires tallest == 1 || (tallest >= 1 && exists l :: l in columns && |columns[l]| == tallest)
    requires layout.width == (widest + 1) * NODE_WIDTH + widest * COLUMN_GAP + 80
    requires layout.height == tallest * NODE_HEIGHT + (tallest - 1) * ROW_GAP + 80
    ensures OnGrid(Ids(cards), layout.positions, column, row) && Sized(layout, column, row, widest, tallest)
  {
    ColumnsInUse(cards, column, columns);
    forall n | n in column ensures column[n] <= widest && n in row {
      assert column[n] in columns;
    }
    ExtentIsUsed(cards, order, column, row, columns, widest, tallest);
  }

  lemma ExtentIsUsed(cards: seq<Card>, order: seq<Card> -> seq<Card>, column: map<string, nat>, row: map<string, nat>,
                     columns: map<nat, seq<Card>>, widest: nat, tallest: nat)
    requires DistinctIds(cards) && Grouped(cards, column, columns) && Ranked(cards, order, column, row, widest + 1)
    requires forall s :: multiset(order(s)) == multiset(s)
    requires forall l :: l in columns ==> l <= widest
    requires widest == 0 || widest in columns
    requires tallest == 1 || (tallest >= 1 && exists l :: l in columns && |columns[l]| == tallest)
    ensures widest == 0 || exists n :: n in column && column[n] == widest
    ensures tallest == 1 || exists n :: n in row && row[n] == tallest - 1
  {
    if widest != 0 {
      ColumnMembers(cards, column, widest);
      assert columns[widest][0] in ColumnOf(cards, column, widest);
    }
    if tallest != 1 {
      var l :| l in columns && |columns[l]| == tallest;
      ColumnMembers(cards, column, l);
      SameCards(order(ColumnOf(cards, column, l)), columns[l]);
      var n := order(ColumnOf(cards, column, l))[tallest - 1].id;
      assert n in row && row[n] == tallest - 1;
    }
  }

  /** The last column in use and the height of the fullest one, with the floors 0 and 1. */
  method Extent(columns: map<nat, seq<Card>>) returns (widest: nat, tallest: nat)
    ensures tallest >= 1 && forall l :: l in columns ==> l <= widest && |columns[l]| <= tallest
    ensures widest == 0 || widest in columns
    ensures tallest == 1 || exists l :: l in columns && |columns[l]| == tallest
  {
    widest, tallest := 0, 1;
    var pending := columns.Keys;
    while pending != {}
      invariant pending <= columns.Keys && tallest >= 1
      invariant forall l :: l in columns && l !in pending ==> l <= widest && |columns[l]| <= tallest
      invariant widest == 0 || widest in columns
      invariant tallest == 1 || exists l :: l in columns && |columns[l]| == tallest
    {
      var l :| l in pending;
      widest, tallest, pending := Max(widest, l), Max(tallest, |columns[l]|), pending - {l};
    }
  }

  /** Every card of a column before `level` has its cell, and no other card has one. */
  ghost predicate PlacedBelow(level: nat, column: map<string, nat>, row: map<string, nat>,
                              positions: map<string, Position>, tallest: nat) {
    && positions.Keys == row.Keys
    && (forall n :: n in row <==> n in column && column[n] < level)
    && (forall n :: n in row ==> row[n] < tallest && positions[n] == Cell(column[n], row[n]))
    && (forall m, n :: m in row && n in row && m != n ==> column[m] != column[n] || row[m] != row[n])
  }

  lemma ColumnsInUse(cards: seq<Card>, column: map<string, nat>, columns: map<nat, seq<Card>>)
    requires DistinctIds(cards) && Grouped(cards, column, columns)
    ensures forall n :: n in column ==> column[n] in columns
  {
    forall n | n in column ensures column[n] in columns {
      var c :| c in cards && c.id == n;
      ColumnMembers(cards, column, column[n]);
    }
  }

  lemma ColumnIsNext(cards: seq<Card>, column: map<string, nat>, columns: map<nat, seq<Card>>, level: nat,
                     sorted: seq<Card>)
    requires DistinctIds(cards) && Grouped(cards, column, columns) && level in columns
    requires forall c :: c in sorted <==> c in columns[level]
    ensures forall n :: n in Ids(sorted) <==> n in column && column[n] == level
  {
    ColumnMembers(cards, column, level);
    forall n | n in column && column[n] == level ensures n in Ids(sorted) {
      var c :| c in cards && c.id == n;
      assert c in columns[level];
    }
  }

  lemma PlacedNext(level: nat, sorted: seq<Card>, column: map<string, nat>,
                   row: map<string, nat>, positions: map<string, Position>,
                   rows: map<string, nat>, placed: map<string, Position>, tallest: nat)
    requires PlacedBelow(level, column, row, positions, tallest) && DistinctIds(sorted) && |sorted| <= tallest
    requires forall n :: n in Ids(sorted) <==> n in column && column[n] == level
    requires placed.Keys == rows.Keys == row.Keys + Ids(sorted)
    requires forall n :: n in row ==> rows[n] == row[n] && placed[n] == positions[n]
    requires forall i :: 0 <= i < |sorted| ==> rows[sorted[i].id] == i && placed[sorted[i].id] == Cell(level, i)
    ensures PlacedBelow(level + 1, column, rows, placed, tallest)
  {
    forall n | n in rows && n !in row
      ensures column[n] == level && rows[n] < |sorted| && sorted[rows[n]].id == n && placed[n] == Cell(level, rows[n])
    {
      var i :| 0 <= i < |sorted| && sorted[i].id == n;
    }
  }

  method GroupByLevel(cards: seq<Card>, edges: seq<Edge>)
    returns (ghost column: map<string, nat>, columns: map<nat, seq<Card>>)
    requires DistinctIds(cards)
    ensures Grouped(cards, column, columns)
    ensures forall n :: n in column ==> Attained(ArcsOf(edges), n, column[n])
    ensures Answers(edges, cards, column)
  {
    var incoming := BuildAdjacency(edges, Target);
    var table := new LevelTable(incoming, edges);
    column, columns := map[], map[];
    for i := 0 to |cards|
      invariant table.Valid() && table.visiting == {} && table.arcs == ArcsOf(edges) && fresh(table)
      invariant table.edges == edges && table.levelCache == AskedInOrder(edges, cards[..i])
      invariant forall n :: n in column ==> n in table.levelCache && column[n] == table.levelCache[n]
      invariant Grouped(cards[..i], column, columns)
      invariant forall n :: n in column ==> Attained(ArcsOf(edges), n, column[n])
    {
      AskedNext(edges, cards, i);
      var level := table.LevelFor(cards[i].id);
      NextInColumn(cards, i, column, columns, level);
      columns := columns[level := (if level in columns then columns[level] else []) + [cards[i]]];
      column := column[cards[i].id := level];
    }
    assert cards[..|cards|] == cards;
  }

  lemma ColumnGains(cards: seq<Card>, card: Card, column: map<string, nat>, level: nat, l: nat)
    requires column.Keys == Ids(cards) && card.id !in column
    ensures ColumnOf(cards + [card], column[card.id := level], l)
         == ColumnOf(cards, column, l) + if l == level then [card] else []
  {
    assert (cards + [card])[..|cards|] == cards;
    ColumnIgnoresOthers(cards, column, card.id, level, l);
  }

  lemma AddToColumn(cards: seq<Card>, card: Card, column: map<string, nat>, columns: map<nat, seq<Card>>, level: nat)
    requires Grouped(cards, column, columns) && card.id !in column
    ensures Grouped(cards + [card], column[card.id := level],
                    columns[level := (if level in columns then columns[level] else []) + [card]])
  {
    var all, next := cards + [card], column[card.id := level];
    assert Ids(all) == Ids(cards) + {card.id};
    var grown := columns[level := (if level in columns then columns[level] else []) + [card]];
    forall l: nat
      ensures if l in grown then grown[l] == ColumnOf(all, next, l) && grown[l] != [] else ColumnOf(all, next, l) == []
    {
      ColumnGains(cards, card, column, level, l);
    }
  }

  lemma NextInColumn(cards: seq<Card>, i: nat, column: map<string, nat>, columns: map<nat, seq<Card>>, level: nat)
    requires DistinctIds(cards) && i < |cards| && Grouped(cards[..i], column, columns)
    ensures Grouped(cards[..i + 1], column[cards[i].id := level],
                    columns[level := (if level in columns then columns[level] else []) + [cards[i]]])
  {
    NotYetPlaced(cards, i);
    AddToColumn(cards[..i], cards[i], column, columns, level);
  }

  lemma NotYetPlaced(cards: seq<Card>, i: nat)
    requires DistinctIds(cards) && i < |cards|
    ensures cards[i].id !in Ids(cards[..i]) && cards[i].id in Ids(cards)
    ensures cards[..i + 1] == cards[..i] + [cards[i]] && Ids(cards[..i + 1]) == Ids(cards[..i]) + {cards[i].id}
    ensures forall k :: 0 <= k < i ==> cards[k].id in Ids(cards[..i])
  {
    forall k | 0 <= k < i ensures cards[k].id in Ids(cards[..i]) {
      assert cards[..i][k] == cards[k];
    }
  }

  lemma SameCards(s: seq<Card>, t: seq<Card>)
    requires multiset(s) == multiset(t) && DistinctIds(t)
    ensures |s| == |t| && DistinctIds(s) && forall c :: c in s <==> c in t
  {
    assert |multiset(s)| == |s| && |multiset(t)| == |t|;
    forall c ensures c in s <==> c in t { assert c in multiset(s) <==> c in multiset(t); }
    forall i, j | 0 <= i < j < |s| ensures s[i].id != s[j].id {
      if s[i] == s[j] {
        TwiceIn(s, i, j);
        OnceIn(t, s[i]);
      } else {
        assert s[i] in t && s[j] in t;
      }
    }
  }

  lemma TwiceIn<T>(s: seq<T>, i: nat, j: nat)
    requires i < j < |s| && s[i] == s[j]
    ensures multiset(s)[s[i]] >= 2
  {
    assert s == s[..i] + [s[i]] + s[i + 1..j] + [s[j]] + s[j + 1..];
  }

  lemma {:induction false} OnceIn(s: seq<Card>, c: Card)
    requires DistinctIds(s)
    ensures multiset(s)[c] <= 1
    decreases |s|
  {
    if s == [] {
    } else {
      var init, last := s[..|s| - 1], s[|s| - 1];
      assert s == init + [last];
      OnceIn(init, c);
      if last == c {
        assert c !in init;
        assert c !in multiset(init);
      }
    }
  }

  /** Stacks the cards of one column. */
  method PlaceColumn(level: nat, sorted: seq<Card>, positions: map<string, Position>)
    returns (placed: map<string, Position>)
    requires DistinctIds(sorted) && Ids(sorted) !! positions.Keys
    ensures placed.Keys == positions.Keys + Ids(sorted)
    ensures forall n :: n in positions ==> placed[n] == positions[n]
    ensures forall i :: 0 <= i < |sorted| ==> placed[sorted[i].id] == Cell(level, i)
  {
    placed := positions;
    for i := 0 to |sorted|
      invariant placed.Keys == positions.Keys + Ids(sorted[..i])
      invariant forall n :: n in positions ==> placed[n] == positions[n]
      invariant forall k :: 0 <= k < i ==> placed[sorted[k].id] == Cell(level, k)
    {
      NotYetPlaced(sorted, i);
      placed := placed[sorted[i].id := Cell(level, i)];
    }
    assert sorted[..|sorted|] == sorted;
  }

  ghost function RowIn(sorted: seq<Card>, id: string): (i: nat)
    requires id in Ids(sorted)
    ensures i < |sorted| && sorted[i].id == id
  {
    var i :| 0 <= i < |sorted| && sorted[i].id == id;
    i
  }

  /** The rows once one more column is stacked. */
  lemma StackRows(sorted: seq<Card>, row: map<string, nat>) returns (rows: map<string, nat>)
    requires DistinctIds(sorted) && Ids(sorted) !! row.Keys
    ensures rows.Keys == row.Keys + Ids(sorted)
    ensures forall n :: n in row ==> rows[n] == row[n]
    ensures forall i :: 0 <= i < |sorted| ==> rows[sorted[i].id] == i
  {
    rows := row + map id | id in Ids(sorted) :: RowIn(sorted, id);
    forall i | 0 <= i < |sorted| ensures sorted[i].id in Ids(sorted) && rows[sorted[i].id] == i {
      assert sorted[i] in sorted;
    }
  }

  // ----- the whole view

  datatype Bundle = Bundle(hidden: set<string>, cards: seq<Card>, edges: seq<Edge>, positions: map<string, Position>)

  function VisibleCards(cards: seq<Card>, hidden: set<string>): (r: seq<Card>)
    ensures forall c :: c in r <==> c in cards && c.id !in hidden
  {
    if cards == [] then []
    else (if cards[0].id in hidden then [] else [cards[0]]) + VisibleCards(cards[1..], hidden)
  }

  lemma {:induction false} VisibleStayDistinct(cards: seq<Card>, hidden: set<string>)
    requires DistinctIds(cards)
    ensures DistinctIds(VisibleCards(cards, hidden))
  {
    if cards == [] {
    } else {
      VisibleStayDistinct(cards[1..], hidden);
    }
  }

  function VisibleEdges(edges: seq<Edge>, hidden: set<string>): (r: seq<Edge>)
    ensures forall e :: e in r <==> e in edges && e.source !in hidden && e.target !in hidden
  {
    if edges == [] then []
    else
      var first := if edges[0].source in hidden || edges[0].target in hidden then [] else [edges[0]];
      first + VisibleEdges(edges[1..], hidden)
  }

  function Elements(ids: seq<string>): (s: set<string>) {
    set id | id in ids
  }

  method HiddenIds(roots: seq<string>, edges: seq<Edge>) returns (hidden: set<string>)
    requires forall e :: e in edges ==> e.target != ""
    ensures forall n :: n in hidden <==> HiddenBy(ArcsOf(edges), Elements(roots), n)
  {
    var outgoing := BuildAdjacency(edges, Source);
    FollowedIsArcs(outgoing, edges);
    hidden := {};
    for i := 0 to |roots|
      invariant forall n :: n in hidden <==> HiddenBy(ArcsOf(edges), Elements(roots[..i]), n)
    {
      var descendants := CollectDescendants(roots[i], outgoing);
      assert Elements(roots[..i + 1]) == Elements(roots[..i]) + {roots[i]};
      hidden := hidden + set n | n in descendants;
    }
    assert roots[..|roots|] == roots;
  }

  /** Visible nodes at attained columns are at their level in the whole graph exactly when no cycle leads to them. */
  lemma DrawnAtLevelIff(arcs: Arcs<string>, roots: set<string>, column: map<string, nat>)
    requires forall n :: n in column ==> !HiddenBy(arcs, roots, n) && Attained(VisibleArcs(arcs, roots), n, column[n])
    ensures forall n :: n in column ==> (IsLevel(arcs, n, column[n]) <==> Rooted(arcs, n))
  {
    forall n | n in column ensures IsLevel(arcs, n, column[n]) <==> Rooted(arcs, n) {
      CollapseKeepsLevels(arcs, roots, n, column[n]);
      if IsLevel(arcs, n, column[n]) { LevelIsRooted(arcs, n, column[n]); }
      if Rooted(arcs, n) { FewerArcsStayRooted(VisibleArcs(arcs, roots), arcs, n); }
    }
  }

  function DrawnPositions(layout: Layout): map<string, Position> {
    map n | n in layout.positions :: Drawn(layout, n)
  }

  lemma DrawnApart(layout: Layout, column: map<string, nat>, row: map<string, nat>, maxColumn: nat, maxRows: nat)
    requires OnGrid(column.Keys, layout.positions, column, row) && Sized(layout, column, row, maxColumn, maxRows)
    ensures var positions := DrawnPositions(layout);
            && positions.Keys == column.Keys
            && (forall n :: n in column ==> positions[n].x == column[n] * (NODE_WIDTH + COLUMN_GAP) + 40)
            && (forall m, n :: m in column && n in column && m != n ==> Apart(positions[m], positions[n]))
  {
    GridGeometry(column.Keys, layout, column, row, maxColumn, maxRows);
  }

  /** Lays out the visible cards and moves them to where they are drawn. */
  method DrawCards(cards: seq<Card>, edges: seq<Edge>, order: seq<Card> -> seq<Card>)
    returns (positions: map<string, Position>, ghost column: map<string, nat>)
    requires DistinctIds(cards)
    requires forall s :: multiset(order(s)) == multiset(s)
    ensures positions.Keys == column.Keys == Ids(cards)
    ensures forall n :: n in column ==> positions[n].x == column[n] * (NODE_WIDTH + COLUMN_GAP) + 40
    ensures forall m, n :: m in column && n in column && m != n ==> Apart(positions[m], positions[n])
    ensures forall n :: n in column ==> Attained(ArcsOf(edges), n, column[n])
    ensures Answers(edges, cards, column)
  {
    var layout;
    ghost var row, maxColumn, maxRows;
    layout, column, row, maxColumn, maxRows := LayoutCards(cards, edges, order);
    positions := DrawnPositions(layout);
    DrawnApart(layout, column, row, maxColumn, maxRows);
  }

  /** What the client draws once `roots` are collapsed: the cards no root reaches, apart from each other,
      each in the column that the search answers when the visible cards are asked for in order. That is the column
      of its level in the whole graph, collapsed or not, exactly when no cycle leads to the card. */
  method BuildBundle(cards: seq<Card>, edges: seq<Edge>, roots: seq<string>, order: seq<Card> -> seq<Card>)
    returns (bundle: Bundle, ghost column: map<string, nat>)
    requires DistinctIds(cards)
    requires forall e :: e in edges ==> e.target != ""
    requires forall s :: multiset(order(s)) == multiset(s)
    ensures forall n :: n in bundle.hidden <==> HiddenBy(ArcsOf(edges), Elements(roots), n)
    ensures forall c :: c in bundle.cards <==> c in cards && c.id !in bundle.hidden
    ensures ArcsOf(bundle.edges) == VisibleArcs(ArcsOf(edges), Elements(roots))
    ensures bundle.positions.Keys == column.Keys == Ids(bundle.cards)
    ensures forall n :: n in column ==> bundle.positions[n].x == column[n] * (NODE_WIDTH + COLUMN_GAP) + 40
    ensures Answers(bundle.edges, bundle.cards, column)
    ensures forall n :: n in column ==> (IsLevel(ArcsOf(edges), n, column[n]) <==> Rooted(ArcsOf(edges), n))
    ensures forall m, n :: m in column && n in column && m != n ==> Apart(bundle.positions[m], bundle.positions[n])
  {
    var hidden := HiddenIds(roots, edges);
    var visible := VisibleCards(cards, hidden);
    VisibleStayDistinct(cards, hidden);
    var kept := VisibleEdges(edges, hidden);
    ghost var arcs, rootSet := ArcsOf(edges), Elements(roots);
    assert ArcsOf(kept) == VisibleArcs(arcs, rootSet);
    var positions;
    positions, column := DrawCards(visible, kept, order);
    DrawnAtLevelIff(arcs, rootSet, column);
    bundle := Bundle(hidden, visible, kept, positions);
  }

  // ----- collapse below a cycle

  function CardOf(id: string): Card { Card(id, Job, id) }

  function Link(source: string, target: string): Edge { Edge(Linked, source, target) }

  /** A loop of `a` and `b` that leads to `h`, as does `r`. */
  function LoopAndTail(a: string, b: string, h: string, r: string): seq<Edge> {
    [Link(b, h), Link(a, b), Link(b, a), Link(r, h)]
  }

  function Loop(a: string, b: string): seq<Edge> { [Link(a, b), Link(b, a)] }

  lemma NeighboursAppend(edges: seq<Edge>, e: Edge, key: End, n: string)
    ensures Neighbours(edges + [e], key, n)
         == Neighbours(edges, key, n) + if Near(e, key) == n then [Far(e, key)] else []
  {
    assert (edges + [e])[..|edges|] == edges;
  }

  lemma LoopNeighbours(a: string, b: string, n: string)
    requires a != b
    ensures Neighbours(Loop(a, b), Target, n) == if n == b then [a] else if n == a then [b] else []
  {
    var ab, ba := Link(a, b), Link(b, a);
    NeighboursAppend([], ab, Target, n);
    NeighboursAppend([ab], ba, Target, n);
    assert [] + [ab] == [ab] && [ab] + [ba] == Loop(a, b);
  }

  lemma TailNeighbours(a: string, b: string, h: string, r: string, n: string)
    requires a != b && a != h && b != h
    ensures Neighbours(LoopAndTail(a, b, h, r), Target, n)
         == if n == h then [b, r] else if n == b then [a] else if n == a then [b] else []
  {
    var bh, ab, ba, rh := Link(b, h), Link(a, b), Link(b, a), Link(r, h);
    NeighboursAppend([], bh, Target, n);
    NeighboursAppend([bh], ab, Target, n);
    NeighboursAppend([bh, ab], ba, Target, n);
    NeighboursAppend([bh, ab, ba], rh, Target, n);
    assert [] + [bh] == [bh] && [bh] + [ab] == [bh, ab] && [bh, ab] + [ba] == [bh, ab, ba];
    assert [bh, ab, ba] + [rh] == LoopAndTail(a, b, h, r);
  }

  lemma SearchesOnlyPredecessor(edges: seq<Edge>, cache: map<string, nat>, visiting: set<string>, id: string, p: string,
                                after: map<string, nat>, level: nat)
    requires id !in cache && id !in visiting && Neighbours(edges, Target, id) == [p]
    requires LevelSearch(edges, cache, visiting + {id}, p) == (after, level)
    ensures LevelSearch(edges, cache, visiting, id) == (after[id := level + 1], level + 1)
  {
    var inner := visiting + {id};
    assert [p][..0] == [];
    assert HighestSearch(edges, cache, inner, []) == (cache, 0);
    assert HighestSearch(edges, cache, inner, [p]) == (after, level);
  }

  /** Of a loop of two, neither searched yet, the one asked for first is the higher. */
  lemma SearchesLoop(edges: seq<Edge>, cache: map<string, nat>, visiting: set<string>, first: string, second: string)
    requires first != second && first !in cache && second !in cache && first !in visiting && second !in visiting
    requires Neighbours(edges, Target, first) == [second] && Neighbours(edges, Target, second) == [first]
    ensures LevelSearch(edges, cache, visiting, first) == (cache[second := 1][first := 2], 2)
  {
    assert LevelSearch(edges, cache, visiting + {first} + {second}, first) == (cache, 0);
    SearchesOnlyPredecessor(edges, cache, visiting + {first}, second, first, cache, 0);
    SearchesOnlyPredecessor(edges, cache, visiting, first, second, cache[second := 1], 1);
  }

  lemma SearchesTail(a: string, b: string, h: string, r: string)
    requires a != b && a != h && b != h && r != a && r != b && r != h
    ensures LevelSearch(LoopAndTail(a, b, h, r), map[], {}, h) == (map[a := 1][b := 2][r := 0][h := 3], 3)
  {
    var edges, loop: map<string, nat> := LoopAndTail(a, b, h, r), map[a := 1][b := 2];
    TailNeighbours(a, b, h, r, a);
    TailNeighbours(a, b, h, r, b);
    TailNeighbours(a, b, h, r, h);
    TailNeighbours(a, b, h, r, r);
    SearchesLoop(edges, map[], {h}, b, a);
    SearchesTwoPredecessors(edges, h, b, r, loop);
  }

  lemma SearchesTwoPredecessors(edges: seq<Edge>, id: string, p: string, q: string, after: map<string, nat>)
    requires Neighbours(edges, Target, id) == [p, q] && Neighbours(edges, Target, q) == []
    requires LevelSearch(edges, map[], {id}, p) == (after, 2) && q !in after && q != id
    ensures LevelSearch(edges, map[], {}, id) == (after[q := 0][id := 3], 3)
  {
    assert [p][..0] == [] && [p, q][..1] == [p] && {} + {id} == {id};
    assert HighestSearch(edges, map[], {id}, []) == (map[], 0);
    assert HighestSearch(edges, map[], {id}, [p]) == (after, 2);
    assert HighestSearch(edges, map[], {id}, [p, q]) == (after[q := 0], 2);
  }

  lemma AsksOneMore(edges: seq<Edge>, cards: seq<Card>, card: Card)
    ensures AskedInOrder(edges, cards + [card]) == LevelSearch(edges, AskedInOrder(edges, cards), {}, card.id).0
  {
    AskedNext(edges, cards + [card], |cards|);
    assert (cards + [card])[..|cards| + 1] == cards + [card] && (cards + [card])[..|cards|] == cards;
  }

  lemma TailColumns(a: string, b: string, h: string, r: string)
    requires a != b && a != h && b != h && r != a && r != b && r != h
    ensures AskedInOrder(LoopAndTail(a, b, h, r), [CardOf(h), CardOf(r), CardOf(a), CardOf(b)])
         == map[a := 1][b := 2][r := 0][h := 3]
  {
    var edges := LoopAndTail(a, b, h, r);
    SearchesTail(a, b, h, r);
    AsksOneMore(edges, [], CardOf(h));
    AsksOneMore(edges, [CardOf(h)], CardOf(r));
    AsksOneMore(edges, [CardOf(h), CardOf(r)], CardOf(a));
    AsksOneMore(edges, [CardOf(h), CardOf(r), CardOf(a)], CardOf(b));
    assert [] + [CardOf(h)] == [CardOf(h)] && [CardOf(h)] + [CardOf(r)] == [CardOf(h), CardOf(r)];
    assert [CardOf(h), CardOf(r)] + [CardOf(a)] == [CardOf(h), CardOf(r), CardOf(a)];
    assert [CardOf(h), CardOf(r), CardOf(a)] + [CardOf(b)] == [CardOf(h), CardOf(r), CardOf(a), CardOf(b)];
  }

  lemma LoopColumns(a: string, b: string, r: string)
    requires a != b && r != a && r != b
    ensures AskedInOrder(Loop(a, b), [CardOf(r), CardOf(a), CardOf(b)]) == map[r := 0][b := 1][a := 2]
  {
    var edges := Loop(a, b);
    LoopNeighbours(a, b, a);
    LoopNeighbours(a, b, b);
    LoopNeighbours(a, b, r);
    AsksOneMore(edges, [], CardOf(r));
    SearchesLoop(edges, map[r := 0], {}, a, b);
    AsksOneMore(edges, [CardOf(r)], CardOf(a));
    AsksOneMore(edges, [CardOf(r), CardOf(a)], CardOf(b));
    assert [] + [CardOf(r)] == [CardOf(r)] && [CardOf(r)] + [CardOf(a)] == [CardOf(r), CardOf(a)];
    assert [CardOf(r), CardOf(a)] + [CardOf(b)] == [CardOf(r), CardOf(a), CardOf(b)];
  }

  lemma CollapseHidesTail(a: string, b: string, h: string, r: string, n: string)
    requires a != b && a != h && b != h && r != a && r != b && r != h
    ensures HiddenBy(ArcsOf(LoopAndTail(a, b, h, r)), {r}, n) <==> n == h
  {
    var edges := LoopAndTail(a, b, h, r);
    var arcs := ArcsOf(edges);
    assert edges[3] in edges;
    ArcReaches(arcs, r, h);
    if HiddenBy(arcs, {r}, n) {
      var k: nat :| k >= 1 && Walk(arcs, r, n, k);
      ClosedHoldsReachable(arcs, r, n, k, {h});
    }
  }

  lemma KeepsLoop(a: string, b: string, h: string, r: string)
    requires a != b && a != h && b != h && r != a && r != b && r != h
    ensures VisibleEdges(LoopAndTail(a, b, h, r), {h}) == Loop(a, b)
  {
    var bh, ab, ba, rh := Link(b, h), Link(a, b), Link(b, a), Link(r, h);
    assert [bh, ab, ba, rh][1..] == [ab, ba, rh] && [ab, ba, rh][1..] == [ba, rh] && [ba, rh][1..] == [rh];
    assert VisibleEdges([rh], {h}) == [];
    assert VisibleEdges([ba, rh], {h}) == [ba];
    assert VisibleEdges([ab, ba, rh], {h}) == [ab, ba];
  }

  lemma KeepsCards(a: string, b: string, h: string, r: string)
    requires a != h && b != h && r != h
    ensures VisibleCards([CardOf(h), CardOf(r), CardOf(a), CardOf(b)], {h}) == [CardOf(r), CardOf(a), CardOf(b)]
  {
    var ch, cr, ca, cb := CardOf(h), CardOf(r), CardOf(a), CardOf(b);
    assert [ch, cr, ca, cb][1..] == [cr, ca, cb] && [cr, ca, cb][1..] == [ca, cb] && [ca, cb][1..] == [cb];
    assert VisibleCards([cb], {h}) == [cb];
    assert VisibleCards([ca, cb], {h}) == [ca, cb];
    assert VisibleCards([cr, ca, cb], {h}) == [cr, ca, cb];
  }

  lemma VisibleLoopColumns(a: string, b: string, h: string, r: string)
    requires a != b && a != h && b != h && r != a && r != b && r != h
    ensures AskedInOrder(VisibleEdges(LoopAndTail(a, b, h, r), {h}),
                         VisibleCards([CardOf(h), CardOf(r), CardOf(a), CardOf(b)], {h}))
         == map[r := 0][b := 1][a := 2]
  {
    LoopColumns(a, b, r);
    KeepsLoop(a, b, h, r);
    KeepsCards(a, b, h, r);
  }

  /** Cards on a cycle have no level of their own: collapsing `r`, which hides neither of them, swaps their columns. */
  lemma CollapseCanMoveLoop(a: string, b: string, h: string, r: string)
    requires a != b && a != h && b != h && r != a && r != b && r != h
    ensures forall n :: HiddenBy(ArcsOf(LoopAndTail(a, b, h, r)), {r}, n) <==> n == h
    ensures AskedInOrder(LoopAndTail(a, b, h, r), [CardOf(h), CardOf(r), CardOf(a), CardOf(b)])
         == map[a := 1][b := 2][r := 0][h := 3]
    ensures AskedInOrder(VisibleEdges(LoopAndTail(a, b, h, r), {h}),
                         VisibleCards([CardOf(h), CardOf(r), CardOf(a), CardOf(b)], {h}))
         == map[r := 0][b := 1][a := 2]
  {
    forall n { CollapseHidesTail(a, b, h, r, n); }
    TailColumns(a, b, h, r);
    VisibleLoopColumns(a, b, h, r);
  }
}
