/** Pieces shared by both A* engines: the open-set heap ordered by (f, insertion counter), the
    per-search maps (best cost `g`, parent pointer, edge that reached each node) and the walk
    along parent pointers that reconstructs a path. */
module SearchTree {
  import opened Common
  import opened DataModel

  /** A heap entry `(f, counter, node)`. */
  datatype QueueItem = QueueItem(f: real, counter: int, node: Node)

  /** Tuple order on `(f, counter)`: lower f first, and among equal f the earlier push. */
  predicate Before(a: QueueItem, b: QueueItem) {
    a.f < b.f || (a.f == b.f && a.counter <= b.counter)
  }

  /** Where `heappop` takes its entry from: scanning left to right, the first entry that comes
      before every entry. */
  function MinIndex(heap: seq<QueueItem>): (m: nat)
    requires heap != []
    ensures m < |heap| && forall x :: x in heap ==> Before(heap[m], x)
  {
    MinFrom(heap, 0, 1)
  }

  /** The scan of `MinIndex` from position `i`, `m` being the best entry before `i`. */
  function MinFrom(heap: seq<QueueItem>, m: nat, i: nat): (r: nat)
    requires m < i <= |heap|
    requires forall j :: 0 <= j < i ==> Before(heap[m], heap[j])
    ensures r < |heap| && forall j :: 0 <= j < |heap| ==> Before(heap[r], heap[j])
    decreases |heap| - i
  {
    if i == |heap| then m
    else if Before(heap[m], heap[i]) then MinFrom(heap, m, i + 1)
    else
      assert forall j :: 0 <= j < i ==> Before(heap[m], heap[j]) && Before(heap[i], heap[m]);
      MinFrom(heap, i, i + 1)
  }

  /** `heappop`: removes and returns the entry at `MinIndex`, which comes before every entry of
      the heap. */
  method PopMin(heap: seq<QueueItem>) returns (e: QueueItem, rest: seq<QueueItem>)
    requires heap != []
    ensures e == heap[MinIndex(heap)] && rest == heap[..MinIndex(heap)] + heap[MinIndex(heap) + 1..]
    ensures e in heap
    ensures forall x :: x in heap ==> Before(e, x)
    ensures multiset(rest) + multiset{e} == multiset(heap)
    ensures forall x :: x in rest ==> x in heap
    ensures forall x :: x in heap ==> x in rest || x == e
    ensures |rest| == |heap| - 1
  {
    var m := MinIndex(heap);
    e := heap[m];
    rest := heap[..m] + heap[m + 1..];
    assert heap == heap[..m] + [heap[m]] + heap[m + 1..];
  }

  /** The entry `heappop` takes: the one at `MinIndex`. */
  function Popped(heap: seq<QueueItem>): QueueItem
    requires heap != []
  {
    heap[MinIndex(heap)]
  }

  /** The heap `heappop` leaves. */
  function Rest(heap: seq<QueueItem>): seq<QueueItem>
    requires heap != []
  {
    heap[..MinIndex(heap)] + heap[MinIndex(heap) + 1..]
  }

  /** Among entries with equal f, the one pushed first (smallest counter) pops first: with
      distinct counters the popped entry is the unique `Before`-least one. */
  lemma TiesPopInPushOrder(heap: seq<QueueItem>, counter: int, e: QueueItem, x: QueueItem)
    requires e in heap && x in heap && x != e
    requires forall y :: y in heap ==> Before(e, y)
    requires CountersOk(heap, counter)
    ensures x.f == e.f ==> e.counter < x.counter
    ensures e.f <= x.f
  {
  }

  /** Every queued entry carries a counter of its own, none above `counter`, the last one
      handed out. */
  ghost predicate CountersOk(heap: seq<QueueItem>, counter: int) {
    && (forall x :: x in heap ==> x.counter <= counter)
    && (forall a, b :: a in heap && b in heap && a != b ==> a.counter != b.counter)
  }

  /** Pushing an entry under a counter above every one handed out keeps the counters distinct. */
  lemma CountersPush(heap: seq<QueueItem>, counter: int, x: QueueItem)
    requires CountersOk(heap, counter) && x.counter > counter
    ensures CountersOk(heap + [x], x.counter)
  {
    assert forall y :: y in heap + [x] <==> y in heap || y == x;
  }

  /** Removing entries keeps the counters distinct. */
  lemma CountersPop(heap: seq<QueueItem>, counter: int, rest: seq<QueueItem>)
    requires CountersOk(heap, counter)
    requires forall y :: y in rest ==> y in heap
    ensures CountersOk(rest, counter)
  {
  }

  /** The vertices the heap holds entries for. */
  function HeapNodes(heap: seq<QueueItem>): set<Node> {
    set x | x in heap :: x.node
  }

  /** Pushing an entry adds its vertex to the heap's vertices. */
  lemma HeapNodesPush(heap: seq<QueueItem>, x: QueueItem)
    ensures HeapNodes(heap + [x]) == HeapNodes(heap) + {x.node}
  {
    assert forall y :: y in heap + [x] <==> y in heap || y == x;
  }

  /** Popping an entry loses at most that entry's vertex. */
  lemma HeapNodesPop(heap: seq<QueueItem>, e: QueueItem, rest: seq<QueueItem>)
    requires forall y :: y in heap ==> y in rest || y == e
    requires forall y :: y in rest ==> y in heap
    ensures HeapNodes(heap) <= HeapNodes(rest) + {e.node}
    ensures HeapNodes(rest) <= HeapNodes(heap)
  {
  }

  /** What an edge leaves in `edge_data`: its cost, its time and its tag. */
  datatype EdgeRecord<I> = EdgeRecord(cost: real, etd: real, info: I)

  /** Updating two maps with the same keys at the same key keeps their keys the same. */
  lemma SameKeysUpdate<A, B>(a: map<Node, A>, b: map<Node, B>, k: Node, x: A, y: B)
    requires a.Keys == b.Keys
    ensures a[k := x].Keys == b[k := y].Keys
  {
  }

  /** The shape every search keeps for `g_score`, `came_from` and `edge_data`: the start always
      has a cost, the other costed nodes are exactly those with a parent, parent and edge data
      share one key set, every node with a parent is within `maxCost`, and a node's cost is never
      below its parent's cost plus the edge that reached it. */
  ghost predicate TreeOk<I>(
    start: Node, g: map<Node, real>, parent: map<Node, Node>, edge: map<Node, EdgeRecord<I>>,
    maxCost: ExtReal)
  {
    && start in g
    && g.Keys == parent.Keys + {start}
    && parent.Keys == edge.Keys
    && (start !in parent ==> g[start] == 0.0)
    && (forall n {:trigger LinkOk(g, parent, edge, maxCost, n)} :: LinkOk(g, parent, edge, maxCost, n))
  }

  /** A node with a parent has a cost within `maxCost` that is no less than its parent's cost plus
      the edge that reached it. */
  ghost predicate LinkOk<I>(
    g: map<Node, real>, parent: map<Node, Node>, edge: map<Node, EdgeRecord<I>>, maxCost: ExtReal, n: Node)
  {
    n in parent && n in edge && n in g ==>
      parent[n] in g && g[n] >= g[parent[n]] + edge[n].cost && Fin(g[n]).Le(maxCost)
  }

  /** No cost of `g` went up in `g'`, and none was dropped. */
  ghost predicate Lowered(g: map<Node, real>, g': map<Node, real>) {
    forall m :: m in g ==> m in g' && g'[m] <= g[m]
  }

  /** The nodes met walking parent pointers from `n`, at most `fuel` steps. */
  function Chain(parent: map<Node, Node>, n: Node, fuel: nat): seq<Node>
    decreases fuel
  {
    if n in parent && fuel > 0 then [n] + Chain(parent, parent[n], fuel - 1) else [n]
  }

  /** Where that walk stops. */
  function ChainEnd(parent: map<Node, Node>, n: Node, fuel: nat): Node
    decreases fuel
  {
    if n in parent && fuel > 0 then ChainEnd(parent, parent[n], fuel - 1) else n
  }

  /** A chain starts at its node, takes at most `fuel` steps, ends at `ChainEnd`, and stops early
      only at a node without a parent. */
  lemma {:induction false} ChainShape(parent: map<Node, Node>, n: Node, fuel: nat)
    ensures var c := Chain(parent, n, fuel);
      && 1 <= |c| <= fuel + 1 && c[0] == n && c[|c| - 1] == ChainEnd(parent, n, fuel)
      && (ChainEnd(parent, n, fuel) !in parent || |c| == fuel + 1)
    decreases fuel
  {
    if n in parent && fuel > 0 {
      ChainShape(parent, parent[n], fuel - 1);
    }
  }

  /** Each node of a chain but the last has a parent, and the next node is that parent. */
  lemma {:induction false} ChainFollowsParents(parent: map<Node, Node>, n: Node, fuel: nat, i: nat)
    requires i < |Chain(parent, n, fuel)| - 1
    ensures Chain(parent, n, fuel)[i] in parent
    ensures Chain(parent, n, fuel)[i + 1] == parent[Chain(parent, n, fuel)[i]]
    decreases fuel
  {
    if i > 0 {
      ChainFollowsParents(parent, parent[n], fuel - 1, i - 1);
    }
  }

  /** The node at `i` is the parent of the node at `i + 1`. */
  ghost predicate StepDown(nodes: seq<Node>, parent: map<Node, Node>, i: int)
    requires 0 <= i < |nodes| - 1
  {
    nodes[i + 1] in parent && parent[nodes[i + 1]] == nodes[i]
  }

  /** The node at `i + 1` is the parent of the node at `i`. */
  ghost predicate StepUp(nodes: seq<Node>, parent: map<Node, Node>, i: int)
    requires 0 <= i < |nodes| - 1
  {
    nodes[i] in parent && parent[nodes[i]] == nodes[i + 1]
  }

  /** From `lo` to `hi`, each node is the parent of the next: a walk down a tree. */
  ghost predicate WalksDown(nodes: seq<Node>, parent: map<Node, Node>, lo: int, hi: int)
    requires 0 <= lo && hi < |nodes|
  {
    forall i {:trigger StepDown(nodes, parent, i)} :: lo <= i < hi ==> StepDown(nodes, parent, i)
  }

  /** From `lo` to `hi`, the next node is the parent of each node: a walk up a tree. */
  ghost predicate WalksUp(nodes: seq<Node>, parent: map<Node, Node>, lo: int, hi: int)
    requires 0 <= lo && hi < |nodes|
  {
    forall i {:trigger StepUp(nodes, parent, i)} :: lo <= i < hi ==> StepUp(nodes, parent, i)
  }

  /** The chain of parent pointers from `n` is a walk up them. */
  lemma ChainWalksUp(parent: map<Node, Node>, n: Node, fuel: nat)
    ensures var c := Chain(parent, n, fuel); WalksUp(c, parent, 0, |c| - 1)
  {
    var c := Chain(parent, n, fuel);
    forall i | 0 <= i < |c| - 1 ensures StepUp(c, parent, i) {
      ChainFollowsParents(parent, n, fuel, i);
    }
  }

  /** A walk up parent pointers, reversed, is a walk down them. */
  lemma ReverseWalk(c: seq<Node>, parent: map<Node, Node>)
    requires c != [] && WalksUp(c, parent, 0, |c| - 1)
    ensures WalksDown(Reverse(c), parent, 0, |c| - 1)
  {
    var r := Reverse(c);
    var k := |c| - 1;
    forall i | 0 <= i < k ensures StepDown(r, parent, i) {
      assert StepUp(c, parent, k - i - 1);
      assert r[i] == c[k - i] && r[i + 1] == c[k - i - 1];
    }
  }

  /** A walk down a tree stays one inside any sequence it begins. */
  lemma DownPrefix(q: seq<Node>, p: seq<Node>, parent: map<Node, Node>)
    requires q != [] && |q| <= |p| && p[..|q|] == q
    requires WalksDown(q, parent, 0, |q| - 1)
    ensures WalksDown(p, parent, 0, |q| - 1)
  {
    forall i | 0 <= i < |q| - 1 ensures StepDown(p, parent, i) {
      assert StepDown(q, parent, i);
      assert p[i] == q[i] && p[i + 1] == q[i + 1];
    }
  }

  /** A walk up a tree stays one wherever it is placed inside a sequence. */
  lemma UpShift(b: seq<Node>, p: seq<Node>, parent: map<Node, Node>, k: int)
    requires b != [] && 0 <= k && k + |b| == |p|
    requires forall j :: 0 <= j < |b| ==> p[k + j] == b[j]
    requires WalksUp(b, parent, 0, |b| - 1)
    ensures WalksUp(p, parent, k, |p| - 1)
  {
    forall i | k <= i < |p| - 1 ensures StepUp(p, parent, i) {
      assert StepUp(b, parent, i - k);
      assert p[k + (i - k)] == b[i - k] && p[k + (i + 1 - k)] == b[i + 1 - k];
    }
  }

  /** Sum of the edge costs of the nodes that have edge data. */
  function SumCosts<I>(nodes: seq<Node>, edge: map<Node, EdgeRecord<I>>): real {
    if nodes == [] then 0.0
    else (if nodes[0] in edge then edge[nodes[0]].cost else 0.0) + SumCosts(nodes[1..], edge)
  }

  /** Sum of the edge times of the nodes that have edge data. */
  function SumETDs<I>(nodes: seq<Node>, edge: map<Node, EdgeRecord<I>>): real {
    if nodes == [] then 0.0
    else (if nodes[0] in edge then edge[nodes[0]].etd else 0.0) + SumETDs(nodes[1..], edge)
  }

  /** Appending a node adds its edge's cost and time, if it has edge data. */
  lemma {:induction false} SumsSnoc<I>(nodes: seq<Node>, x: Node, edge: map<Node, EdgeRecord<I>>)
    ensures SumCosts(nodes + [x], edge) == SumCosts(nodes, edge) + (if x in edge then edge[x].cost else 0.0)
    ensures SumETDs(nodes + [x], edge) == SumETDs(nodes, edge) + (if x in edge then edge[x].etd else 0.0)
  {
    if nodes != [] {
      SumsSnoc(nodes[1..], x, edge);
      assert (nodes + [x])[1..] == nodes[1..] + [x];
    }
  }

  /** Recording `current` as the parent of `m` at cost `cg + rec.cost` keeps the tree's shape when
      that cost is within `maxCost` and improves on `m`'s cost, provided the current node's cost is
      no more than `cg`; no recorded cost goes up. */
  lemma RelaxKeepsTree<I>(
    start: Node, g: map<Node, real>, parent: map<Node, Node>, edge: map<Node, EdgeRecord<I>>,
    maxCost: ExtReal, current: Node, cg: real, m: Node, rec: EdgeRecord<I>)
    requires TreeOk(start, g, parent, edge, maxCost)
    requires current in g && g[current] <= cg
    requires Fin(cg + rec.cost).Le(maxCost)
    requires m !in g || cg + rec.cost < g[m]
    ensures TreeOk(start, g[m := cg + rec.cost], parent[m := current], edge[m := rec], maxCost)
    ensures forall n :: n in g ==> g[m := cg + rec.cost][n] <= g[n]
  {
    var g' := g[m := cg + rec.cost];
    var parent' := parent[m := current];
    var edge' := edge[m := rec];
    forall n ensures LinkOk(g', parent', edge', maxCost, n) {
      if n != m {
        assert LinkOk(g, parent, edge, maxCost, n);
      }
    }
  }

  /** Walking a complete parent chain from a costed node, the edge costs add up to no more than
      the node's recorded cost minus the root's. */
  lemma {:induction false} ChainCostBound<I>(
    start: Node, g: map<Node, real>, parent: map<Node, Node>, edge: map<Node, EdgeRecord<I>>,
    maxCost: ExtReal, n: Node, fuel: nat)
    requires TreeOk(start, g, parent, edge, maxCost)
    requires n in g
    ensures ChainEnd(parent, n, fuel) !in parent ==>
      ChainEnd(parent, n, fuel) in g && SumCosts(Chain(parent, n, fuel), edge) <= g[n] - g[ChainEnd(parent, n, fuel)]
    decreases fuel
  {
    var c := Chain(parent, n, fuel);
    var last := ChainEnd(parent, n, fuel);
    if n in parent && fuel > 0 {
      var p := parent[n];
      assert LinkOk(g, parent, edge, maxCost, n);
      ChainCostBound(start, g, parent, edge, maxCost, p, fuel - 1);
      var rest := Chain(parent, p, fuel - 1);
      assert c == [n] + rest;
      assert c[1..] == rest;
      assert n in edge;
      assert SumCosts(c, edge) == edge[n].cost + SumCosts(rest, edge);
      assert last == ChainEnd(parent, p, fuel - 1);
    } else if n !in parent {
      assert c == [n];
      assert n !in edge;
      assert SumCosts(c, edge) == 0.0 + SumCosts([], edge);
    }
  }

  /** A complete parent chain ends at the start, so its cost is at most the recorded cost of
      where it began, which is within `maxCost` when that node is not the start. */
  lemma CompleteChainCost<I>(
    start: Node, g: map<Node, real>, parent: map<Node, Node>, edge: map<Node, EdgeRecord<I>>,
    maxCost: ExtReal, n: Node, fuel: nat)
    requires TreeOk(start, g, parent, edge, maxCost)
    requires n in g
    requires ChainEnd(parent, n, fuel) !in parent
    ensures ChainEnd(parent, n, fuel) == start
    ensures SumCosts(Chain(parent, n, fuel), edge) <= g[n]
    ensures n in parent ==> Fin(SumCosts(Chain(parent, n, fuel), edge)).Le(maxCost)
  {
    ChainCostBound(start, g, parent, edge, maxCost, n, fuel);
    assert LinkOk(g, parent, edge, maxCost, n);
  }

  // ---------------------------------------------------------------------------------------
  // Why parent walks end

  /** `a` comes before `b` in the order (cost, stamp): a lower cost, or the same cost and an
      earlier stamp. */
  ghost predicate Earlier(g: map<Node, real>, stamp: map<Node, int>, a: Node, b: Node) {
    a in g && b in g && a in stamp && b in stamp && (g[a] < g[b] || (g[a] == g[b] && stamp[a] < stamp[b]))
  }

  /** A costed node with a parent comes after its parent. */
  ghost predicate RankLink(g: map<Node, real>, parent: map<Node, Node>, stamp: map<Node, int>, n: Node) {
    n in parent && n in g ==> Earlier(g, stamp, parent[n], n)
  }

  /** Every costed node is stamped and comes after its parent. */
  ghost predicate Ranked(g: map<Node, real>, parent: map<Node, Node>, stamp: map<Node, int>) {
    && g.Keys <= stamp.Keys
    && forall n {:trigger RankLink(g, parent, stamp, n)} :: RankLink(g, parent, stamp, n)
  }

  ghost predicate StampsBelow(stamp: map<Node, int>, bound: int) {
    forall n :: n in stamp ==> stamp[n] < bound
  }

  /** The parent pointers respect some stamping with stamps below `bound`: a node's parent has a
      lower cost, or the same cost and an earlier stamp. Such pointers never form a cycle. */
  ghost predicate Acyclic(g: map<Node, real>, parent: map<Node, Node>, bound: int) {
    exists stamp :: Ranked(g, parent, stamp) && StampsBelow(stamp, bound)
  }

  /** The start alone, without parents, is ordered by any positive bound. */
  lemma AcyclicRoot(start: Node, c: real, bound: int)
    requires bound > 0
    ensures Acyclic(map[start := c], map[], bound)
  {
    var stamp := map[start := 0];
    assert Ranked(map[start := c], map[], stamp) && StampsBelow(stamp, bound);
  }

  /** Recording `current` as the parent of `m` at cost `cg + c`, for a non-negative `c`, an
      improvement on `m`'s cost and a current cost of at most `cg`, keeps the pointers ordered:
      `m` takes the stamp `t`, newer than every other. */
  lemma AcyclicRelax(g: map<Node, real>, parent: map<Node, Node>, bound: int, current: Node, cg: real,
                     m: Node, c: real, t: int)
    requires Acyclic(g, parent, bound) && bound <= t
    requires current in g && g[current] <= cg && c >= 0.0
    requires m !in g || cg + c < g[m]
    ensures Acyclic(g[m := cg + c], parent[m := current], t + 1)
  {
    var stamp :| Ranked(g, parent, stamp) && StampsBelow(stamp, bound);
    var g', parent', stamp' := g[m := cg + c], parent[m := current], stamp[m := t];
    forall n ensures RankLink(g', parent', stamp', n) {
      assert RankLink(g, parent, stamp, n);
    }
    assert Ranked(g', parent', stamp') && StampsBelow(stamp', t + 1);
  }

  /** Along a parent walk from a costed node of an ordered tree, a later node comes strictly
      before an earlier one. */
  lemma {:induction false} ChainDescends(g: map<Node, real>, parent: map<Node, Node>, stamp: map<Node, int>,
                                         n: Node, fuel: nat, i: nat, j: nat)
    requires Ranked(g, parent, stamp) && n in g
    requires i < j < |Chain(parent, n, fuel)|
    ensures Earlier(g, stamp, Chain(parent, n, fuel)[j], Chain(parent, n, fuel)[i])
    decreases fuel
  {
    var p := parent[n];
    assert RankLink(g, parent, stamp, n);
    if i > 0 {
      ChainDescends(g, parent, stamp, p, fuel - 1, i - 1, j - 1);
    } else if j > 1 {
      ChainDescends(g, parent, stamp, p, fuel - 1, 0, j - 1);
    }
  }

  /** In a sequence longer than the set its elements come from, some element appears twice. */
  lemma {:induction false} Pigeonhole<T>(s: seq<T>, keys: set<T>)
    requires forall i :: 0 <= i < |s| ==> s[i] in keys
    requires |s| > |keys|
    ensures exists i, j :: 0 <= i < j < |s| && s[i] == s[j]
  {
    var n := |s| - 1;
    if s[n] in s[..n] {
      var i :| 0 <= i < n && s[..n][i] == s[n];
      assert s[i] == s[n];
    } else {
      Pigeonhole(s[..n], keys - {s[n]});
      var i, j :| 0 <= i < j < n && s[..n][i] == s[..n][j];
      assert s[i] == s[j];
    }
  }

  /** Every parent walk of `|parent|` steps from a costed node reaches a node without a
      parent. */
  ghost predicate ChainsEnd(g: map<Node, real>, parent: map<Node, Node>) {
    forall n :: n in g ==> ChainEnd(parent, n, |parent|) !in parent
  }

  /** Ordered parent pointers never repeat a node along a walk, so a walk of `|parent|` steps,
      which would otherwise meet `|parent| + 1` nodes with parents, stops at one without. */
  lemma AcyclicChainsEnd(g: map<Node, real>, parent: map<Node, Node>, bound: int)
    requires Acyclic(g, parent, bound)
    ensures ChainsEnd(g, parent)
  {
    var stamp :| Ranked(g, parent, stamp) && StampsBelow(stamp, bound);
    forall n | n in g ensures ChainEnd(parent, n, |parent|) !in parent {
      RankedChainEnds(g, parent, stamp, n);
    }
  }

  lemma RankedChainEnds(g: map<Node, real>, parent: map<Node, Node>, stamp: map<Node, int>, n: Node)
    requires Ranked(g, parent, stamp) && n in g
    ensures ChainEnd(parent, n, |parent|) !in parent
  {
    var c := Chain(parent, n, |parent|);
    ChainShape(parent, n, |parent|);
    if ChainEnd(parent, n, |parent|) in parent {
      forall i | 0 <= i < |c| ensures c[i] in parent.Keys {
        if i < |c| - 1 {
          ChainFollowsParents(parent, n, |parent|, i);
        }
      }
      Pigeonhole(c, parent.Keys);
      var i, j :| 0 <= i < j < |c| && c[i] == c[j];
      ChainDescends(g, parent, stamp, n, |parent|, i, j);
      assert false;
    }
  }
}
