/** The path side of `BidirectionalAStarEngine` (engine.py): walking a search tree back from a
    vertex (`_unroll_path`), joining the forward and backward trees at the postcodes both reached
    (`_merge_paths`), the fallback path, and `find_mltihop_path`, which validates the shipment,
    runs both searches, merges, sorts by cost and keeps the best `topK`. */
module BidirectionalPaths {
  import opened Common
  import opened DataModel
  import opened Index
  import opened SearchTree
  import opened Bidirectional
  import opened Sorting

  // ---------------------------------------------------------------------------------------
  // _unroll_path

  /** What `_unroll_path` returns: the nodes from the end node back to the root, the segments of
      the recorded edges met on the way, and their summed cost and time. */
  datatype Unrolled = Unrolled(nodes: seq<Node>, segments: seq<Segment>, cost: real, etd: real)

  /** The `'type'` tag of an edge. */
  function KindName(k: EdgeKind): string {
    match k
    case Entry => "entry"
    case Exit => "exit"
    case ZoneRoute(_) => "zone_route"
  }

  /** The segment recorded for a node reached through a recorded edge: from the parent's id
      (`'START'` for a node without a parent, a case `_unroll_path` never meets) to the node's id,
      with the edge's cost, time and tag, the route's service for a zone route (`''` otherwise),
      and a provider only for a zone route. */
  function SegmentFor(n: Node, parent: map<Node, Node>, edge: map<Node, EdgeRecord<EdgeKind>>): Segment
    requires n in edge
  {
    var d := edge[n];
    EdgeSegment(if n in parent then parent[n].Id() else "START", n.Id(), d.cost, d.etd, KindName(d.info),
                if d.info.ZoneRoute? then d.info.route.serviceType else "",
                if d.info.ZoneRoute? then Some(d.info.route.providerId) else None)
  }

  /** The segments of the nodes that have edge data, in node order. */
  function Segments(nodes: seq<Node>, parent: map<Node, Node>, edge: map<Node, EdgeRecord<EdgeKind>>): seq<Segment>
  {
    if nodes == [] then []
    else (if nodes[0] in edge then [SegmentFor(nodes[0], parent, edge)] else [])
         + Segments(nodes[1..], parent, edge)
  }

  /** The walk of `_unroll_path` from `endNode`: `None` when `|parent|` steps do not reach a node
      without a parent, in which case the walk has met a node twice (`UnrollFailsOnlyOnCycle`)
      and the loop of the source never ends. */
  function Unroll(endNode: Node, parent: map<Node, Node>, edge: map<Node, EdgeRecord<EdgeKind>>): Option<Unrolled>
  {
    var c := Chain(parent, endNode, |parent|);
    if ChainEnd(parent, endNode, |parent|) in parent then None
    else Some(Unrolled(c, Segments(c, parent, edge), SumCosts(c, edge), SumETDs(c, edge)))
  }

  lemma {:induction false} SegmentsSnoc(nodes: seq<Node>, x: Node, parent: map<Node, Node>,
                                        edge: map<Node, EdgeRecord<EdgeKind>>)
    ensures Segments(nodes + [x], parent, edge) ==
      Segments(nodes, parent, edge) + (if x in edge then [SegmentFor(x, parent, edge)] else [])
  {
    if nodes != [] {
      var h := if nodes[0] in edge then [SegmentFor(nodes[0], parent, edge)] else [];
      var last := if x in edge then [SegmentFor(x, parent, edge)] else [];
      SegmentsSnoc(nodes[1..], x, parent, edge);
      assert (nodes + [x])[1..] == nodes[1..] + [x];
      calc {
        Segments(nodes + [x], parent, edge);
        h + Segments(nodes[1..] + [x], parent, edge);
        h + (Segments(nodes[1..], parent, edge) + last);
        (h + Segments(nodes[1..], parent, edge)) + last;
        Segments(nodes, parent, edge) + last;
      }
    }
  }

  /** `_unroll_path`: appends the current node, adds its edge's cost and time and its segment when
      it has edge data, and moves to its parent until there is none. */
  method UnrollPath(endNode: Node, parent: map<Node, Node>, edge: map<Node, EdgeRecord<EdgeKind>>)
    returns (r: Option<Unrolled>)
    requires edge.Keys <= parent.Keys
    ensures r == Unroll(endNode, parent, edge)
  {
    ghost var full := Chain(parent, endNode, |parent|);
    ChainShape(parent, endNode, |parent|);
    var nodes: seq<Node> := [];
    var segments: seq<Segment> := [];
    var totalCost, totalETD := 0.0, 0.0;
    var curr := endNode;
    var left: nat := |parent|;
    ghost var k := 0;
    while true
      invariant 0 <= k < |full| && curr == full[k] && left == |parent| - k
      invariant nodes == full[..k]
      invariant segments == Segments(full[..k], parent, edge)
      invariant totalCost == SumCosts(full[..k], edge) && totalETD == SumETDs(full[..k], edge)
      decreases left
    {
      ghost var upto := full[..k + 1];
      assert upto == full[..k] + [curr];
      SumsSnoc(full[..k], curr, edge);
      SegmentsSnoc(full[..k], curr, parent, edge);
      nodes := nodes + [curr];
      if curr in edge {
        totalCost := totalCost + edge[curr].cost;
        totalETD := totalETD + edge[curr].etd;
        segments := segments + [SegmentFor(curr, parent, edge)];
      }
      assert nodes == upto && segments == Segments(upto, parent, edge);
      assert totalCost == SumCosts(upto, edge) && totalETD == SumETDs(upto, edge);
      if curr !in parent || left == 0 {
        if k < |full| - 1 {
          ChainFollowsParents(parent, endNode, |parent|, k);
        }
        assert upto == full;
        if curr in parent {
          return None;
        }
        return Some(Unrolled(nodes, segments, totalCost, totalETD));
      }
      if k == |full| - 1 {
        assert false;
      }
      ChainFollowsParents(parent, endNode, |parent|, k);
      curr := parent[curr];
      left := left - 1;
      k := k + 1;
    }
  }

  /** Each node of an unrolled walk but the last has a parent, and the next node is that parent;
      the walk starts at the end node and stops at a node without a parent. */
  lemma UnrollFollowsParents(endNode: Node, parent: map<Node, Node>, edge: map<Node, EdgeRecord<EdgeKind>>)
    requires Unroll(endNode, parent, edge).Some?
    ensures var u := Unroll(endNode, parent, edge).value;
      && u.nodes != [] && u.nodes[0] == endNode && u.nodes[|u.nodes| - 1] !in parent
      && WalksUp(u.nodes, parent, 0, |u.nodes| - 1)
  {
    ChainWalksUp(parent, endNode, |parent|);
    ChainShape(parent, endNode, |parent|);
  }

  /** A segment is recorded exactly for the nodes with edge data, and only a zone-route segment
      carries a provider, that of its route. */
  lemma {:induction false} SegmentsSpec(nodes: seq<Node>, parent: map<Node, Node>,
                                        edge: map<Node, EdgeRecord<EdgeKind>>, s: Segment)
    ensures s in Segments(nodes, parent, edge) <==>
      exists n :: n in nodes && n in edge && s == SegmentFor(n, parent, edge)
    ensures s in Segments(nodes, parent, edge) ==>
      s.EdgeSegment? && (s.providerId.Some? <==> s.kind == "zone_route")
  {
    if nodes != [] {
      SegmentsSpec(nodes[1..], parent, edge, s);
      assert forall n :: n in nodes <==> n == nodes[0] || n in nodes[1..] by {
        assert nodes == [nodes[0]] + nodes[1..];
      }
    }
  }

  /** When every node with a parent has edge data (as in a search tree), a complete walk has one
      segment per step, the i-th for the i-th node. */
  lemma {:induction false} SegmentsPerStep(nodes: seq<Node>, parent: map<Node, Node>,
                                           edge: map<Node, EdgeRecord<EdgeKind>>)
    requires edge.Keys == parent.Keys
    requires nodes != [] && nodes[|nodes| - 1] !in parent
    requires forall i :: 0 <= i < |nodes| - 1 ==> nodes[i] in parent
    ensures |Segments(nodes, parent, edge)| == |nodes| - 1
    ensures forall i :: 0 <= i < |nodes| - 1 ==> Segments(nodes, parent, edge)[i] == SegmentFor(nodes[i], parent, edge)
  {
    if |nodes| > 1 {
      assert nodes[0] in edge;
      SegmentsPerStep(nodes[1..], parent, edge);
    }
  }

  /** The walk gives up only when it has met a node twice: the parent pointers form a cycle, on
      which the loop of the source runs forever. */
  lemma UnrollFailsOnlyOnCycle(endNode: Node, parent: map<Node, Node>, edge: map<Node, EdgeRecord<EdgeKind>>)
    requires Unroll(endNode, parent, edge).None?
    ensures var c := Chain(parent, endNode, |parent|);
      exists i, j :: 0 <= i < j < |c| && c[i] == c[j]
  {
    var c := Chain(parent, endNode, |parent|);
    ChainShape(parent, endNode, |parent|);
    forall i | 0 <= i < |c| ensures c[i] in parent.Keys {
      if i < |c| - 1 {
        ChainFollowsParents(parent, endNode, |parent|, i);
      }
    }
    assert |c| == |parent| + 1 == |parent.Keys| + 1;
    Pigeonhole(c, parent.Keys);
  }

  /** Unrolling a search tree from a costed node reaches the root, and the summed cost is at most
      the node's recorded cost. */
  lemma UnrollInTree<I>(root: Node, g: map<Node, real>, parent: map<Node, Node>,
                        edge: map<Node, EdgeRecord<EdgeKind>>, maxCost: ExtReal, n: Node)
    requires TreeOk(root, g, parent, edge, maxCost)
    requires n in g
    requires Unroll(n, parent, edge).Some?
    ensures var u := Unroll(n, parent, edge).value;
      u.nodes[|u.nodes| - 1] == root && u.cost <= g[n]
  {
    ChainShape(parent, n, |parent|);
    CompleteChainCost(root, g, parent, edge, maxCost, n, |parent|);
  }

  // ---------------------------------------------------------------------------------------
  // _merge_paths

  /** The provider a segment names, if any. */
  function SegmentProvider(s: Segment): Option<string> {
    match s
    case EdgeSegment(_, _, _, _, _, _, p) => p
    case TransitSegment(p, _, _, _, _) => Some(p)
  }

  /** The providers named by the segments, in segment order. */
  function ProvidersOf(segs: seq<Segment>): seq<string> {
    if segs == [] then []
    else (match SegmentProvider(segs[0]) case Some(p) => [p] case None => []) + ProvidersOf(segs[1..])
  }

  lemma {:induction false} InProvidersOf(segs: seq<Segment>, x: string)
    ensures x in ProvidersOf(segs) <==> exists s :: s in segs && SegmentProvider(s) == Some(x)
  {
    if segs != [] {
      InProvidersOf(segs[1..], x);
      assert forall s :: s in segs <==> s == segs[0] || s in segs[1..] by {
        assert segs == [segs[0]] + segs[1..];
      }
    }
  }

  /** Python's `b_nodes[1:]`. */
  function Tail<T>(s: seq<T>): seq<T> {
    if s == [] then [] else s[1..]
  }

  /** The path through a meeting node: the forward walk reversed (start to meeting node), then the
      backward walk without its first node (the meeting node again); segments likewise; costs and
      times added; the distinct providers of the segments, and their number as the hop count. */
  function Merge(shipment: Shipment, f: Unrolled, b: Unrolled): MultiHopPath {
    var segs := Reverse(f.segments) + b.segments;
    var providers := Dedup(ProvidersOf(segs));
    NewMultiHopPath(shipment.id, Reverse(f.nodes) + Tail(b.nodes), segs,
                    Fin(f.cost + b.cost), Fin(f.etd + b.etd), providers, |providers|)
  }

  /** The merged path lists each provider of its segments once and counts them as its hops; when
      both walks start at the meeting node, that node appears once, where the forward part ends. */
  lemma MergeProperties(shipment: Shipment, f: Unrolled, b: Unrolled)
    ensures var p := Merge(shipment, f, b);
      && Distinct(p.providersInvolved)
      && (forall x :: x in p.providersInvolved <==> exists s :: s in p.segments && SegmentProvider(s) == Some(x))
      && p.numHops == |p.providersInvolved|
      && p.totalCost == Fin(f.cost + b.cost) && p.totalETD == Fin(f.etd + b.etd)
      && |p.segments| == |f.segments| + |b.segments|
    ensures var p := Merge(shipment, f, b);
      f.nodes != [] && b.nodes != [] && f.nodes[0] == b.nodes[0] ==>
        && |p.nodes| == |f.nodes| + |b.nodes| - 1
        && p.nodes[0] == f.nodes[|f.nodes| - 1]
        && p.nodes[|f.nodes| - 1] == f.nodes[0]
        && p.nodes[|p.nodes| - 1] == b.nodes[|b.nodes| - 1]
  {
    var segs := Reverse(f.segments) + b.segments;
    var providers := Dedup(ProvidersOf(segs));
    DedupOfDistinct(providers);
    forall x ensures x in providers <==> exists s :: s in segs && SegmentProvider(s) == Some(x) {
      InProvidersOf(segs, x);
    }
  }

  /** `_merge_paths` at one meeting node: both walks from it, merged; `None` when either walk never
      ends. */
  function MergeAt(shipment: Shipment, m: Node, fwd: SearchResult, bwd: SearchResult): Option<MultiHopPath>
  {
    match (Unroll(m, fwd.parent, fwd.edge), Unroll(m, bwd.parent, bwd.edge))
    case (Some(f), Some(b)) => Some(Merge(shipment, f, b))
    case _ => None
  }

  /** Joining a reversed walk up the forward tree with a walk up the backward tree from the same
      node gives a walk down the first tree to that node, then up the second. */
  lemma JoinWalks(f: seq<Node>, b: seq<Node>, fp: map<Node, Node>, bp: map<Node, Node>, p: seq<Node>)
    requires f != [] && b != [] && f[0] == b[0]
    requires WalksUp(f, fp, 0, |f| - 1) && WalksUp(b, bp, 0, |b| - 1)
    requires p == Reverse(f) + Tail(b)
    ensures |p| == |f| + |b| - 1 && p[|f| - 1] == f[0]
    ensures WalksDown(p, fp, 0, |f| - 1) && WalksUp(p, bp, |f| - 1, |p| - 1)
  {
    var k := |f| - 1;
    var rf := Reverse(f);
    assert p[..|f|] == rf;
    ReverseWalk(f, fp);
    DownPrefix(rf, p, fp);
    forall j | 0 <= j < |b| ensures p[k + j] == b[j] {
      if j == 0 {
        assert p[k] == rf[k];
      } else {
        assert p[k + j] == Tail(b)[j - 1];
      }
    }
    UpShift(b, p, bp, k);
  }

  /** The walk from a costed node of a search tree: up the tree from that node to the root, at
      no more than the node's recorded cost. */
  lemma UnrollFromTree(root: Node, g: map<Node, real>, parent: map<Node, Node>,
                       edge: map<Node, EdgeRecord<EdgeKind>>, maxCost: ExtReal, n: Node)
    returns (u: Unrolled)
    requires TreeOk(root, g, parent, edge, maxCost)
    requires n in g
    requires Unroll(n, parent, edge).Some?
    ensures Unroll(n, parent, edge) == Some(u)
    ensures u.nodes != [] && u.nodes[0] == n && u.nodes[|u.nodes| - 1] == root
    ensures WalksUp(u.nodes, parent, 0, |u.nodes| - 1) && u.cost <= g[n]
  {
    u := Unroll(n, parent, edge).value;
    UnrollFollowsParents(n, parent, edge);
    UnrollInTree<EdgeKind>(root, g, parent, edge, maxCost, n);
  }

  /** Two walks up from a common node, the first ending at `origin` and the second at `dest`,
      merge into a path from `origin` down the first tree to that node at position `k` and up the
      second tree to `dest`, costing the two walks' costs added. */
  lemma MergeShape(shipment: Shipment, f: Unrolled, b: Unrolled, fp: map<Node, Node>, bp: map<Node, Node>,
                   origin: Node, dest: Node)
    returns (k: nat)
    requires f.nodes != [] && b.nodes != [] && f.nodes[0] == b.nodes[0]
    requires f.nodes[|f.nodes| - 1] == origin && b.nodes[|b.nodes| - 1] == dest
    requires WalksUp(f.nodes, fp, 0, |f.nodes| - 1) && WalksUp(b.nodes, bp, 0, |b.nodes| - 1)
    ensures var p := Merge(shipment, f, b);
      && k < |p.nodes| && p.nodes[k] == f.nodes[0]
      && p.nodes[0] == origin && p.nodes[|p.nodes| - 1] == dest
      && WalksDown(p.nodes, fp, 0, k) && WalksUp(p.nodes, bp, k, |p.nodes| - 1)
      && p.totalCost == Fin(f.cost + b.cost)
  {
    JoinWalks(f.nodes, b.nodes, fp, bp, Reverse(f.nodes) + Tail(b.nodes));
    MergeProperties(shipment, f, b);
    k := |f.nodes| - 1;
  }

  /** A merged path runs from the origin, down the forward tree to the meeting node at position
      `k` and up the backward tree to the destination, and costs no more than the two recorded
      costs of the meeting node added. */
  lemma MergedPathShape(shipment: Shipment, m: Node, fwd: SearchResult, bwd: SearchResult, maxCost: ExtReal)
    returns (p: MultiHopPath, k: nat)
    requires TreeOk(PC(shipment.originPC), fwd.cost, fwd.parent, fwd.edge, maxCost)
    requires TreeOk(PC(shipment.destPC), bwd.cost, bwd.parent, bwd.edge, maxCost)
    requires m in fwd.cost && m in bwd.cost
    requires MergeAt(shipment, m, fwd, bwd).Some?
    ensures MergeAt(shipment, m, fwd, bwd) == Some(p)
    ensures k < |p.nodes| && p.nodes[k] == m
    ensures p.nodes[0] == PC(shipment.originPC) && p.nodes[|p.nodes| - 1] == PC(shipment.destPC)
    ensures WalksDown(p.nodes, fwd.parent, 0, k) && WalksUp(p.nodes, bwd.parent, k, |p.nodes| - 1)
    ensures p.totalCost.Le(Fin(fwd.cost[m] + bwd.cost[m]))
  {
    var f := UnrollFromTree(PC(shipment.originPC), fwd.cost, fwd.parent, fwd.edge, maxCost, m);
    var b := UnrollFromTree(PC(shipment.destPC), bwd.cost, bwd.parent, bwd.edge, maxCost, m);
    p := Merge(shipment, f, b);
    k := MergeShape(shipment, f, b, fwd.parent, bwd.parent, PC(shipment.originPC), PC(shipment.destPC));
  }

  /** `create_default_path`: the fallback from origin to destination at infinite cost and time,
      with no segments, no providers and no hops. */
  function DefaultPath(shipment: Shipment): (p: MultiHopPath)
    ensures p.nodes == [PC(shipment.originPC), PC(shipment.destPC)] && p.segments == []
    ensures p.totalCost == PosInf && p.totalETD == PosInf
    ensures p.providersInvolved == [] && p.numHops == 0 && p.shipmentId == shipment.id
  {
    NewMultiHopPath(shipment.id, [PC(shipment.originPC), PC(shipment.destPC)], [], PosInf, PosInf, [], 0)
  }

  /** A vertex both searches reached at which the trees are joined: a postcode. */
  predicate MeetingPoint(m: Node, fwd: SearchResult, bwd: SearchResult) {
    m.PC? && m in fwd.cost && m in bwd.cost
  }

  /** The merged paths at the meeting nodes `ms`, in that order; `None` when any of them fails. */
  function MergeAll(shipment: Shipment, ms: seq<Node>, fwd: SearchResult, bwd: SearchResult): Option<seq<MultiHopPath>> {
    CollectAll(ms, (m: Node) => MergeAt(shipment, m, fwd, bwd))
  }

  /** Taking `m` out of the vertices still to look at: it is not yet recorded, and recording it
      when it is a postcode keeps the recorded nodes distinct and exactly the postcodes looked at. */
  lemma MeetStep(common: set<Node>, remaining: set<Node>, meets: seq<Node>, m: Node)
    requires remaining <= common && m in remaining && Distinct(meets)
    requires forall x :: x in meets <==> x.PC? && x in common - remaining
    ensures Distinct(meets + [m])
    ensures !m.PC? ==> forall x :: x in meets <==> x.PC? && x in common - (remaining - {m})
    ensures m.PC? ==> forall x :: x in meets + [m] <==> x.PC? && x in common - (remaining - {m})
  {
    assert m !in meets;
  }

  /** Once every common vertex has been looked at, the recorded nodes are the meeting points. */
  lemma MeetsAll(meets: seq<Node>, fwd: SearchResult, bwd: SearchResult)
    requires forall x :: x in meets <==> x.PC? && x in (fwd.cost.Keys * bwd.cost.Keys) - {}
    ensures forall x :: x in meets <==> MeetingPoint(x, fwd, bwd)
  {
  }

  /** `_merge_paths`: one merged path per meeting postcode, in the (unspecified) order of the set
      of common vertices, recorded in `meets`; the fallback alone when there is none. `None` when
      a walk from a meeting postcode never ends. */
  method MergePaths(shipment: Shipment, fwd: SearchResult, bwd: SearchResult)
    returns (r: Option<seq<MultiHopPath>>, ghost meets: seq<Node>)
    requires fwd.edge.Keys <= fwd.parent.Keys && bwd.edge.Keys <= bwd.parent.Keys
    ensures r.None? ==> exists m :: MeetingPoint(m, fwd, bwd) && MergeAt(shipment, m, fwd, bwd).None?
    ensures r.Some? ==>
      && Distinct(meets)
      && (forall m :: m in meets <==> MeetingPoint(m, fwd, bwd))
      && MergeAll(shipment, meets, fwd, bwd).Some?
      && r.value == if meets == [] then [DefaultPath(shipment)] else MergeAll(shipment, meets, fwd, bwd).value
  {
    var common := fwd.cost.Keys * bwd.cost.Keys;
    var remaining := common;
    var paths: seq<MultiHopPath> := [];
    meets := [];
    while remaining != {}
      invariant remaining <= common
      invariant Distinct(meets)
      invariant forall m :: m in meets <==> m.PC? && m in common - remaining
      invariant MergeAll(shipment, meets, fwd, bwd) == Some(paths)
      decreases |remaining|
    {
      var m :| m in remaining;
      MeetStep(common, remaining, meets, m);
      remaining := remaining - {m};
      if !m.PC? {
        continue;
      }
      var f := UnrollPath(m, fwd.parent, fwd.edge);
      var b := UnrollPath(m, bwd.parent, bwd.edge);
      if f.None? || b.None? {
        assert MeetingPoint(m, fwd, bwd) && MergeAt(shipment, m, fwd, bwd).None?;
        return None, meets;
      }
      CollectAllSnoc(meets, m, (m: Node) => MergeAt(shipment, m, fwd, bwd));
      paths := paths + [Merge(shipment, f.value, b.value)];
      meets := meets + [m];
    }
    MeetsAll(meets, fwd, bwd);
    if paths == [] {
      return Some([DefaultPath(shipment)]), meets;
    }
    return Some(paths), meets;
  }

  /** `_merge_paths` returns one path per meeting postcode, or the fallback alone, and each is
      the fallback or the merge at a meeting postcode. */
  lemma MergedFromMeetings(shipment: Shipment, fwd: SearchResult, bwd: SearchResult, meets: seq<Node>,
                           all: seq<MultiHopPath>)
    requires forall m :: m in meets <==> MeetingPoint(m, fwd, bwd)
    requires MergeAll(shipment, meets, fwd, bwd).Some?
    requires all == if meets == [] then [DefaultPath(shipment)] else MergeAll(shipment, meets, fwd, bwd).value
    ensures |all| == if meets == [] then 1 else |meets|
    ensures forall p :: p in all ==>
      p == DefaultPath(shipment) || exists m :: MeetingPoint(m, fwd, bwd) && MergeAt(shipment, m, fwd, bwd) == Some(p)
  {
    CollectAllSpec(meets, (m: Node) => MergeAt(shipment, m, fwd, bwd));
    forall p | p in all
      ensures p == DefaultPath(shipment) || exists m :: MeetingPoint(m, fwd, bwd) && MergeAt(shipment, m, fwd, bwd) == Some(p)
    {
      if meets != [] {
        var i :| 0 <= i < |all| && all[i] == p;
        assert meets[i] in meets;
      }
    }
  }

  // ---------------------------------------------------------------------------------------
  // find_mltihop_path

  /** How `find_mltihop_path` ends: a `ValueError` for an unknown origin or destination, a walk
      that never ends, or the paths found. */
  datatype Outcome = UnknownOrigin | UnknownDestination | Diverges | Found(paths: seq<MultiHopPath>)

  /** The sort key of `find_mltihop_path`: total cost. */
  function CostKey(p: MultiHopPath): ExtReal { p.totalCost }

  /** What one search from `startPC` towards `goalPC` leaves: the result of its main loop
      (`Explored`), a search tree of genuine edges within both thresholds over the vertices
      reachable in the index, in which every costed vertex was expanded (at the cost recorded in
      `expanded`, within `maxCost` but for the start at 0) and reached each admissible neighbour;
      with no route priced below zero, every parent walk ends. */
  ghost predicate SearchedFrom(eng: Engine, w: real, startPC: string, goalPC: string, forward: bool,
                               maxCost: ExtReal, maxETD: ExtReal, t: SearchResult, expanded: map<Node, real>)
  {
    && Explored(eng, w, startPC, goalPC, forward, maxCost, maxETD, t)
    && TreeOk(PC(startPC), t.cost, t.parent, t.edge, maxCost)
    && Genuine(eng.index, w, forward, t.parent, t.edge)
    && WithinETD(t.edge, maxETD)
    && t.cost.Keys <= Vertices(eng.index, PC(startPC))
    && expanded.Keys == t.cost.Keys
    && Closed(eng.index, w, forward, t.cost, expanded, maxCost, maxETD)
    && ExpandedWithin(PC(startPC), expanded, maxCost)
    && (NonNegativePrices(eng.index, w) ==> ChainsEnd(t.cost, t.parent))
  }

  /** A search under a cost bound of at least 0 expanded its start in full: every admissible
      edge out of the start has reached its target. */
  lemma SearchExpandsStart(eng: Engine, w: real, startPC: string, goalPC: string, forward: bool,
                           maxCost: ExtReal, maxETD: ExtReal, t: SearchResult, expanded: map<Node, real>)
    requires SearchedFrom(eng, w, startPC, goalPC, forward, maxCost, maxETD, t, expanded)
    requires Fin(0.0).Le(maxCost)
    ensures PC(startPC) in expanded && Fin(expanded[PC(startPC)]).Le(maxCost)
    ensures ClosedAt(eng.index, w, forward, t.cost, PC(startPC), expanded[PC(startPC)], maxCost, maxETD)
  {
  }

  /** The two searches of `find_mltihop_path`: forward from the origin over outgoing routes and
      backward from the destination over incoming routes, each run to exhaustion. */
  method SearchBothWays(eng: Engine, shipment: Shipment, maxCost: ExtReal, maxETD: ExtReal)
    returns (fwd: SearchResult, bwd: SearchResult, ghost fwdExpanded: map<Node, real>, ghost bwdExpanded: map<Node, real>)
    ensures SearchedFrom(eng, shipment.weightKG, shipment.originPC, shipment.destPC, true, maxCost, maxETD, fwd, fwdExpanded)
    ensures SearchedFrom(eng, shipment.weightKG, shipment.destPC, shipment.originPC, false, maxCost, maxETD, bwd, bwdExpanded)
  {
    fwd, fwdExpanded := AStarSearch(eng, shipment.weightKG, shipment.originPC, shipment.destPC, true, maxCost, maxETD);
    bwd, bwdExpanded := AStarSearch(eng, shipment.weightKG, shipment.destPC, shipment.originPC, false, maxCost, maxETD);
  }

  /** `all` is what `_merge_paths` returns for the exhaustive searches `fwd` (from the origin)
      and `bwd` (from the destination): one merged path per meeting postcode, in the order of
      `meets`, which lists each meeting postcode once, or the fallback alone when there is none. */
  ghost predicate MergedSearches(eng: Engine, shipment: Shipment, maxCost: ExtReal, maxETD: ExtReal,
                                 fwd: SearchResult, bwd: SearchResult, fwdExpanded: map<Node, real>,
                                 bwdExpanded: map<Node, real>, meets: seq<Node>, all: seq<MultiHopPath>)
  {
    && SearchedFrom(eng, shipment.weightKG, shipment.originPC, shipment.destPC, true, maxCost, maxETD, fwd, fwdExpanded)
    && SearchedFrom(eng, shipment.weightKG, shipment.destPC, shipment.originPC, false, maxCost, maxETD, bwd, bwdExpanded)
    && Distinct(meets)
    && (forall m :: m in meets <==> MeetingPoint(m, fwd, bwd))
    && MergeAll(shipment, meets, fwd, bwd).Some?
    && all == (if meets == [] then [DefaultPath(shipment)] else MergeAll(shipment, meets, fwd, bwd).value)
  }

  /** `all` is the merged list of some pair of exhaustive searches for the shipment (the order of
      the meeting postcodes is the unspecified order of a set). */
  ghost predicate MergedList(eng: Engine, shipment: Shipment, maxCost: ExtReal, maxETD: ExtReal,
                             all: seq<MultiHopPath>)
  {
    exists fwd, bwd, fwdExpanded, bwdExpanded, meets ::
      MergedSearches(eng, shipment, maxCost, maxETD, fwd, bwd, fwdExpanded, bwdExpanded, meets, all)
  }

  lemma MergedListIntro(eng: Engine, shipment: Shipment, maxCost: ExtReal, maxETD: ExtReal,
                        fwd: SearchResult, bwd: SearchResult, fwdExpanded: map<Node, real>,
                        bwdExpanded: map<Node, real>, meets: seq<Node>, all: seq<MultiHopPath>)
    requires MergedSearches(eng, shipment, maxCost, maxETD, fwd, bwd, fwdExpanded, bwdExpanded, meets, all)
    ensures MergedList(eng, shipment, maxCost, maxETD, all)
  {
  }

  /** The two searches for the shipment meet at a postcode whose parent walks never end, so
      `_merge_paths` loops for ever there. */
  ghost predicate Diverged(eng: Engine, shipment: Shipment, maxCost: ExtReal, maxETD: ExtReal) {
    exists fwd, bwd, fwdExpanded, bwdExpanded ::
      && SearchedFrom(eng, shipment.weightKG, shipment.originPC, shipment.destPC, true, maxCost, maxETD, fwd, fwdExpanded)
      && SearchedFrom(eng, shipment.weightKG, shipment.destPC, shipment.originPC, false, maxCost, maxETD, bwd, bwdExpanded)
      && exists m :: MeetingPoint(m, fwd, bwd) && MergeAt(shipment, m, fwd, bwd).None?
  }

  /** When both searches' parent walks all end, every meeting postcode merges. */
  lemma MergeAtDefined(shipment: Shipment, fwd: SearchResult, bwd: SearchResult)
    requires ChainsEnd(fwd.cost, fwd.parent) && ChainsEnd(bwd.cost, bwd.parent)
    ensures forall m :: MeetingPoint(m, fwd, bwd) ==> MergeAt(shipment, m, fwd, bwd).Some?
  {
    forall m | MeetingPoint(m, fwd, bwd) ensures MergeAt(shipment, m, fwd, bwd).Some? {
      assert ChainEnd(fwd.parent, m, |fwd.parent|) !in fwd.parent;
      assert ChainEnd(bwd.parent, m, |bwd.parent|) !in bwd.parent;
    }
  }

  /** `find_mltihop_path`: rejects an origin, then a destination, missing from the postcode map;
      otherwise searches forward from the origin and backward from the destination (the weight of
      the shipment pricing every route, `maxHops` unused), merges the two trees, sorts the paths
      by total cost (stably) and keeps the first `topK`. `fwd` and `bwd` are the two search
      trees, `meets` the meeting postcodes in the order they were merged, `all` the merged list.
      With no route priced below zero, every walk ends, so known postcodes always give paths. */
  method FindMultiHopPath(eng: Engine, shipment: Shipment, maxCost: ExtReal, maxETD: ExtReal,
                          maxHops: int, topK: int)
    returns (r: Outcome, ghost fwd: SearchResult, ghost bwd: SearchResult,
             ghost fwdExpanded: map<Node, real>, ghost bwdExpanded: map<Node, real>,
             ghost meets: seq<Node>, ghost all: seq<MultiHopPath>)
    ensures shipment.originPC !in eng.postcodes ==> r == UnknownOrigin
    ensures shipment.originPC in eng.postcodes && shipment.destPC !in eng.postcodes ==> r == UnknownDestination
    ensures (shipment.originPC in eng.postcodes && shipment.destPC in eng.postcodes
             && NonNegativePrices(eng.index, shipment.weightKG)) ==> r.Found?
    ensures shipment.originPC in eng.postcodes && shipment.destPC in eng.postcodes ==>
      && (r.Found? || r.Diverges?)
      && SearchedFrom(eng, shipment.weightKG, shipment.originPC, shipment.destPC, true, maxCost, maxETD, fwd, fwdExpanded)
      && SearchedFrom(eng, shipment.weightKG, shipment.destPC, shipment.originPC, false, maxCost, maxETD, bwd, bwdExpanded)
    ensures r.Diverges? ==> exists m :: MeetingPoint(m, fwd, bwd) && MergeAt(shipment, m, fwd, bwd).None?
    ensures r.Diverges? ==> Diverged(eng, shipment, maxCost, maxETD)
    ensures r.Found? ==>
      && MergedSearches(eng, shipment, maxCost, maxETD, fwd, bwd, fwdExpanded, bwdExpanded, meets, all)
      && MergedList(eng, shipment, maxCost, maxETD, all)
      && r.paths == Take(SortBy(all, CostKey), topK)
    ensures r.Found? ==>
      && all != []
      && (forall p :: p in all ==>
            p == DefaultPath(shipment) || exists m :: MeetingPoint(m, fwd, bwd) && MergeAt(shipment, m, fwd, bwd) == Some(p))
  {
    fwd, bwd, fwdExpanded, bwdExpanded := SearchResult(map[], map[], map[]), SearchResult(map[], map[], map[]), map[], map[];
    meets, all := [], [];
    if shipment.originPC !in eng.postcodes {
      return UnknownOrigin, fwd, bwd, fwdExpanded, bwdExpanded, meets, all;
    }
    if shipment.destPC !in eng.postcodes {
      return UnknownDestination, fwd, bwd, fwdExpanded, bwdExpanded, meets, all;
    }
    r, fwd, bwd, fwdExpanded, bwdExpanded, meets, all := SearchAndMerge(eng, shipment, maxCost, maxETD, topK);
  }

  /** The part of `find_mltihop_path` after both postcodes are found known: the two searches,
      the merge, the sort and the cut to `topK`. */
  method SearchAndMerge(eng: Engine, shipment: Shipment, maxCost: ExtReal, maxETD: ExtReal, topK: int)
    returns (r: Outcome, ghost fwd: SearchResult, ghost bwd: SearchResult,
             ghost fwdExpanded: map<Node, real>, ghost bwdExpanded: map<Node, real>,
             ghost meets: seq<Node>, ghost all: seq<MultiHopPath>)
    ensures r.Found? || r.Diverges?
    ensures NonNegativePrices(eng.index, shipment.weightKG) ==> r.Found?
    ensures SearchedFrom(eng, shipment.weightKG, shipment.originPC, shipment.destPC, true, maxCost, maxETD, fwd, fwdExpanded)
    ensures SearchedFrom(eng, shipment.weightKG, shipment.destPC, shipment.originPC, false, maxCost, maxETD, bwd, bwdExpanded)
    ensures r.Diverges? ==> exists m :: MeetingPoint(m, fwd, bwd) && MergeAt(shipment, m, fwd, bwd).None?
    ensures r.Diverges? ==> Diverged(eng, shipment, maxCost, maxETD)
    ensures r.Found? ==>
      && MergedSearches(eng, shipment, maxCost, maxETD, fwd, bwd, fwdExpanded, bwdExpanded, meets, all)
      && MergedList(eng, shipment, maxCost, maxETD, all)
      && r.paths == Take(SortBy(all, CostKey), topK)
    ensures r.Found? ==>
      && all != []
      && (forall p :: p in all ==>
            p == DefaultPath(shipment) || exists m :: MeetingPoint(m, fwd, bwd) && MergeAt(shipment, m, fwd, bwd) == Some(p))
  {
    all := [];
    var forwardPaths, backwardPaths;
    forwardPaths, backwardPaths, fwdExpanded, bwdExpanded := SearchBothWays(eng, shipment, maxCost, maxETD);
    fwd, bwd := forwardPaths, backwardPaths;
    if NonNegativePrices(eng.index, shipment.weightKG) {
      MergeAtDefined(shipment, fwd, bwd);
    }
    var merged;
    merged, meets := MergePaths(shipment, forwardPaths, backwardPaths);
    if merged.None? {
      assert !NonNegativePrices(eng.index, shipment.weightKG);
      return Diverges, fwd, bwd, fwdExpanded, bwdExpanded, meets, all;
    }
    var found := merged.value;
    all := found;
    MergedFromMeetings(shipment, fwd, bwd, meets, all);
    assert MergedSearches(eng, shipment, maxCost, maxETD, fwd, bwd, fwdExpanded, bwdExpanded, meets, all);
    MergedListIntro(eng, shipment, maxCost, maxETD, fwd, bwd, fwdExpanded, bwdExpanded, meets, all);
    r := Found(Take(SortBy(found, CostKey), topK));
  }

  /** The paths found are sorted by total cost, at most `topK` of them, and at least one when
      `topK` is positive. */
  lemma FoundPathsRanked(all: seq<MultiHopPath>, topK: int)
    requires all != []
    ensures SortedBy(Take(SortBy(all, CostKey), topK), CostKey)
    ensures topK >= 0 ==> |Take(SortBy(all, CostKey), topK)| <= topK
    ensures topK >= 1 ==> |Take(SortBy(all, CostKey), topK)| >= 1
    ensures multiset(Take(SortBy(all, CostKey), topK)) <= multiset(all)
  {
    SortByProperties(all, CostKey);
    SortByLength(all, CostKey);
    var s := SortBy(all, CostKey);
    var t := Take(s, topK);
    assert s == t + s[|t|..];
    assert multiset(s) == multiset(t) + multiset(s[|t|..]);
  }
}
