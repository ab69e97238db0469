/** `FreightAStarEngine` (engine_new.py), second part: the forward A* loop, which stops at the
    first pop of the destination postcode and has no visited set; the reconstruction of the path
    from parent pointers, which records only transit segments; the fallback path; and the
    pass-through `RouteOptimizer`. */
module ForwardSearch {
  import opened Common
  import opened DataModel
  import opened SearchTree
  import opened Forward
  import BidirectionalPaths

  // ---------------------------------------------------------------------------------------
  // _reconstruct_path

  /** The segment recorded for a transit step: the route's provider and zones, and the step's
      cost and time. */
  function TransitSegmentOf(rec: EdgeRecord<StepInfo>): Segment
    requires rec.info.Transit?
  {
    TransitSegment(rec.info.route.providerId, rec.info.route.fromZone, rec.info.route.toZone, rec.cost, rec.etd)
  }

  /** The segments of the transit steps that reached `nodes`, in node order. */
  function TransitSegments(nodes: seq<Node>, edge: map<Node, EdgeRecord<StepInfo>>): seq<Segment> {
    if nodes == [] then []
    else
      var n := nodes[|nodes| - 1];
      TransitSegments(nodes[..|nodes| - 1], edge) + (if n in edge && edge[n].info.Transit? then [TransitSegmentOf(edge[n])] else [])
  }

  /** The providers of transit segments, in segment order. */
  function SegmentProviders(segs: seq<Segment>): seq<string> {
    if segs == [] then []
    else SegmentProviders(segs[..|segs| - 1]) + (if segs[|segs| - 1].TransitSegment? then [segs[|segs| - 1].providerId'] else [])
  }

  /** The path `_reconstruct_path` builds from `goal`: the nodes from the parentless root to the
      goal, the transit segments in that order, the costs and times of the steps summed, and the
      distinct transit providers, whose number is the hop count. `None` when `|parent|` steps do
      not reach a node without a parent: the parent pointers then hold a cycle, on which the loop
      of the source never ends. */
  function Reconstruct(goal: Node, parent: map<Node, Node>, edge: map<Node, EdgeRecord<StepInfo>>,
                       shipmentId: string): Option<MultiHopPath>
  {
    var c := Chain(parent, goal, |parent|);
    ChainShape(parent, goal, |parent|);
    if ChainEnd(parent, goal, |parent|) in parent then None
    else
      var steps := c[..|c| - 1];
      var segs := TransitSegments(steps, edge);
      var providers := Dedup(SegmentProviders(segs));
      Some(NewMultiHopPath(shipmentId, Reverse(c), Reverse(segs), Fin(SumCosts(steps, edge)),
                           Fin(SumETDs(steps, edge)), providers, |providers|))
  }

  /** `_reconstruct_path`: follows parent pointers from the goal while the node has one, adding
      each step's cost and time and, for a transit step, its segment and provider; then appends
      the root and reverses nodes and segments. */
  method ReconstructPath(goal: Node, parent: map<Node, Node>, edge: map<Node, EdgeRecord<StepInfo>>,
                         shipment: Shipment)
    returns (r: Option<MultiHopPath>)
    requires parent.Keys <= edge.Keys
    ensures r == Reconstruct(goal, parent, edge, shipment.id)
  {
    ghost var full := Chain(parent, goal, |parent|);
    ChainShape(parent, goal, |parent|);
    var nodes: seq<Node> := [];
    var segments: seq<Segment> := [];
    var providers: seq<string> := [];
    var totalCost, totalETD := 0.0, 0.0;
    var current := goal;
    var left: nat := |parent|;
    ghost var k := 0;
    while current in parent
      invariant 0 <= k < |full| && current == full[k] && left == |parent| - k
      invariant nodes == full[..k]
      invariant segments == TransitSegments(full[..k], edge)
      invariant providers == SegmentProviders(segments)
      invariant totalCost == SumCosts(full[..k], edge) && totalETD == SumETDs(full[..k], edge)
      decreases left
    {
      if left == 0 {
        ReconstructGivesUp(goal, parent, edge, shipment.id);
        return None;
      }
      ReconstructStep(goal, parent, edge, k);
      var prev := parent[current];
      var data := edge[current];
      totalCost := totalCost + data.cost;
      totalETD := totalETD + data.etd;
      if data.info.Transit? {
        var seg := TransitSegment(data.info.route.providerId, data.info.route.fromZone, data.info.route.toZone,
                                  data.cost, data.etd);
        ProvidersSnoc(segments, seg);
        providers := providers + [data.info.route.providerId];
        segments := segments + [seg];
      }
      nodes := nodes + [current];
      current := prev;
      left := left - 1;
      k := k + 1;
    }
    ReconstructDone(goal, parent, edge, shipment.id, k);
    nodes := nodes + [current];
    nodes := Reverse(nodes);
    segments := Reverse(segments);
    var distinct := Dedup(providers);
    return Some(NewMultiHopPath(shipment.id, nodes, segments, Fin(totalCost), Fin(totalETD), distinct, |distinct|));
  }

  /** When `|parent|` steps up from the goal end at a node that still has a parent,
      reconstruction gives up. */
  lemma ReconstructGivesUp(goal: Node, parent: map<Node, Node>, edge: map<Node, EdgeRecord<StepInfo>>,
                           shipmentId: string)
    requires var c := Chain(parent, goal, |parent|); |c| == |parent| + 1 && c[|parent|] in parent
    ensures Reconstruct(goal, parent, edge, shipmentId) == None
  {
    ChainShape(parent, goal, |parent|);
  }

  /** One step up from the `k`-th node of the chain: the node has a parent, the next node of the
      chain, and edge data, whose cost, time and (for a transit step) segment extend the sums and
      the segments of the first `k` nodes. */
  lemma ReconstructStep(goal: Node, parent: map<Node, Node>, edge: map<Node, EdgeRecord<StepInfo>>, k: nat)
    requires parent.Keys <= edge.Keys
    requires var c := Chain(parent, goal, |parent|); k < |c| && c[k] in parent && (k == |c| - 1 ==> k < |parent|)
    ensures var c := Chain(parent, goal, |parent|); var n := c[k];
      && k < |c| - 1 && n in parent && n in edge && c[k + 1] == parent[n]
      && c[..k + 1] == c[..k] + [n]
      && TransitSegments(c[..k + 1], edge) ==
         TransitSegments(c[..k], edge) + (if edge[n].info.Transit? then [TransitSegmentOf(edge[n])] else [])
      && SumCosts(c[..k + 1], edge) == SumCosts(c[..k], edge) + edge[n].cost
      && SumETDs(c[..k + 1], edge) == SumETDs(c[..k], edge) + edge[n].etd
  {
    var c := Chain(parent, goal, |parent|);
    ChainShape(parent, goal, |parent|);
    ChainFollowsParents(parent, goal, |parent|, k);
    assert c[..k + 1] == c[..k] + [c[k]];
    assert c[..k + 1][..k] == c[..k];
    SumsSnoc(c[..k], c[k], edge);
  }

  /** Appending a segment appends its provider when it is a transit segment. */
  lemma ProvidersSnoc(segs: seq<Segment>, seg: Segment)
    ensures SegmentProviders(segs + [seg]) ==
      SegmentProviders(segs) + (if seg.TransitSegment? then [seg.providerId'] else [])
  {
    assert (segs + [seg])[..|segs|] == segs;
  }

  /** When the walk up from the goal stops at the `k`-th node of the chain, which has no parent,
      that node is the last of the chain and reconstruction succeeds with the first `k` nodes as
      the steps. */
  lemma ReconstructDone(goal: Node, parent: map<Node, Node>, edge: map<Node, EdgeRecord<StepInfo>>,
                        shipmentId: string, k: nat)
    requires var c := Chain(parent, goal, |parent|); k < |c| && c[k] !in parent
    ensures var c := Chain(parent, goal, |parent|);
      var segs := TransitSegments(c[..k], edge);
      var providers := Dedup(SegmentProviders(segs));
      && c == c[..k] + [c[k]]
      && Reconstruct(goal, parent, edge, shipmentId) ==
         Some(NewMultiHopPath(shipmentId, Reverse(c[..k] + [c[k]]), Reverse(segs), Fin(SumCosts(c[..k], edge)),
                              Fin(SumETDs(c[..k], edge)), providers, |providers|))
  {
    var c := Chain(parent, goal, |parent|);
    ChainShape(parent, goal, |parent|);
    if k < |c| - 1 {
      ChainFollowsParents(parent, goal, |parent|, k);
    }
    assert c == c[..k] + [c[k]];
  }

  /** A transit segment is recorded for `nodes` exactly when some node of `nodes` was reached by
      a transit step whose segment it is. */
  lemma {:induction false} InTransitSegments(nodes: seq<Node>, edge: map<Node, EdgeRecord<StepInfo>>, seg: Segment)
    ensures seg in TransitSegments(nodes, edge) <==>
      exists n :: n in nodes && n in edge && edge[n].info.Transit? && seg == TransitSegmentOf(edge[n])
  {
    if nodes != [] {
      var n := |nodes| - 1;
      InTransitSegments(nodes[..n], edge, seg);
      assert nodes == nodes[..n] + [nodes[n]];
    }
  }

  /** A provider is listed exactly when some transit segment names it. */
  lemma {:induction false} InSegmentProviders(segs: seq<Segment>, x: string)
    ensures x in SegmentProviders(segs) <==> exists seg :: seg in segs && seg.TransitSegment? && seg.providerId' == x
  {
    if segs != [] {
      var n := |segs| - 1;
      InSegmentProviders(segs[..n], x);
      assert segs == segs[..n] + [segs[n]];
    }
  }

  /** Only transit segments are recorded. */
  lemma {:induction false} TransitOnly(nodes: seq<Node>, edge: map<Node, EdgeRecord<StepInfo>>)
    ensures forall seg :: seg in TransitSegments(nodes, edge) ==> seg.TransitSegment?
  {
    if nodes != [] {
      TransitOnly(nodes[..|nodes| - 1], edge);
    }
  }

  /** When a path's segments are those of `segs` reversed, all transit segments, and its providers
      those `segs` names, each segment's provider is listed and each listed provider names a
      segment. */
  lemma ProvidersMatchSegments(segs: seq<Segment>, p: MultiHopPath)
    requires forall seg :: seg in segs ==> seg.TransitSegment?
    requires p.segments == Reverse(segs)
    requires forall x :: x in p.providersInvolved <==> x in SegmentProviders(segs)
    ensures forall seg :: seg in p.segments ==> seg.TransitSegment? && seg.providerId' in p.providersInvolved
    ensures forall x :: x in p.providersInvolved ==>
      exists seg :: seg in p.segments && seg.TransitSegment? && seg.providerId' == x
  {
    ReversePermutes(segs);
    forall seg | seg in p.segments
      ensures seg.TransitSegment? && seg.providerId' in p.providersInvolved
    {
      assert seg in multiset(segs);
      InSegmentProviders(segs, seg.providerId');
    }
    forall x | x in p.providersInvolved
      ensures exists seg :: seg in p.segments && seg.TransitSegment? && seg.providerId' == x
    {
      InSegmentProviders(segs, x);
      var seg :| seg in segs && seg.TransitSegment? && seg.providerId' == x;
      assert seg in multiset(p.segments);
    }
  }

  /** The segments of a reconstructed path are transit segments only; the providers listed are
      exactly those the segments name, each once, and the hop count is their number. */
  lemma ReconstructProviders(goal: Node, parent: map<Node, Node>, edge: map<Node, EdgeRecord<StepInfo>>,
                             shipmentId: string)
    returns (p: MultiHopPath)
    requires Reconstruct(goal, parent, edge, shipmentId).Some?
    ensures Reconstruct(goal, parent, edge, shipmentId) == Some(p)
    ensures p.numHops == |p.providersInvolved|
    ensures forall seg :: seg in p.segments ==> seg.TransitSegment? && seg.providerId' in p.providersInvolved
    ensures forall x :: x in p.providersInvolved ==>
      exists seg :: seg in p.segments && seg.TransitSegment? && seg.providerId' == x
  {
    var c := Chain(parent, goal, |parent|);
    ChainShape(parent, goal, |parent|);
    var steps := c[..|c| - 1];
    var segs := TransitSegments(steps, edge);
    var providers := Dedup(SegmentProviders(segs));
    DedupOfDistinct(providers);
    p := Reconstruct(goal, parent, edge, shipmentId).value;
    assert p.segments == Reverse(segs) && p.providersInvolved == providers && p.numHops == |providers|;
    TransitOnly(steps, edge);
    ProvidersMatchSegments(segs, p);
  }

  /** A reconstructed path lists the chain from the goal reversed and costs the sum of its steps. */
  lemma ReconstructFields(goal: Node, parent: map<Node, Node>, edge: map<Node, EdgeRecord<StepInfo>>,
                          shipmentId: string)
    requires edge.Keys <= parent.Keys
    requires Reconstruct(goal, parent, edge, shipmentId).Some?
    ensures var c := Chain(parent, goal, |parent|);
      && Reconstruct(goal, parent, edge, shipmentId).value.nodes == Reverse(c)
      && Reconstruct(goal, parent, edge, shipmentId).value.totalCost == Fin(SumCosts(c, edge))
  {
    var c := Chain(parent, goal, |parent|);
    ChainShape(parent, goal, |parent|);
    var k := |c| - 1;
    ReconstructDone(goal, parent, edge, shipmentId, k);
    SumsSnoc(c[..k], c[k], edge);
  }

  /** A reconstructed path runs down the parent pointers from where the chain of parents ends to
      the goal, and costs the sum of the edge costs along that chain. */
  lemma ReconstructWalk(goal: Node, parent: map<Node, Node>, edge: map<Node, EdgeRecord<StepInfo>>,
                        shipmentId: string)
    returns (p: MultiHopPath)
    requires edge.Keys <= parent.Keys
    requires Reconstruct(goal, parent, edge, shipmentId).Some?
    ensures Reconstruct(goal, parent, edge, shipmentId) == Some(p)
    ensures |p.nodes| >= 1 && p.nodes[0] == ChainEnd(parent, goal, |parent|) && p.nodes[|p.nodes| - 1] == goal
    ensures WalksDown(p.nodes, parent, 0, |p.nodes| - 1)
    ensures p.totalCost == Fin(SumCosts(Chain(parent, goal, |parent|), edge))
  {
    p := Reconstruct(goal, parent, edge, shipmentId).value;
    ReconstructFields(goal, parent, edge, shipmentId);
    var c := Chain(parent, goal, |parent|);
    ChainShape(parent, goal, |parent|);
    ChainWalksUp(parent, goal, |parent|);
    ReverseWalk(c, parent);
  }

  /** Reconstructing from a costed node of a search tree gives a path from the root to that node
      down the parent pointers, costing no more than the node's recorded cost, and within
      `maxCost` unless the node is the root. */
  lemma ReconstructInTree(start: Node, g: map<Node, real>, parent: map<Node, Node>,
                          edge: map<Node, EdgeRecord<StepInfo>>, maxCost: ExtReal, goal: Node, shipmentId: string)
    returns (p: MultiHopPath)
    requires TreeOk(start, g, parent, edge, maxCost)
    requires goal in g
    requires Reconstruct(goal, parent, edge, shipmentId).Some?
    ensures Reconstruct(goal, parent, edge, shipmentId) == Some(p)
    ensures |p.nodes| >= 1 && p.nodes[0] == start && p.nodes[|p.nodes| - 1] == goal
    ensures WalksDown(p.nodes, parent, 0, |p.nodes| - 1)
    ensures p.totalCost.Le(Fin(g[goal]))
    ensures goal in parent ==> p.totalCost.Le(maxCost)
  {
    p := ReconstructWalk(goal, parent, edge, shipmentId);
    ChainShape(parent, goal, |parent|);
    CompleteChainCost(start, g, parent, edge, maxCost, goal, |parent|);
  }

  /** A node without a parent reconstructs to itself alone: no segments, zero cost and time, no
      hops. */
  lemma ReconstructAtRoot(goal: Node, parent: map<Node, Node>, edge: map<Node, EdgeRecord<StepInfo>>, shipmentId: string)
    requires goal !in parent
    ensures Reconstruct(goal, parent, edge, shipmentId).Some?
    ensures var p := Reconstruct(goal, parent, edge, shipmentId).value;
      && p.nodes == [goal] && p.segments == [] && p.totalCost == Fin(0.0) && p.totalETD == Fin(0.0)
      && p.providersInvolved == [] && p.numHops == 0
  {
    assert Chain(parent, goal, |parent|) == [goal];
    assert Reverse([goal]) == [goal];
  }

  /** Reconstruction gives up only when the walk up the parent pointers meets a node twice. */
  lemma ReconstructFailsOnlyOnCycle(goal: Node, parent: map<Node, Node>, edge: map<Node, EdgeRecord<StepInfo>>,
                                    shipmentId: string)
    requires Reconstruct(goal, parent, edge, shipmentId).None?
    ensures var c := Chain(parent, goal, |parent|);
      exists i, j :: 0 <= i < j < |c| && c[i] == c[j]
  {
    var c := Chain(parent, goal, |parent|);
    ChainShape(parent, goal, |parent|);
    forall i | 0 <= i < |c| ensures c[i] in parent.Keys {
      if i < |c| - 1 {
        ChainFollowsParents(parent, goal, |parent|, i);
      }
    }
    Pigeonhole(c, parent.Keys);
  }
}
