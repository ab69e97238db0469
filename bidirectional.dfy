/** The bidirectional engine: a forward search from the origin postcode over outgoing routes, a
    backward search from the destination postcode over incoming routes, and the paths assembled
    at the postcodes both searches reached. */
module Bidirectional {
  import opened Common
  import opened DataModel
  import opened Index
  import opened SearchTree

  /** The engine: the graph index, the postcode records by code, the state coordinate table, and
      the square root the heuristic takes (floating point is not modelled, so it is a parameter). */
  datatype Engine = Engine(
    index: GraphIndex, postcodes: map<string, Postcode>, stateCoords: map<string, (real, real)>,
    sqrt: real -> real)

  /** The constructor: the engine keeps the index and postcodes it is given and the fixed table of
      state coordinates. */
  function NewEngine(index: GraphIndex, postcodes: map<string, Postcode>, sqrt: real -> real): (eng: Engine)
    ensures eng.stateCoords.Keys == {"NSW", "VIC", "QLD", "WA", "SA", "TAS", "ACT", "NT"}
    ensures eng.index == index && eng.postcodes == postcodes
  {
    Engine(index, postcodes, StateCoords, sqrt)
  }

  // ---------------------------------------------------------------------------------------
  // Heuristic

  /** Representative (longitude, latitude) of each state's capital. */
  const StateCoords: map<string, (real, real)> := map[
    "NSW" := (150.9, -33.9), "VIC" := (145.1, -37.8), "QLD" := (153.0, -27.5),
    "WA" := (115.9, -31.9), "SA" := (139.2, -34.4), "TAS" := (147.1, -42.9),
    "ACT" := (149.2, -35.3), "NT" := (130.8, -12.5)]

  /** A postcode's state, with an empty state read as NSW. */
  function StateOf(p: Postcode): string {
    if p.state == "" then "NSW" else p.state
  }

  function Square(x: real): real { x * x }

  /** Estimated cost between two postcodes: one hundredth of the distance between their states'
      coordinates, and 0 when either postcode or either state is unknown. */
  function Heuristic(eng: Engine, pcA: string, pcB: string): real {
    if pcA !in eng.postcodes || pcB !in eng.postcodes then 0.0
    else
      var sA := StateOf(eng.postcodes[pcA]);
      var sB := StateOf(eng.postcodes[pcB]);
      if sA !in eng.stateCoords || sB !in eng.stateCoords then 0.0
      else
        var (lonA, latA) := eng.stateCoords[sA];
        var (lonB, latB) := eng.stateCoords[sB];
        eng.sqrt(Square(lonA - lonB) + Square(latA - latB)) * 0.01
  }

  /** Estimate from any vertex: a postcode's own estimate, a zone's first member postcode's
      estimate, and 0 for a zone without members. */
  function HeuristicNode(eng: Engine, n: Node, goalPC: string): real {
    match n
    case PC(code) => Heuristic(eng, code, goalPC)
    case PZ(z, p) =>
      var pcs := eng.index.GetPostcodesForZone(p, z);
      if pcs != [] then Heuristic(eng, pcs[0], goalPC) else 0.0
  }

  /** The estimate is symmetric, is 0 when a postcode or its state is unknown, is the root of 0
      scaled for two postcodes of one state, and is never negative for a non-negative root. */
  lemma HeuristicProperties(eng: Engine, pcA: string, pcB: string)
    ensures Heuristic(eng, pcA, pcB) == Heuristic(eng, pcB, pcA)
    ensures pcA !in eng.postcodes || pcB !in eng.postcodes ==> Heuristic(eng, pcA, pcB) == 0.0
    ensures pcA in eng.postcodes && pcB in eng.postcodes &&
            (StateOf(eng.postcodes[pcA]) !in eng.stateCoords || StateOf(eng.postcodes[pcB]) !in eng.stateCoords)
            ==> Heuristic(eng, pcA, pcB) == 0.0
    ensures pcA in eng.postcodes && pcB in eng.postcodes &&
            StateOf(eng.postcodes[pcA]) == StateOf(eng.postcodes[pcB])
            ==> Heuristic(eng, pcA, pcB) == 0.0 || Heuristic(eng, pcA, pcB) == eng.sqrt(0.0) * 0.01
    ensures (forall x :: eng.sqrt(x) >= 0.0) ==> Heuristic(eng, pcA, pcB) >= 0.0
  {
    if pcA in eng.postcodes && pcB in eng.postcodes {
      var sA := StateOf(eng.postcodes[pcA]);
      var sB := StateOf(eng.postcodes[pcB]);
      if sA in eng.stateCoords && sB in eng.stateCoords {
        var (lonA, latA) := eng.stateCoords[sA];
        var (lonB, latB) := eng.stateCoords[sB];
        assert Square(lonA - lonB) == Square(lonB - lonA);
        assert Square(latA - latB) == Square(latB - latA);
      }
    }
  }

  /** A vertex's estimate: a postcode's own, a zone's first member postcode's, 0 for a zone
      without members (so for a zone no provider lists, in a built index) and 0 towards an
      unknown goal; never negative for a non-negative root. */
  lemma HeuristicNodeProperties(eng: Engine, n: Node, goalPC: string)
    ensures n.PC? ==> HeuristicNode(eng, n, goalPC) == Heuristic(eng, n.code, goalPC)
    ensures n.PZ? ==> var pcs := eng.index.GetPostcodesForZone(n.provider, n.zone);
      HeuristicNode(eng, n, goalPC) == if pcs == [] then 0.0 else Heuristic(eng, pcs[0], goalPC)
    ensures n.PZ? && eng.index.Valid() && !ZoneListed(eng.index.providerZones, n.provider, n.zone)
            ==> HeuristicNode(eng, n, goalPC) == 0.0
    ensures goalPC !in eng.postcodes ==> HeuristicNode(eng, n, goalPC) == 0.0
    ensures (forall x :: eng.sqrt(x) >= 0.0) ==> HeuristicNode(eng, n, goalPC) >= 0.0
  {
    match n {
      case PC(code) =>
        HeuristicProperties(eng, code, goalPC);
      case PZ(z, p) =>
        var pcs := eng.index.GetPostcodesForZone(p, z);
        if eng.index.Valid() {
          PostcodesForZoneSpec(eng.index, p, z);
        }
        if pcs != [] {
          HeuristicProperties(eng, pcs[0], goalPC);
        }
    }
  }

  /** An empty state is estimated exactly as NSW. */
  lemma EmptyStateIsNSW(eng: Engine, pcA: string, pcB: string, p: Postcode)
    requires pcA in eng.postcodes && eng.postcodes[pcA].state == ""
    ensures Heuristic(eng, pcA, pcB) ==
            Heuristic(eng.(postcodes := eng.postcodes[pcA := eng.postcodes[pcA].(state := "NSW")]), pcA, pcB)
  {
  }

  // ---------------------------------------------------------------------------------------
  // Neighbours

  /** The tag an edge leaves in the edge data: entering a provider network, leaving it, or a zone
      route (whose service type and provider the path keeps). */
  datatype EdgeKind = Entry | Exit | ZoneRoute(route: ProviderZoneRoute)

  /** An expansion step: the vertex reached, its cost and time, and its tag. */
  datatype Edge = Edge(to: Node, cost: real, etd: real, kind: EdgeKind)

  /** Entry into each listed zone, free of cost and time. */
  function ZoneEdges(keys: seq<ZoneKey>, kind: EdgeKind): seq<Edge> {
    if keys == [] then []
    else
      var k := keys[|keys| - 1];
      ZoneEdges(keys[..|keys| - 1], kind) + [Edge(PZ(k.zone, k.provider), 0.0, 0.0, kind)]
  }

  /** One edge per route, to its target zone going forward and its source zone going backward,
      under the provider of the zone being expanded, priced for the shipment's weight. */
  function RouteEdges(routes: seq<ProviderZoneRoute>, p: string, w: real, forward: bool): seq<Edge> {
    if routes == [] then []
    else
      var r := routes[|routes| - 1];
      RouteEdges(routes[..|routes| - 1], p, w, forward) +
        [Edge(PZ(if forward then r.toZone else r.fromZone, p), r.CalculateCost(w), r.deliveryHrs, ZoneRoute(r))]
  }

  /** Exit to each listed postcode, free of cost and time. */
  function PostcodeEdges(pcs: seq<string>, kind: EdgeKind): seq<Edge> {
    if pcs == [] then []
    else PostcodeEdges(pcs[..|pcs| - 1], kind) + [Edge(PC(pcs[|pcs| - 1]), 0.0, 0.0, kind)]
  }

  /** The expansion of a vertex: a postcode enters every zone that lists it; a zone follows its
      outgoing (forward) or incoming (backward) routes, then exits to its member postcodes. The
      tags of the free edges swap going backward. */
  function Neighbors(idx: GraphIndex, n: Node, w: real, forward: bool): seq<Edge> {
    match n
    case PC(code) => ZoneEdges(idx.GetZonesForPostcode(code), if forward then Entry else Exit)
    case PZ(z, p) =>
      RouteEdges(if forward then idx.GetOutgoingRoutes(p, z) else idx.GetIncomingRoutes(p, z), p, w, forward)
      + PostcodeEdges(idx.GetPostcodesForZone(p, z), if forward then Exit else Entry)
  }

  /** `_get_neighbors`: the edges out of `n`, in the order the index lists them. */
  method GetNeighbors(idx: GraphIndex, n: Node, w: real, forward: bool) returns (ns: seq<Edge>)
    ensures ns == Neighbors(idx, n, w, forward)
  {
    ns := [];
    match n {
      case PC(code) =>
        var keys := idx.GetZonesForPostcode(code);
        var kind := if forward then Entry else Exit;
        for i := 0 to |keys|
          invariant ns == ZoneEdges(keys[..i], kind)
        {
          ZoneEdgesSnoc(keys, i, kind);
          ns := ns + [Edge(PZ(keys[i].zone, keys[i].provider), 0.0, 0.0, kind)];
        }
        assert keys[..|keys|] == keys;
      case PZ(z, p) =>
        var routes := if forward then idx.GetOutgoingRoutes(p, z) else idx.GetIncomingRoutes(p, z);
        for i := 0 to |routes|
          invariant ns == RouteEdges(routes[..i], p, w, forward)
        {
          RouteEdgesSnoc(routes, i, p, w, forward);
          var r := routes[i];
          ns := ns + [Edge(PZ(if forward then r.toZone else r.fromZone, p), r.CalculateCost(w),
                           r.deliveryHrs, ZoneRoute(r))];
        }
        assert routes[..|routes|] == routes;
        var pcs := idx.GetPostcodesForZone(p, z);
        var kind := if forward then Exit else Entry;
        ghost var done := ns;
        for i := 0 to |pcs|
          invariant ns == done + PostcodeEdges(pcs[..i], kind)
        {
          PostcodeEdgesSnoc(done, pcs, i, kind);
          ns := ns + [Edge(PC(pcs[i]), 0.0, 0.0, kind)];
        }
        assert pcs[..|pcs|] == pcs;
    }
  }

  lemma ZoneEdgesSnoc(keys: seq<ZoneKey>, i: nat, kind: EdgeKind)
    requires i < |keys|
    ensures ZoneEdges(keys[..i + 1], kind)
         == ZoneEdges(keys[..i], kind) + [Edge(PZ(keys[i].zone, keys[i].provider), 0.0, 0.0, kind)]
  {
    assert keys[..i + 1][..i] == keys[..i];
  }

  lemma RouteEdgesSnoc(routes: seq<ProviderZoneRoute>, i: nat, p: string, w: real, forward: bool)
    requires i < |routes|
    ensures RouteEdges(routes[..i + 1], p, w, forward)
         == RouteEdges(routes[..i], p, w, forward)
            + [Edge(PZ(if forward then routes[i].toZone else routes[i].fromZone, p),
                    routes[i].CalculateCost(w), routes[i].deliveryHrs, ZoneRoute(routes[i]))]
  {
    assert routes[..i + 1][..i] == routes[..i];
  }

  lemma PostcodeEdgesSnoc(done: seq<Edge>, pcs: seq<string>, i: nat, kind: EdgeKind)
    requires i < |pcs|
    ensures done + PostcodeEdges(pcs[..i + 1], kind)
         == (done + PostcodeEdges(pcs[..i], kind)) + [Edge(PC(pcs[i]), 0.0, 0.0, kind)]
  {
    assert pcs[..i + 1][..i] == pcs[..i];
  }

  lemma {:induction false} InZoneEdges(keys: seq<ZoneKey>, kind: EdgeKind, e: Edge)
    ensures e in ZoneEdges(keys, kind) <==>
      e.to.PZ? && ZoneKey(e.to.provider, e.to.zone) in keys && e.cost == 0.0 && e.etd == 0.0 && e.kind == kind
  {
    if keys != [] {
      var n := |keys| - 1;
      InZoneEdges(keys[..n], kind, e);
      assert keys == keys[..n] + [keys[n]];
    }
  }

  lemma {:induction false} InRouteEdges(routes: seq<ProviderZoneRoute>, p: string, w: real, forward: bool, e: Edge)
    ensures e in RouteEdges(routes, p, w, forward) <==>
      e.kind.ZoneRoute? && e.kind.route in routes &&
      e.to == PZ(if forward then e.kind.route.toZone else e.kind.route.fromZone, p) &&
      e.cost == e.kind.route.CalculateCost(w) && e.etd == e.kind.route.deliveryHrs
  {
    if routes != [] {
      var n := |routes| - 1;
      InRouteEdges(routes[..n], p, w, forward, e);
      assert routes == routes[..n] + [routes[n]];
    }
  }

  lemma {:induction false} InPostcodeEdges(pcs: seq<string>, kind: EdgeKind, e: Edge)
    ensures e in PostcodeEdges(pcs, kind) <==>
      e.to.PC? && e.to.code in pcs && e.cost == 0.0 && e.etd == 0.0 && e.kind == kind
  {
    if pcs != [] {
      var n := |pcs| - 1;
      InPostcodeEdges(pcs[..n], kind, e);
      assert pcs == pcs[..n] + [pcs[n]];
    }
  }

  /** From a postcode the search can only enter, free, a zone filed under some provider whose
      member list names that postcode; and every such zone is offered. */
  lemma PostcodeNeighbors(idx: GraphIndex, code: string, w: real, forward: bool, e: Edge)
    requires idx.Valid()
    ensures e in Neighbors(idx, PC(code), w, forward) <==>
      && e.to.PZ? && e.cost == 0.0 && e.etd == 0.0 && e.kind == (if forward then Entry else Exit)
      && exists i, zone :: 0 <= i < |idx.providerZones| && zone in idx.providerZones[i].1
           && idx.providerZones[i].0 == e.to.provider && zone.zoneCode == e.to.zone
           && code in zone.postcodes
  {
    InZoneEdges(idx.GetZonesForPostcode(code), if forward then Entry else Exit, e);
    if e.to.PZ? {
      ZonesForPostcodeSpec(idx, code, e.to.provider, e.to.zone);
    }
  }

  /** From a zone the search follows exactly the routes of the zone's provider that leave it
      (forward) or arrive at it (backward), each to its other end and priced for the weight, and
      exits free to the zone's member postcodes. */
  lemma ZoneNeighbors(idx: GraphIndex, z: string, p: string, w: real, forward: bool, e: Edge)
    requires idx.Valid()
    ensures e in Neighbors(idx, PZ(z, p), w, forward) <==>
      || (&& e.kind.ZoneRoute? && e.kind.route in Flatten(idx.zoneRoutes)
          && e.kind.route.providerId == p
          && (if forward then e.kind.route.fromZone == z && e.to == PZ(e.kind.route.toZone, p)
              else e.kind.route.toZone == z && e.to == PZ(e.kind.route.fromZone, p))
          && e.cost == e.kind.route.CalculateCost(w) && e.etd == e.kind.route.deliveryHrs)
      || (&& e.to.PC? && e.to.code in idx.GetPostcodesForZone(p, z)
          && e.cost == 0.0 && e.etd == 0.0 && e.kind == (if forward then Exit else Entry))
  {
    var routes := if forward then idx.GetOutgoingRoutes(p, z) else idx.GetIncomingRoutes(p, z);
    InRouteEdges(routes, p, w, forward, e);
    InPostcodeEdges(idx.GetPostcodesForZone(p, z), if forward then Exit else Entry, e);
    if e.kind.ZoneRoute? {
      if forward {
        OutgoingRoutesSpec(idx, p, z, e.kind.route);
      } else {
        IncomingRoutesSpec(idx, p, z, e.kind.route);
      }
    }
  }

  /** The backward search walks the forward graph's zone routes in reverse: a route edge from
      zone a to zone b exists going forward exactly when the same route, at the same price and
      time, leads from b back to a going backward. */
  lemma BackwardReversesRoutes(idx: GraphIndex, a: string, b: string, p: string, w: real,
                               r: ProviderZoneRoute)
    requires idx.Valid()
    ensures Edge(PZ(b, p), r.CalculateCost(w), r.deliveryHrs, ZoneRoute(r)) in Neighbors(idx, PZ(a, p), w, true)
        <==> Edge(PZ(a, p), r.CalculateCost(w), r.deliveryHrs, ZoneRoute(r)) in Neighbors(idx, PZ(b, p), w, false)
  {
    ZoneNeighbors(idx, a, p, w, true, Edge(PZ(b, p), r.CalculateCost(w), r.deliveryHrs, ZoneRoute(r)));
    ZoneNeighbors(idx, b, p, w, false, Edge(PZ(a, p), r.CalculateCost(w), r.deliveryHrs, ZoneRoute(r)));
  }

  /** Every edge alternates sides as the model requires: a postcode leads only to zones, a zone
      route stays inside the expanded zone's provider, and only zone routes cost anything. */
  lemma EdgeShapes(idx: GraphIndex, n: Node, w: real, forward: bool, e: Edge)
    requires e in Neighbors(idx, n, w, forward)
    ensures n.PC? ==> e.to.PZ? && !e.kind.ZoneRoute?
    ensures e.kind.ZoneRoute? ==> n.PZ? && e.to.PZ? && e.to.provider == n.provider
    ensures e.to.PC? ==> n.PZ? && !e.kind.ZoneRoute?
    ensures !e.kind.ZoneRoute? ==> e.cost == 0.0 && e.etd == 0.0
  {
    match n {
      case PC(code) =>
        InZoneEdges(idx.GetZonesForPostcode(code), if forward then Entry else Exit, e);
      case PZ(z, p) =>
        InRouteEdges(if forward then idx.GetOutgoingRoutes(p, z) else idx.GetIncomingRoutes(p, z), p, w, forward, e);
        InPostcodeEdges(idx.GetPostcodesForZone(p, z), if forward then Exit else Entry, e);
    }
  }

  /** With no route priced below zero, no edge costs less than zero. */
  lemma EdgeCostNonNegative(idx: GraphIndex, n: Node, w: real, forward: bool, e: Edge)
    requires NonNegativePrices(idx, w)
    requires e in Neighbors(idx, n, w, forward)
    ensures e.cost >= 0.0
  {
    EdgeShapes(idx, n, w, forward, e);
    if e.kind.ZoneRoute? {
      ZoneNeighbors(idx, n.zone, n.provider, w, forward, e);
    }
  }

  /** Every vertex a search from `start` can meet: the start and every end of an index entry. */
  ghost function Vertices(idx: GraphIndex, start: Node): set<Node> {
    {start}
    + (set pc, k | k in idx.zoneToPCs && pc in idx.zoneToPCs[k] :: PC(pc))
    + (set pc, k | pc in idx.pcToZones && k in idx.pcToZones[pc] :: PZ(k.zone, k.provider))
    + (set k, r | k in idx.zoneAdj && r in idx.zoneAdj[k] :: PZ(r.toZone, k.provider))
    + (set k, r | k in idx.revZoneAdj && r in idx.revZoneAdj[k] :: PZ(r.fromZone, k.provider))
  }

  /** Expansion never leaves the finite vertex set, in either direction. */
  lemma NeighborsInVertices(idx: GraphIndex, start: Node, n: Node, w: real, forward: bool, e: Edge)
    requires e in Neighbors(idx, n, w, forward)
    ensures e.to in Vertices(idx, start)
  {
    match n {
      case PC(code) =>
        var keys := idx.GetZonesForPostcode(code);
        InZoneEdges(keys, if forward then Entry else Exit, e);
        assert code in idx.pcToZones && ZoneKey(e.to.provider, e.to.zone) in idx.pcToZones[code];
      case PZ(z, p) =>
        var k := ZoneKey(p, z);
        var routes := if forward then idx.GetOutgoingRoutes(p, z) else idx.GetIncomingRoutes(p, z);
        InRouteEdges(routes, p, w, forward, e);
        InPostcodeEdges(idx.GetPostcodesForZone(p, z), if forward then Exit else Entry, e);
        if e.kind.ZoneRoute? && e.kind.route in routes {
          if forward {
            assert k in idx.zoneAdj && e.kind.route in idx.zoneAdj[k];
          } else {
            assert k in idx.revZoneAdj && e.kind.route in idx.revZoneAdj[k];
          }
        } else {
          assert k in idx.zoneToPCs && e.to.code in idx.zoneToPCs[k];
        }
    }
  }

  /** Every edge any expansion offers ends in `V`. */
  ghost predicate Enclosed(idx: GraphIndex, w: real, forward: bool, V: set<Node>) {
    forall n, e :: e in Neighbors(idx, n, w, forward) ==> e.to in V
  }

  /** The vertex set of a search holds its start and is closed under expansion. */
  lemma VerticesEnclosed(idx: GraphIndex, start: Node, w: real, forward: bool)
    ensures start in Vertices(idx, start)
    ensures Enclosed(idx, w, forward, Vertices(idx, start))
  {
    forall n, e | e in Neighbors(idx, n, w, forward) ensures e.to in Vertices(idx, start) {
      NeighborsInVertices(idx, start, n, w, forward, e);
    }
  }

  // ---------------------------------------------------------------------------------------
  // One-direction search

  /** What one search returns: `came_from`, `g_score` and `edge_data`. */
  datatype SearchResult = SearchResult(
    parent: map<Node, Node>, cost: map<Node, real>, edge: map<Node, EdgeRecord<EdgeKind>>)

  /** The search's working state: the three maps, the open set and the push counter. */
  datatype SearchState = SearchState(
    g: map<Node, real>, parent: map<Node, Node>, edge: map<Node, EdgeRecord<EdgeKind>>,
    heap: seq<QueueItem>, counter: int)

  /** The edge recorded for `n`, if any, is an edge the expansion of `n`'s parent offers. */
  ghost predicate TreeEdge(idx: GraphIndex, w: real, forward: bool,
                           parent: map<Node, Node>, edge: map<Node, EdgeRecord<EdgeKind>>, n: Node)
  {
    n in parent && n in edge ==>
      Edge(n, edge[n].cost, edge[n].etd, edge[n].info) in Neighbors(idx, parent[n], w, forward)
  }

  /** Every recorded edge is an edge the expansion of the node's parent offers. */
  ghost predicate Genuine(idx: GraphIndex, w: real, forward: bool,
                          parent: map<Node, Node>, edge: map<Node, EdgeRecord<EdgeKind>>)
  {
    forall n {:trigger TreeEdge(idx, w, forward, parent, edge, n)} :: TreeEdge(idx, w, forward, parent, edge, n)
  }

  /** No recorded edge takes longer than `maxETD`. */
  ghost predicate WithinETD(edge: map<Node, EdgeRecord<EdgeKind>>, maxETD: ExtReal) {
    forall n :: n in edge ==> Fin(edge[n].etd).Le(maxETD)
  }

  /** A search tree from `start` of genuine edges within both thresholds, and only costed
      vertices queued. */
  ghost predicate SearchShape(idx: GraphIndex, start: Node, w: real, forward: bool,
                              maxCost: ExtReal, maxETD: ExtReal, s: SearchState)
  {
    && TreeOk(start, s.g, s.parent, s.edge, maxCost)
    && Genuine(idx, w, forward, s.parent, s.edge)
    && WithinETD(s.edge, maxETD)
    && HeapNodes(s.heap) <= s.g.Keys
  }

  /** The shape the working state keeps throughout a search from `start`; with no route priced
      below zero, the parent pointers are also ordered by (cost, push counter), so they never
      form a cycle. */
  ghost predicate SearchOk(idx: GraphIndex, start: Node, w: real, forward: bool,
                           maxCost: ExtReal, maxETD: ExtReal, s: SearchState)
  {
    && SearchShape(idx, start, w, forward, maxCost, maxETD, s)
    && (NonNegativePrices(idx, w) ==> Acyclic(s.g, s.parent, s.counter))
  }

  /** The targets of a list of edges. */
  ghost function Targets(ns: seq<Edge>): set<Node> {
    set e | e in ns :: e.to
  }

  /** An edge the search takes from a vertex expanded at cost `gv`: its time and the cost of
      reaching its target through it are within the thresholds. */
  predicate Admissible(e: Edge, gv: real, maxCost: ExtReal, maxETD: ExtReal) {
    Fin(e.etd).Le(maxETD) && Fin(gv + e.cost).Le(maxCost)
  }

  /** An admissible edge out of a vertex expanded at `gv` has reached its target at no more than
      `gv` plus its cost. */
  predicate Reached(g: map<Node, real>, e: Edge, gv: real, maxCost: ExtReal, maxETD: ExtReal) {
    Admissible(e, gv, maxCost, maxETD) ==> e.to in g && g[e.to] <= gv + e.cost
  }

  /** The state after taking edge `e` out of `current` at cost `cg`: `e.to` gets the new cost, its
      parent and the edge, and is queued at that cost plus its estimate `h`. */
  function TakeEdge(s: SearchState, current: Node, cg: real, e: Edge, h: real): SearchState {
    SearchState(s.g[e.to := cg + e.cost], s.parent[e.to := current],
                s.edge[e.to := EdgeRecord(e.cost, e.etd, e.kind)],
                s.heap + [QueueItem(cg + e.cost + h, s.counter, e.to)], s.counter + 1)
  }

  /** Taking an admissible edge out of `current` that improves its target's cost (and is a genuine
      edge, so the tree stays genuine) keeps the state's shape and queues the target. */
  lemma TakeEdgeKeepsSearchOk(idx: GraphIndex, start: Node, w: real, forward: bool,
                              maxCost: ExtReal, maxETD: ExtReal, s: SearchState,
                              current: Node, cg: real, e: Edge, h: real)
    requires SearchOk(idx, start, w, forward, maxCost, maxETD, s)
    requires e in Neighbors(idx, current, w, forward)
    requires Genuine(idx, w, forward, s.parent[e.to := current], s.edge[e.to := EdgeRecord(e.cost, e.etd, e.kind)])
    requires current in s.g && s.g[current] <= cg
    requires Admissible(e, cg, maxCost, maxETD)
    requires e.to !in s.g || cg + e.cost < s.g[e.to]
    ensures var s' := TakeEdge(s, current, cg, e, h);
      && SearchOk(idx, start, w, forward, maxCost, maxETD, s')
      && HeapNodes(s'.heap) == HeapNodes(s.heap) + {e.to}
  {
    TakeEdgeKeepsShape(idx, start, w, forward, maxCost, maxETD, s, current, cg, e, h);
    TakeEdgeKeepsAcyclic(idx, w, forward, s, current, cg, e, h);
  }

  lemma TakeEdgeKeepsShape(idx: GraphIndex, start: Node, w: real, forward: bool,
                           maxCost: ExtReal, maxETD: ExtReal, s: SearchState,
                           current: Node, cg: real, e: Edge, h: real)
    requires SearchShape(idx, start, w, forward, maxCost, maxETD, s)
    requires Genuine(idx, w, forward, s.parent[e.to := current], s.edge[e.to := EdgeRecord(e.cost, e.etd, e.kind)])
    requires current in s.g && s.g[current] <= cg
    requires Admissible(e, cg, maxCost, maxETD)
    requires e.to !in s.g || cg + e.cost < s.g[e.to]
    ensures var s' := TakeEdge(s, current, cg, e, h);
      && SearchShape(idx, start, w, forward, maxCost, maxETD, s')
      && HeapNodes(s'.heap) == HeapNodes(s.heap) + {e.to}
  {
    RelaxKeepsTree(start, s.g, s.parent, s.edge, maxCost, current, cg, e.to, EdgeRecord(e.cost, e.etd, e.kind));
    SameKeysUpdate(s.parent, s.edge, e.to, current, EdgeRecord(e.cost, e.etd, e.kind));
    TakeEdgeWithinETD(s.edge, e, maxETD);
    TakeEdgeQueued(s.g.Keys, s.heap, QueueItem(cg + e.cost + h, s.counter, e.to));
  }

  /** The new target takes the counter value it is pushed with as its stamp. */
  lemma TakeEdgeKeepsAcyclic(idx: GraphIndex, w: real, forward: bool, s: SearchState,
                             current: Node, cg: real, e: Edge, h: real)
    requires e in Neighbors(idx, current, w, forward)
    requires current in s.g && s.g[current] <= cg
    requires e.to !in s.g || cg + e.cost < s.g[e.to]
    requires NonNegativePrices(idx, w) ==> Acyclic(s.g, s.parent, s.counter)
    ensures NonNegativePrices(idx, w) ==>
      Acyclic(TakeEdge(s, current, cg, e, h).g, TakeEdge(s, current, cg, e, h).parent, TakeEdge(s, current, cg, e, h).counter)
  {
    if NonNegativePrices(idx, w) {
      EdgeCostNonNegative(idx, current, w, forward, e);
      AcyclicRelax(s.g, s.parent, s.counter, current, cg, e.to, e.cost, s.counter);
    }
  }

  lemma TakeEdgeWithinETD(edge: map<Node, EdgeRecord<EdgeKind>>, e: Edge, maxETD: ExtReal)
    requires WithinETD(edge, maxETD) && Fin(e.etd).Le(maxETD)
    ensures WithinETD(edge[e.to := EdgeRecord(e.cost, e.etd, e.kind)], maxETD)
  {
  }

  lemma TakeEdgeQueued(keys: set<Node>, heap: seq<QueueItem>, x: QueueItem)
    requires HeapNodes(heap) <= keys
    ensures HeapNodes(heap + [x]) == HeapNodes(heap) + {x.node}
    ensures HeapNodes(heap + [x]) <= keys + {x.node}
  {
    HeapNodesPush(heap, x);
  }

  /** Giving `e.to` the lower cost `cg + e.cost` lowers no cost, keeps `current` at or under `cg`,
      adds at most `e.to`, queues it, and reaches it. */
  lemma TakeEdgeCosts(s: SearchState, current: Node, cg: real, e: Edge, h: real, maxCost: ExtReal, maxETD: ExtReal)
    requires current in s.g && s.g[current] <= cg
    requires e.to !in s.g || cg + e.cost < s.g[e.to]
    ensures var t := TakeEdge(s, current, cg, e, h);
      && Lowered(s.g, t.g)
      && current in t.g && t.g[current] <= cg
      && t.g.Keys == s.g.Keys + {e.to}
      && HeapNodes(t.heap) == HeapNodes(s.heap) + {e.to}
      && Reached(t.g, e, cg, maxCost, maxETD)
  {
    HeapNodesPush(s.heap, QueueItem(cg + e.cost + h, s.counter, e.to));
  }

  lemma TakeEdgeKeepsGenuine(idx: GraphIndex, w: real, forward: bool,
                             parent: map<Node, Node>, edge: map<Node, EdgeRecord<EdgeKind>>,
                             current: Node, e: Edge)
    requires Genuine(idx, w, forward, parent, edge)
    requires e in Neighbors(idx, current, w, forward)
    ensures Genuine(idx, w, forward, parent[e.to := current], edge[e.to := EdgeRecord(e.cost, e.etd, e.kind)])
  {
    var parent', edge' := parent[e.to := current], edge[e.to := EdgeRecord(e.cost, e.etd, e.kind)];
    forall n ensures TreeEdge(idx, w, forward, parent', edge', n) {
      if n != e.to {
        assert TreeEdge(idx, w, forward, parent, edge, n);
      }
    }
  }

  /** Every admissible edge of `es` out of a vertex expanded at `gv` has reached its target. */
  ghost predicate AllReached(g: map<Node, real>, es: seq<Edge>, gv: real, maxCost: ExtReal, maxETD: ExtReal) {
    forall e :: e in es ==> Reached(g, e, gv, maxCost, maxETD)
  }

  /** Relaxing the next edge of `ns` extends what has been reached and the targets met. */
  lemma ReachedStep(g: map<Node, real>, g': map<Node, real>, ns: seq<Edge>, i: nat,
                    gv: real, maxCost: ExtReal, maxETD: ExtReal)
    requires i < |ns|
    requires AllReached(g, ns[..i], gv, maxCost, maxETD) && Lowered(g, g')
    requires Reached(g', ns[i], gv, maxCost, maxETD)
    ensures AllReached(g', ns[..i + 1], gv, maxCost, maxETD)
    ensures Targets(ns[..i + 1]) == Targets(ns[..i]) + {ns[i].to}
  {
    assert ns[..i + 1] == ns[..i] + [ns[i]];
  }

  /** The state after the inner loop of `_astar_search` meets edge `e` out of `current`, expanded
      at cost `cg`: unchanged when the target's recorded cost is no more than `cg + e.cost`, or
      that cost is over `maxCost`, or the edge's time over `maxETD`; otherwise the edge is taken
      and the target queued at its new cost plus its estimate. */
  function EdgeRelaxed(eng: Engine, goalPC: string, maxCost: ExtReal, maxETD: ExtReal, current: Node,
                       cg: real, e: Edge, s: SearchState): (r: SearchState)
    ensures r == s || (r.g.Keys == s.g.Keys + {e.to} && r.g[e.to] == cg + e.cost
                       && Fin(r.g[e.to]).Le(maxCost) && (e.to in s.g ==> r.g[e.to] < s.g[e.to]))
  {
    if (e.to in s.g && cg + e.cost >= s.g[e.to]) || !Fin(cg + e.cost).Le(maxCost) || !Fin(e.etd).Le(maxETD) then s
    else TakeEdge(s, current, cg, e, HeuristicNode(eng, e.to, goalPC))
  }

  /** The state after the inner loop has met the edges of `ns`, in order. */
  function EdgesRelaxed(eng: Engine, goalPC: string, maxCost: ExtReal, maxETD: ExtReal, current: Node,
                        cg: real, ns: seq<Edge>, s: SearchState): (r: SearchState)
    ensures s.g.Keys <= r.g.Keys
    decreases |ns|
  {
    if ns == [] then s
    else EdgeRelaxed(eng, goalPC, maxCost, maxETD, current, cg, ns[|ns| - 1],
                     EdgesRelaxed(eng, goalPC, maxCost, maxETD, current, cg, ns[..|ns| - 1], s))
  }

  /** Meeting the edges of `ns` up to `i` is meeting those before `i`, then edge `i`. */
  lemma EdgesRelaxedSnoc(eng: Engine, goalPC: string, maxCost: ExtReal, maxETD: ExtReal, current: Node,
                         cg: real, ns: seq<Edge>, i: nat, s: SearchState)
    requires i < |ns|
    ensures EdgesRelaxed(eng, goalPC, maxCost, maxETD, current, cg, ns[..i + 1], s)
         == EdgeRelaxed(eng, goalPC, maxCost, maxETD, current, cg, ns[i],
                        EdgesRelaxed(eng, goalPC, maxCost, maxETD, current, cg, ns[..i], s))
  {
    assert ns[..i + 1][..i] == ns[..i];
  }

  /** One step of the inner loop of `_astar_search`: the neighbour `e.to` of `current` (expanded
      at cost `cg`) is skipped when its recorded cost is no more than `cg + e.cost`, or that cost
      is over `maxCost`, or the edge's time over `maxETD`; otherwise it gets `current` as parent,
      the new cost and the edge, and is queued at that cost plus its estimate. */
  method RelaxEdge(eng: Engine, ghost start: Node, w: real, goalPC: string, forward: bool,
                   maxCost: ExtReal, maxETD: ExtReal, current: Node, cg: real, e: Edge,
                   s0: SearchState)
    returns (s: SearchState)
    requires e in Neighbors(eng.index, current, w, forward)
    requires SearchOk(eng.index, start, w, forward, maxCost, maxETD, s0)
    requires current in s0.g && s0.g[current] <= cg
    ensures SearchOk(eng.index, start, w, forward, maxCost, maxETD, s)
    ensures current in s.g && s.g[current] <= cg
    ensures Lowered(s0.g, s.g)
    ensures s.g.Keys <= s0.g.Keys + {e.to}
    ensures HeapNodes(s0.heap) <= HeapNodes(s.heap)
    ensures s.g.Keys - s0.g.Keys <= HeapNodes(s.heap)
    ensures Reached(s.g, e, cg, maxCost, maxETD)
    ensures ((e.to in s0.g && cg + e.cost >= s0.g[e.to])
             || !Fin(cg + e.cost).Le(maxCost) || !Fin(e.etd).Le(maxETD)) ==> s == s0
    ensures !(e.to in s0.g && cg + e.cost >= s0.g[e.to])
            && Fin(cg + e.cost).Le(maxCost) && Fin(e.etd).Le(maxETD)
            ==> s == TakeEdge(s0, current, cg, e, HeuristicNode(eng, e.to, goalPC))
                && (e.to !in s0.g || s.g[e.to] < s0.g[e.to])
    ensures s == EdgeRelaxed(eng, goalPC, maxCost, maxETD, current, cg, e, s0)
  {
    s := s0;
    var neighborG := cg + e.cost;
    var neighborH := HeuristicNode(eng, e.to, goalPC);
    if e.to in s.g && neighborG >= s.g[e.to] {
      return;
    }
    if !Fin(neighborG).Le(maxCost) || !Fin(e.etd).Le(maxETD) {
      return;
    }
    TakeEdgeKeepsGenuine(eng.index, w, forward, s.parent, s.edge, current, e);
    TakeEdgeKeepsSearchOk(eng.index, start, w, forward, maxCost, maxETD, s, current, cg, e, neighborH);
    TakeEdgeCosts(s, current, cg, e, neighborH, maxCost, maxETD);
    s := TakeEdge(s, current, cg, e, neighborH);
  }

  /** The inner loop of `_astar_search`: every neighbour of `current`, in order, is relaxed. */
  method Relax(eng: Engine, ghost start: Node, w: real, goalPC: string, forward: bool,
               maxCost: ExtReal, maxETD: ExtReal, current: Node, cg: real, ns: seq<Edge>,
               s0: SearchState)
    returns (s: SearchState)
    requires forall e :: e in ns ==> e in Neighbors(eng.index, current, w, forward)
    requires SearchOk(eng.index, start, w, forward, maxCost, maxETD, s0)
    requires current in s0.g && s0.g[current] <= cg
    ensures SearchOk(eng.index, start, w, forward, maxCost, maxETD, s)
    ensures Lowered(s0.g, s.g)
    ensures s.g.Keys <= s0.g.Keys + Targets(ns)
    ensures HeapNodes(s0.heap) <= HeapNodes(s.heap)
    ensures s.g.Keys - s0.g.Keys <= HeapNodes(s.heap)
    ensures AllReached(s.g, ns, cg, maxCost, maxETD)
    ensures s == EdgesRelaxed(eng, goalPC, maxCost, maxETD, current, cg, ns, s0)
  {
    s := s0;
    for i := 0 to |ns|
      invariant s == EdgesRelaxed(eng, goalPC, maxCost, maxETD, current, cg, ns[..i], s0)
      invariant SearchOk(eng.index, start, w, forward, maxCost, maxETD, s)
      invariant current in s.g && s.g[current] <= cg
      invariant Lowered(s0.g, s.g)
      invariant s.g.Keys <= s0.g.Keys + Targets(ns[..i])
      invariant HeapNodes(s0.heap) <= HeapNodes(s.heap)
      invariant s.g.Keys - s0.g.Keys <= HeapNodes(s.heap)
      invariant AllReached(s.g, ns[..i], cg, maxCost, maxETD)
    {
      ghost var before := s;
      EdgesRelaxedSnoc(eng, goalPC, maxCost, maxETD, current, cg, ns, i, s0);
      s := RelaxEdge(eng, start, w, goalPC, forward, maxCost, maxETD, current, cg, ns[i], s);
      ReachedStep(before.g, s.g, ns, i, cg, maxCost, maxETD);
    }
    assert ns[..|ns|] == ns;
  }

  /** Expanding `v` at cost `gv` has been done: every admissible edge out of `v` reached its
      target at no more than `gv` plus the edge's cost. */
  ghost predicate ClosedAt(idx: GraphIndex, w: real, forward: bool, g: map<Node, real>,
                           v: Node, gv: real, maxCost: ExtReal, maxETD: ExtReal)
  {
    forall e {:trigger EdgeDone(idx, w, forward, g, v, gv, maxCost, maxETD, e)} ::
      EdgeDone(idx, w, forward, g, v, gv, maxCost, maxETD, e)
  }

  /** If `e` is an admissible edge out of `v`, expanded at cost `gv`, its target's cost is at most
      `gv` plus the edge's cost. */
  ghost predicate EdgeDone(idx: GraphIndex, w: real, forward: bool, g: map<Node, real>,
                           v: Node, gv: real, maxCost: ExtReal, maxETD: ExtReal, e: Edge)
  {
    e in Neighbors(idx, v, w, forward) ==> Reached(g, e, gv, maxCost, maxETD)
  }

  /** Every expanded vertex still has a cost no more than the one it was expanded at, and was
      fully expanded unless that cost was over `maxCost`. */
  ghost predicate Closed(idx: GraphIndex, w: real, forward: bool, g: map<Node, real>,
                         expanded: map<Node, real>, maxCost: ExtReal, maxETD: ExtReal)
  {
    forall v :: v in expanded ==>
      && v in g && g[v] <= expanded[v]
      && (Fin(expanded[v]).Le(maxCost) ==> ClosedAt(idx, w, forward, g, v, expanded[v], maxCost, maxETD))
  }

  /** Lowering costs keeps expanded vertices closed, and a vertex whose expansion is done can
      join them. */
  lemma CloseVertex(idx: GraphIndex, w: real, forward: bool, g: map<Node, real>, g': map<Node, real>,
                    expanded: map<Node, real>, maxCost: ExtReal, maxETD: ExtReal,
                    v: Node, gv: real, ns: seq<Edge>)
    requires Closed(idx, w, forward, g, expanded, maxCost, maxETD)
    requires Lowered(g, g')
    requires v in g' && g'[v] <= gv
    requires ns == Neighbors(idx, v, w, forward)
    requires Fin(gv).Le(maxCost) ==> AllReached(g', ns, gv, maxCost, maxETD)
    ensures Closed(idx, w, forward, g', expanded[v := gv], maxCost, maxETD)
  {
    forall u, e | u in expanded && Fin(expanded[u]).Le(maxCost)
      ensures EdgeDone(idx, w, forward, g', u, expanded[u], maxCost, maxETD, e)
    {
      assert EdgeDone(idx, w, forward, g, u, expanded[u], maxCost, maxETD, e);
    }
    if Fin(gv).Le(maxCost) {
      forall e ensures EdgeDone(idx, w, forward, g', v, gv, maxCost, maxETD, e) {
      }
    }
  }

  /** Popping the entry for `v` leaves queued every costed vertex not yet expanded, once `v`
      counts as expanded. */
  lemma PendingAfterPop<T>(keys: set<T>, visited: set<T>, queued: set<T>, queued': set<T>, v: T)
    requires keys - visited <= queued && queued <= queued' + {v}
    ensures keys - (visited + {v}) <= queued'
    ensures v in visited ==> keys - visited <= queued'
  {
    forall x | x in keys - (visited + {v}) ensures x in queued' {
      assert x in keys - visited;
    }
  }

  /** Relaxing queues every vertex it gives a cost to, and keeps the rest queued. */
  lemma PendingAfterRelax<T>(keys: set<T>, keys': set<T>, visited: set<T>, queued: set<T>, queued': set<T>)
    requires keys - visited <= queued && queued <= queued' && keys' - keys <= queued'
    ensures keys' - visited <= queued'
  {
  }

  /** Once the heap is empty, every costed vertex has been visited. */
  lemma AllVisited(keys: set<Node>, visited: set<Node>, heap: seq<QueueItem>)
    requires visited <= keys && keys - visited <= HeapNodes(heap) && heap == []
    ensures keys == visited
  {
    forall x | x in keys ensures x in visited {
      assert x !in HeapNodes(heap);
    }
  }

  /** Visiting a vertex of `V` not yet visited leaves fewer of `V` to visit. */
  lemma Shrinks<T>(V: set<T>, visited: set<T>, v: T)
    requires v in V && v !in visited
    ensures |V - (visited + {v})| < |V - visited|
  {
    assert V - visited == (V - (visited + {v})) + {v};
  }

  /** Every vertex was expanded at a cost within `maxCost`, except perhaps the start, expanded at
      its initial cost 0 (which the pruning test skips when `maxCost` is below 0). */
  ghost predicate ExpandedWithin(start: Node, expanded: map<Node, real>, maxCost: ExtReal) {
    forall v :: v in expanded ==> Fin(expanded[v]).Le(maxCost) || (v == start && expanded[v] == 0.0)
  }

  /** A vertex of the tree is expanded at its current cost, which is within `maxCost` unless the
      vertex is the start without a parent, still at cost 0. */
  lemma ExpandWithin<I>(start: Node, g: map<Node, real>, parent: map<Node, Node>, edge: map<Node, EdgeRecord<I>>,
                        maxCost: ExtReal, expanded: map<Node, real>, current: Node)
    requires TreeOk(start, g, parent, edge, maxCost) && current in g
    requires ExpandedWithin(start, expanded, maxCost)
    ensures ExpandedWithin(start, expanded[current := g[current]], maxCost)
  {
    assert LinkOk(g, parent, edge, maxCost, current);
  }

  /** What holds between iterations of the main loop of `_astar_search`: the state keeps its shape
      within the vertex set `V`, every expanded vertex is costed and closed, was expanded within
      `maxCost` (or is the start), and every costed vertex not yet expanded is queued. */
  ghost predicate Searching(idx: GraphIndex, start: Node, w: real, forward: bool,
                            maxCost: ExtReal, maxETD: ExtReal, V: set<Node>, s: SearchState,
                            visited: set<Node>, expanded: map<Node, real>)
  {
    && SearchOk(idx, start, w, forward, maxCost, maxETD, s)
    && s.g.Keys <= V
    && visited <= s.g.Keys && expanded.Keys == visited
    && s.g.Keys - visited <= HeapNodes(s.heap)
    && Closed(idx, w, forward, s.g, expanded, maxCost, maxETD)
    && ExpandedWithin(start, expanded, maxCost)
  }

  /** Taking the least entry off the heap keeps the state's shape and leaves every costed vertex
      other than the popped one still to visit queued; popping an already visited vertex keeps
      the whole loop invariant. */
  lemma PopKeepsSearching(idx: GraphIndex, start: Node, w: real, forward: bool,
                          maxCost: ExtReal, maxETD: ExtReal, V: set<Node>, s: SearchState,
                          visited: set<Node>, expanded: map<Node, real>, item: QueueItem,
                          rest: seq<QueueItem>)
    requires Searching(idx, start, w, forward, maxCost, maxETD, V, s, visited, expanded)
    requires item in s.heap
    requires forall y :: y in s.heap ==> y in rest || y == item
    requires forall y :: y in rest ==> y in s.heap
    ensures SearchOk(idx, start, w, forward, maxCost, maxETD, s.(heap := rest))
    ensures item.node in s.g
    ensures s.g.Keys - (visited + {item.node}) <= HeapNodes(rest)
    ensures item.node in visited ==>
      Searching(idx, start, w, forward, maxCost, maxETD, V, s.(heap := rest), visited, expanded)
  {
    HeapNodesPop(s.heap, item, rest);
    PendingAfterPop(s.g.Keys, visited, HeapNodes(s.heap), HeapNodes(rest), item.node);
    assert item.node in HeapNodes(s.heap);
  }

  // ---------------------------------------------------------------------------------------
  // The main loop as a function of its variables

  /** The variables of the main loop of `_astar_search`: the search state and the visited set. */
  datatype Progress = Progress(s: SearchState, visited: set<Node>)

  /** What the body of the main loop does with a popped vertex `current` not yet visited, its
      entry already off the heap in `s`: marks it visited and, unless its cost is over
      `maxCost`, meets its edges in order at that cost. */
  function Visit(eng: Engine, w: real, goalPC: string, forward: bool, maxCost: ExtReal, maxETD: ExtReal,
                 current: Node, s: SearchState, visited: set<Node>): Progress
    requires current in s.g
  {
    if !Fin(s.g[current]).Le(maxCost) then Progress(s, visited + {current})
    else Progress(EdgesRelaxed(eng, goalPC, maxCost, maxETD, current, s.g[current],
                               Neighbors(eng.index, current, w, forward), s),
                  visited + {current})
  }

  /** One iteration of the main loop: pops the least entry and visits its vertex unless it was
      visited already (a vertex without a cost is never queued, and is passed over here). An
      empty heap ends the loop, so it is left as it is. */
  function Step(eng: Engine, w: real, goalPC: string, forward: bool, maxCost: ExtReal, maxETD: ExtReal,
                p: Progress): Progress
  {
    if p.s.heap == [] then p
    else
      var current, s := Popped(p.s.heap).node, p.s.(heap := Rest(p.s.heap));
      if current in p.visited || current !in s.g then Progress(s, p.visited)
      else Visit(eng, w, goalPC, forward, maxCost, maxETD, current, s, p.visited)
  }

  /** `Step` from a nonempty heap, once the popped entry and the rest of the heap are named. */
  lemma StepPops(eng: Engine, w: real, goalPC: string, forward: bool, maxCost: ExtReal, maxETD: ExtReal,
                 p: Progress, item: QueueItem, rest: seq<QueueItem>)
    requires p.s.heap != [] && item == Popped(p.s.heap) && rest == Rest(p.s.heap)
    ensures item.node in p.visited || item.node !in p.s.g ==>
      Step(eng, w, goalPC, forward, maxCost, maxETD, p) == Progress(p.s.(heap := rest), p.visited)
    ensures item.node !in p.visited && item.node in p.s.g ==>
      Step(eng, w, goalPC, forward, maxCost, maxETD, p)
        == Visit(eng, w, goalPC, forward, maxCost, maxETD, item.node, p.s.(heap := rest), p.visited)
  {
  }

  /** `Step` as a value. */
  function StepFn(eng: Engine, w: real, goalPC: string, forward: bool, maxCost: ExtReal, maxETD: ExtReal)
    : Progress -> Progress
  {
    p => Step(eng, w, goalPC, forward, maxCost, maxETD, p)
  }

  /** `n` iterations of `next` from `p`, or fewer when the heap runs dry first. */
  function Explore(next: Progress -> Progress, n: nat, p: Progress): Progress
    decreases n
  {
    if n == 0 || p.s.heap == [] then p else Explore(next, n - 1, next(p))
  }

  /** While entries are still queued, one more iteration is one more step. */
  lemma {:induction false} ExploreSnoc(next: Progress -> Progress, n: nat, p: Progress)
    requires Explore(next, n, p).s.heap != []
    ensures Explore(next, n + 1, p) == next(Explore(next, n, p))
    decreases n
  {
    if n > 0 {
      ExploreSnoc(next, n - 1, next(p));
    }
  }

  /** Once the heap has run dry, further iterations change nothing. */
  lemma {:induction false} ExploreSettles(next: Progress -> Progress, n: nat, m: nat, p: Progress)
    requires n <= m && Explore(next, n, p).s.heap == []
    ensures Explore(next, m, p) == Explore(next, n, p)
    decreases n
  {
    if n > 0 && p.s.heap != [] {
      ExploreSettles(next, n - 1, m - 1, next(p));
    }
  }

  /** The state `_astar_search` sets up: the start at cost 0, queued at its estimate with counter
      0, and the counter at 1. */
  function Initial(eng: Engine, startPC: string, goalPC: string): SearchState {
    SearchState(map[PC(startPC) := 0.0], map[], map[],
                [QueueItem(Heuristic(eng, startPC, goalPC), 0, PC(startPC))], 1)
  }

  /** `t` is what the search from `startPC` returns when its heap runs dry after `n` iterations. */
  ghost predicate ExploredIn(eng: Engine, w: real, startPC: string, goalPC: string, forward: bool,
                             maxCost: ExtReal, maxETD: ExtReal, n: nat, t: SearchResult)
  {
    var p := Explore(StepFn(eng, w, goalPC, forward, maxCost, maxETD), n, Progress(Initial(eng, startPC, goalPC), {}));
    p.s.heap == [] && t == SearchResult(p.s.parent, p.s.g, p.s.edge)
  }

  /** `t` is what the search from `startPC` returns. */
  ghost predicate Explored(eng: Engine, w: real, startPC: string, goalPC: string, forward: bool,
                           maxCost: ExtReal, maxETD: ExtReal, t: SearchResult)
  {
    exists n :: ExploredIn(eng, w, startPC, goalPC, forward, maxCost, maxETD, n, t)
  }

  /** The search is deterministic: it has one result. */
  lemma ExploredUnique(eng: Engine, w: real, startPC: string, goalPC: string, forward: bool,
                       maxCost: ExtReal, maxETD: ExtReal, t: SearchResult, t': SearchResult)
    requires Explored(eng, w, startPC, goalPC, forward, maxCost, maxETD, t)
    requires Explored(eng, w, startPC, goalPC, forward, maxCost, maxETD, t')
    ensures t == t'
  {
    var next, p0 := StepFn(eng, w, goalPC, forward, maxCost, maxETD), Progress(Initial(eng, startPC, goalPC), {});
    var n :| ExploredIn(eng, w, startPC, goalPC, forward, maxCost, maxETD, n, t);
    var n' :| ExploredIn(eng, w, startPC, goalPC, forward, maxCost, maxETD, n', t');
    if n <= n' {
      ExploreSettles(next, n, n', p0);
    } else {
      ExploreSettles(next, n', n, p0);
    }
  }

  // ---------------------------------------------------------------------------------------
  // The main loop

  /** The body of the main loop once a not yet visited vertex has been popped: it is marked
      visited and, unless its cost is over `maxCost`, its neighbours are relaxed; the result is
      `Visit`. */
  method Expand(eng: Engine, ghost start: Node, w: real, goalPC: string, forward: bool,
                maxCost: ExtReal, maxETD: ExtReal, ghost V: set<Node>, current: Node,
                s0: SearchState, visited0: set<Node>, ghost expanded0: map<Node, real>)
    returns (s: SearchState, visited: set<Node>, ghost expanded: map<Node, real>)
    requires Enclosed(eng.index, w, forward, V)
    requires SearchOk(eng.index, start, w, forward, maxCost, maxETD, s0)
    requires s0.g.Keys <= V
    requires visited0 <= s0.g.Keys && expanded0.Keys == visited0
    requires current in s0.g && current !in visited0
    requires s0.g.Keys - (visited0 + {current}) <= HeapNodes(s0.heap)
    requires Closed(eng.index, w, forward, s0.g, expanded0, maxCost, maxETD)
    requires ExpandedWithin(start, expanded0, maxCost)
    ensures Searching(eng.index, start, w, forward, maxCost, maxETD, V, s, visited, expanded)
    ensures Progress(s, visited) == Visit(eng, w, goalPC, forward, maxCost, maxETD, current, s0, visited0)
    ensures visited == visited0 + {current}
  {
    s := s0;
    var currentG := s.g[current];
    visited, expanded := visited0 + {current}, expanded0[current := currentG];
    assert expanded.Keys == visited0 + {current};
    ExpandWithin(start, s0.g, s0.parent, s0.edge, maxCost, expanded0, current);
    if !Fin(currentG).Le(maxCost) {
      CloseVertex(eng.index, w, forward, s.g, s.g, expanded0, maxCost, maxETD, current, currentG,
                  Neighbors(eng.index, current, w, forward));
      return;
    }
    var ns := GetNeighbors(eng.index, current, w, forward);
    s := Relax(eng, start, w, goalPC, forward, maxCost, maxETD, current, currentG, ns, s0);
    forall m | m in Targets(ns) ensures m in V {
      var e :| e in ns && e.to == m;
    }
    PendingAfterRelax(s0.g.Keys, s.g.Keys, visited, HeapNodes(s0.heap), HeapNodes(s.heap));
    CloseVertex(eng.index, w, forward, s0.g, s.g, expanded0, maxCost, maxETD, current, currentG, ns);
  }

  /** One iteration of the main loop of `_astar_search`, as `Step` says: pops the least entry and,
      unless its vertex was visited already, expands it. Either one more vertex of `V` is
      visited or the heap is one entry shorter. */
  method Iterate(eng: Engine, ghost start: Node, w: real, goalPC: string, forward: bool,
                 maxCost: ExtReal, maxETD: ExtReal, ghost V: set<Node>,
                 s0: SearchState, visited0: set<Node>, ghost expanded0: map<Node, real>)
    returns (s: SearchState, visited: set<Node>, ghost expanded: map<Node, real>)
    requires Enclosed(eng.index, w, forward, V)
    requires Searching(eng.index, start, w, forward, maxCost, maxETD, V, s0, visited0, expanded0)
    requires s0.heap != []
    ensures Searching(eng.index, start, w, forward, maxCost, maxETD, V, s, visited, expanded)
    ensures Progress(s, visited) == Step(eng, w, goalPC, forward, maxCost, maxETD, Progress(s0, visited0))
    ensures |V - visited| < |V - visited0| || (visited == visited0 && |s.heap| < |s0.heap|)
  {
    var item, rest := PopMin(s0.heap);
    StepPops(eng, w, goalPC, forward, maxCost, maxETD, Progress(s0, visited0), item, rest);
    var current := item.node;
    PopKeepsSearching(eng.index, start, w, forward, maxCost, maxETD, V, s0, visited0, expanded0, item, rest);
    if current in visited0 {
      return s0.(heap := rest), visited0, expanded0;
    }
    Shrinks(V, visited0, current);
    s, visited, expanded := Expand(eng, start, w, goalPC, forward, maxCost, maxETD, V, current,
                                   s0.(heap := rest), visited0, expanded0);
  }

  /** The main loop of `_astar_search`: pops the least entry until the heap is empty, skipping
      vertices already visited. Since every vertex it costs lies in the finite set `V`, each
      iteration either visits a new vertex of `V` or shortens the heap. When the heap is empty,
      every costed vertex has been expanded, and the state is that of `steps` iterations of
      `Step`. */
  method SearchLoop(eng: Engine, ghost start: Node, w: real, goalPC: string, forward: bool,
                    maxCost: ExtReal, maxETD: ExtReal, ghost V: set<Node>, s0: SearchState)
    returns (s: SearchState, ghost expanded: map<Node, real>, ghost steps: nat)
    requires Enclosed(eng.index, w, forward, V)
    requires Searching(eng.index, start, w, forward, maxCost, maxETD, V, s0, {}, map[])
    ensures SearchOk(eng.index, start, w, forward, maxCost, maxETD, s)
    ensures s.g.Keys <= V && expanded.Keys == s.g.Keys
    ensures Closed(eng.index, w, forward, s.g, expanded, maxCost, maxETD)
    ensures ExpandedWithin(start, expanded, maxCost)
    ensures s.heap == []
    ensures Explore(StepFn(eng, w, goalPC, forward, maxCost, maxETD), steps, Progress(s0, {})).s == s
  {
    s := s0;
    var visited: set<Node> := {};
    expanded, steps := map[], 0;
    ghost var next := StepFn(eng, w, goalPC, forward, maxCost, maxETD);
    while s.heap != []
      invariant Searching(eng.index, start, w, forward, maxCost, maxETD, V, s, visited, expanded)
      invariant Explore(next, steps, Progress(s0, {})) == Progress(s, visited)
      decreases |V - visited|, |s.heap|
    {
      ExploreSnoc(next, steps, Progress(s0, {}));
      assert next(Progress(s, visited)) == Step(eng, w, goalPC, forward, maxCost, maxETD, Progress(s, visited));
      s, visited, expanded := Iterate(eng, start, w, goalPC, forward, maxCost, maxETD, V,
                                      s, visited, expanded);
      steps := steps + 1;
    }
    AllVisited(s.g.Keys, visited, s.heap);
  }

  /** `_astar_search`: best-first search from `startPC` (over outgoing routes when `forward`,
      incoming routes otherwise), expanding each vertex once, never recording a cost over
      `maxCost` or an edge over `maxETD`. The result is the one the main loop leaves
      (`Explored`): a search tree of genuine edges over the finite vertex set in which every
      recorded vertex was expanded, and every expansion within `maxCost` reached each
      admissible neighbour at no more than the expansion cost plus the edge. `expanded` holds
      the cost each vertex had when it was expanded. */
  method AStarSearch(eng: Engine, w: real, startPC: string, goalPC: string, forward: bool,
                     maxCost: ExtReal, maxETD: ExtReal)
    returns (res: SearchResult, ghost expanded: map<Node, real>)
    ensures Explored(eng, w, startPC, goalPC, forward, maxCost, maxETD, res)
    ensures TreeOk(PC(startPC), res.cost, res.parent, res.edge, maxCost)
    ensures Genuine(eng.index, w, forward, res.parent, res.edge)
    ensures WithinETD(res.edge, maxETD)
    ensures res.cost.Keys <= Vertices(eng.index, PC(startPC))
    ensures expanded.Keys == res.cost.Keys
    ensures Closed(eng.index, w, forward, res.cost, expanded, maxCost, maxETD)
    ensures ExpandedWithin(PC(startPC), expanded, maxCost)
    ensures NonNegativePrices(eng.index, w) ==> ChainsEnd(res.cost, res.parent)
  {
    var start := PC(startPC);
    var s := SearchState(map[start := 0.0], map[], map[],
                         [QueueItem(Heuristic(eng, startPC, goalPC), 0, start)], 1);
    assert s == Initial(eng, startPC, goalPC);
    VerticesEnclosed(eng.index, start, w, forward);
    AcyclicRoot(start, 0.0, 1);
    assert s.heap[0] in s.heap;
    ghost var steps;
    s, expanded, steps := SearchLoop(eng, start, w, goalPC, forward, maxCost, maxETD,
                                     Vertices(eng.index, start), s);
    res := SearchResult(s.parent, s.g, s.edge);
    assert ExploredIn(eng, w, startPC, goalPC, forward, maxCost, maxETD, steps, res);
    if NonNegativePrices(eng.index, w) {
      AcyclicChainsEnd(s.g, s.parent, s.counter);
    }
  }
}
