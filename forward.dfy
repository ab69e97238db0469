/** `FreightAStarEngine` (engine_new.py), first part: the engine's fields, its heuristic, which
    places an unknown state at coordinates (0, 0), and its forward-only expansion, whose edges
    are tagged with the provider they enter or leave. */
module Forward {
  import opened Common
  import opened DataModel
  import opened Index
  import Bidirectional

  /** The engine: the graph index, the postcode map, the state coordinate table, and the square
      root the distance uses. */
  datatype FreightEngine = FreightEngine(
    index: GraphIndex, postcodes: map<string, Postcode>, stateCoords: map<string, (real, real)>,
    sqrt: real -> real)

  /** The constructor: the given index and postcodes, and the same eight state capitals as the
      bidirectional engine. */
  function NewFreightEngine(index: GraphIndex, postcodes: map<string, Postcode>, sqrt: real -> real): (eng: FreightEngine)
    ensures eng.index == index && eng.postcodes == postcodes
    ensures eng.stateCoords.Keys == {"NSW", "VIC", "QLD", "WA", "SA", "TAS", "ACT", "NT"}
  {
    FreightEngine(index, postcodes, Bidirectional.StateCoords, sqrt)
  }

  // ---------------------------------------------------------------------------------------
  // Heuristic

  /** A state's coordinates, `(0, 0)` for a state not in the table (an empty state included). */
  function Coords(eng: FreightEngine, state: string): (real, real) {
    if state in eng.stateCoords then eng.stateCoords[state] else (0.0, 0.0)
  }

  /** `_heuristic`: one hundredth of the distance between the two postcodes' state coordinates,
      and 0 when either postcode is unknown. */
  function Heuristic(eng: FreightEngine, pcA: string, pcB: string): real {
    if pcA !in eng.postcodes || pcB !in eng.postcodes then 0.0
    else
      var (lonA, latA) := Coords(eng, eng.postcodes[pcA].state);
      var (lonB, latB) := Coords(eng, eng.postcodes[pcB].state);
      eng.sqrt(Bidirectional.Square(lonA - lonB) + Bidirectional.Square(latA - latB)) * 0.01
  }

  /** `_heuristic_node`: a postcode's own estimate, a zone's first member postcode's estimate,
      and 0 for a zone without members. */
  function HeuristicNode(eng: FreightEngine, n: Node, goalPC: string): real {
    match n
    case PC(code) => Heuristic(eng, code, goalPC)
    case PZ(z, p) =>
      var pcs := eng.index.GetPostcodesForZone(p, z);
      if pcs != [] then Heuristic(eng, pcs[0], goalPC) else 0.0
  }

  /** A vertex's estimate: a postcode's own, a zone's first member postcode's, 0 for a zone
      without members (so for a zone no provider lists, in a built index) and 0 towards an
      unknown goal; never negative for a non-negative root. */
  lemma HeuristicNodeProperties(eng: FreightEngine, n: Node, goalPC: string)
    ensures n.PC? ==> HeuristicNode(eng, n, goalPC) == Heuristic(eng, n.code, goalPC)
    ensures n.PZ? ==> var pcs := eng.index.GetPostcodesForZone(n.provider, n.zone);
      HeuristicNode(eng, n, goalPC) == if pcs == [] then 0.0 else Heuristic(eng, pcs[0], goalPC)
    ensures n.PZ? && eng.index.Valid() && !ZoneListed(eng.index.providerZones, n.provider, n.zone)
            ==> HeuristicNode(eng, n, goalPC) == 0.0
    ensures goalPC !in eng.postcodes ==> HeuristicNode(eng, n, goalPC) == 0.0
    ensures (forall x :: eng.sqrt(x) >= 0.0) ==> HeuristicNode(eng, n, goalPC) >= 0.0
  {
    match n {
      case PC(code) =>
        HeuristicProperties(eng, code, goalPC);
      case PZ(z, p) =>
        var pcs := eng.index.GetPostcodesForZone(p, z);
        if eng.index.Valid() {
          PostcodesForZoneSpec(eng.index, p, z);
        }
        if pcs != [] {
          HeuristicProperties(eng, pcs[0], goalPC);
        }
    }
  }

  /** The bidirectional engine over the same index, postcodes, table and root. */
  function AsBidirectional(eng: FreightEngine): Bidirectional.Engine {
    Bidirectional.Engine(eng.index, eng.postcodes, eng.stateCoords, eng.sqrt)
  }

  /** The estimate is symmetric, 0 for an unknown postcode and never negative for a
      non-negative root. It agrees with the bidirectional engine's estimate whenever both states
      are in the table; an unknown state is read as NSW (when empty) or gives 0 there, but
      stands at (0, 0) here. */
  lemma HeuristicProperties(eng: FreightEngine, pcA: string, pcB: string)
    ensures Heuristic(eng, pcA, pcB) == Heuristic(eng, pcB, pcA)
    ensures pcA !in eng.postcodes || pcB !in eng.postcodes ==> Heuristic(eng, pcA, pcB) == 0.0
    ensures (forall x :: eng.sqrt(x) >= 0.0) ==> Heuristic(eng, pcA, pcB) >= 0.0
    ensures pcA in eng.postcodes && pcB in eng.postcodes
            && eng.postcodes[pcA].state in eng.stateCoords && eng.postcodes[pcA].state != ""
            && eng.postcodes[pcB].state in eng.stateCoords && eng.postcodes[pcB].state != ""
            ==> Heuristic(eng, pcA, pcB) == Bidirectional.Heuristic(AsBidirectional(eng), pcA, pcB)
  {
    if pcA in eng.postcodes && pcB in eng.postcodes {
      var (lonA, latA) := Coords(eng, eng.postcodes[pcA].state);
      var (lonB, latB) := Coords(eng, eng.postcodes[pcB].state);
      assert Bidirectional.Square(lonA - lonB) == Bidirectional.Square(lonB - lonA);
      assert Bidirectional.Square(latA - latB) == Bidirectional.Square(latB - latA);
    }
  }

  // ---------------------------------------------------------------------------------------
  // _get_forward_neighbors

  /** The tag of a forward edge: entering a provider's zone, following one of its routes, or
      leaving a provider's zone. */
  datatype StepInfo = Entry(provider: string) | Transit(route: ProviderZoneRoute) | Exit(provider: string)

  /** A forward edge: the vertex reached, its cost and time, and its tag. */
  datatype Step = Step(to: Node, cost: real, etd: real, info: StepInfo)

  /** Entry into each listed zone, free, tagged with the zone's provider. */
  function EntrySteps(keys: seq<ZoneKey>): seq<Step> {
    if keys == [] then []
    else
      var k := keys[|keys| - 1];
      EntrySteps(keys[..|keys| - 1]) + [Step(PZ(k.zone, k.provider), 0.0, 0.0, Entry(k.provider))]
  }

  /** One step per route to its target zone under provider `p`, priced for weight `w`. */
  function TransitSteps(routes: seq<ProviderZoneRoute>, p: string, w: real): seq<Step> {
    if routes == [] then []
    else
      var r := routes[|routes| - 1];
      TransitSteps(routes[..|routes| - 1], p, w) + [Step(PZ(r.toZone, p), r.CalculateCost(w), r.deliveryHrs, Transit(r))]
  }

  /** Exit to each listed postcode, free, tagged with provider `p`. */
  function ExitSteps(pcs: seq<string>, p: string): seq<Step> {
    if pcs == [] then []
    else ExitSteps(pcs[..|pcs| - 1], p) + [Step(PC(pcs[|pcs| - 1]), 0.0, 0.0, Exit(p))]
  }

  /** The forward expansion of a vertex: a postcode enters every zone that lists it; a zone
      follows its outgoing routes, then exits to its member postcodes. */
  function ForwardNeighbors(idx: GraphIndex, n: Node, w: real): seq<Step> {
    match n
    case PC(code) => EntrySteps(idx.GetZonesForPostcode(code))
    case PZ(z, p) => TransitSteps(idx.GetOutgoingRoutes(p, z), p, w) + ExitSteps(idx.GetPostcodesForZone(p, z), p)
  }

  lemma EntryStepsSnoc(keys: seq<ZoneKey>, i: nat)
    requires i < |keys|
    ensures EntrySteps(keys[..i + 1])
         == EntrySteps(keys[..i]) + [Step(PZ(keys[i].zone, keys[i].provider), 0.0, 0.0, Entry(keys[i].provider))]
  {
    assert keys[..i + 1][..i] == keys[..i];
  }

  lemma TransitStepsSnoc(routes: seq<ProviderZoneRoute>, i: nat, p: string, w: real)
    requires i < |routes|
    ensures TransitSteps(routes[..i + 1], p, w)
         == TransitSteps(routes[..i], p, w)
            + [Step(PZ(routes[i].toZone, p), routes[i].CalculateCost(w), routes[i].deliveryHrs, Transit(routes[i]))]
  {
    assert routes[..i + 1][..i] == routes[..i];
  }

  lemma ExitStepsSnoc(done: seq<Step>, pcs: seq<string>, i: nat, p: string)
    requires i < |pcs|
    ensures done + ExitSteps(pcs[..i + 1], p) == (done + ExitSteps(pcs[..i], p)) + [Step(PC(pcs[i]), 0.0, 0.0, Exit(p))]
  {
    assert pcs[..i + 1][..i] == pcs[..i];
  }

  /** `_get_forward_neighbors`: the steps out of `n`, in the order the index lists them. */
  method GetForwardNeighbors(idx: GraphIndex, n: Node, w: real) returns (ns: seq<Step>)
    ensures ns == ForwardNeighbors(idx, n, w)
  {
    ns := [];
    match n {
      case PC(code) =>
        var keys := idx.GetZonesForPostcode(code);
        for i := 0 to |keys|
          invariant ns == EntrySteps(keys[..i])
        {
          EntryStepsSnoc(keys, i);
          ns := ns + [Step(PZ(keys[i].zone, keys[i].provider), 0.0, 0.0, Entry(keys[i].provider))];
        }
        assert keys[..|keys|] == keys;
      case PZ(z, p) =>
        var routes := idx.GetOutgoingRoutes(p, z);
        for i := 0 to |routes|
          invariant ns == TransitSteps(routes[..i], p, w)
        {
          TransitStepsSnoc(routes, i, p, w);
          var r := routes[i];
          ns := ns + [Step(PZ(r.toZone, p), r.CalculateCost(w), r.deliveryHrs, Transit(r))];
        }
        assert routes[..|routes|] == routes;
        var pcs := idx.GetPostcodesForZone(p, z);
        ghost var done := ns;
        for i := 0 to |pcs|
          invariant ns == done + ExitSteps(pcs[..i], p)
        {
          ExitStepsSnoc(done, pcs, i, p);
          ns := ns + [Step(PC(pcs[i]), 0.0, 0.0, Exit(p))];
        }
        assert pcs[..|pcs|] == pcs;
    }
  }

  /** A forward step and a bidirectional edge go to the same vertex at the same cost and time. */
  predicate SameMove(s: Step, e: Bidirectional.Edge) {
    s.to == e.to && s.cost == e.cost && s.etd == e.etd
  }

  /** A tag corresponds to the bidirectional engine's forward tag: entry to entry, exit to exit,
      a transit route to the same zone route. */
  predicate SameKind(i: StepInfo, k: Bidirectional.EdgeKind) {
    match i
    case Entry(_) => k.Entry?
    case Exit(_) => k.Exit?
    case Transit(r) => k == Bidirectional.ZoneRoute(r)
  }

  /** Both engines expand a vertex forward into the same moves in the same order, with
      corresponding tags; only the provider tag on entry and exit is new here. */
  lemma SameEdgesAsBidirectional(idx: GraphIndex, n: Node, w: real)
    ensures var f, b := ForwardNeighbors(idx, n, w), Bidirectional.Neighbors(idx, n, w, true);
      |f| == |b| && forall i :: 0 <= i < |f| ==> SameMove(f[i], b[i]) && SameKind(f[i].info, b[i].kind)
  {
    match n {
      case PC(code) =>
        EntryStepsMatch(idx.GetZonesForPostcode(code));
      case PZ(z, p) =>
        TransitStepsMatch(idx.GetOutgoingRoutes(p, z), p, w);
        ExitStepsMatch(idx.GetPostcodesForZone(p, z), p);
    }
  }

  lemma {:induction false} EntryStepsMatch(keys: seq<ZoneKey>)
    ensures var f, b := EntrySteps(keys), Bidirectional.ZoneEdges(keys, Bidirectional.Entry);
      |f| == |b| && forall i :: 0 <= i < |f| ==> SameMove(f[i], b[i]) && SameKind(f[i].info, b[i].kind)
  {
    if keys != [] {
      EntryStepsMatch(keys[..|keys| - 1]);
    }
  }

  lemma {:induction false} TransitStepsMatch(routes: seq<ProviderZoneRoute>, p: string, w: real)
    ensures var f, b := TransitSteps(routes, p, w), Bidirectional.RouteEdges(routes, p, w, true);
      |f| == |b| && forall i :: 0 <= i < |f| ==> SameMove(f[i], b[i]) && SameKind(f[i].info, b[i].kind)
  {
    if routes != [] {
      TransitStepsMatch(routes[..|routes| - 1], p, w);
    }
  }

  lemma {:induction false} ExitStepsMatch(pcs: seq<string>, p: string)
    ensures var f, b := ExitSteps(pcs, p), Bidirectional.PostcodeEdges(pcs, Bidirectional.Exit);
      |f| == |b| && forall i :: 0 <= i < |f| ==> SameMove(f[i], b[i]) && SameKind(f[i].info, b[i].kind)
  {
    if pcs != [] {
      ExitStepsMatch(pcs[..|pcs| - 1], p);
    }
  }

  /** The shape of a forward step: from a postcode, a free entry into a zone tagged with that
      zone's provider; from a zone, either a transit along one of its outgoing routes to the same
      provider's zone, priced for the weight, or a free exit to a member postcode tagged with the
      zone's provider. */
  lemma StepShapes(idx: GraphIndex, n: Node, w: real, s: Step)
    requires s in ForwardNeighbors(idx, n, w)
    ensures n.PC? ==>
      s.to.PZ? && s.info == Entry(s.to.provider) && s.cost == 0.0 && s.etd == 0.0
      && ZoneKey(s.to.provider, s.to.zone) in idx.GetZonesForPostcode(n.code)
    ensures n.PZ? && s.info.Transit? ==>
      s.info.route in idx.GetOutgoingRoutes(n.provider, n.zone) && s.to == PZ(s.info.route.toZone, n.provider)
      && s.cost == s.info.route.CalculateCost(w) && s.etd == s.info.route.deliveryHrs
    ensures n.PZ? && !s.info.Transit? ==>
      s.info == Exit(n.provider) && s.to.PC? && s.to.code in idx.GetPostcodesForZone(n.provider, n.zone)
      && s.cost == 0.0 && s.etd == 0.0
  {
    match n {
      case PC(code) =>
        InEntrySteps(idx.GetZonesForPostcode(code), s);
      case PZ(z, p) =>
        InTransitSteps(idx.GetOutgoingRoutes(p, z), p, w, s);
        InExitSteps(idx.GetPostcodesForZone(p, z), p, s);
    }
  }

  /** With no route priced below zero, no forward step costs less than zero. */
  lemma StepCostNonNegative(idx: GraphIndex, n: Node, w: real, e: Step)
    requires NonNegativePrices(idx, w)
    requires e in ForwardNeighbors(idx, n, w)
    ensures e.cost >= 0.0
  {
    StepShapes(idx, n, w, e);
    if n.PZ? && e.info.Transit? {
      OutgoingRoutesSpec(idx, n.provider, n.zone, e.info.route);
    }
  }

  lemma {:induction false} InEntrySteps(keys: seq<ZoneKey>, s: Step)
    ensures s in EntrySteps(keys) <==>
      s.to.PZ? && ZoneKey(s.to.provider, s.to.zone) in keys && s.info == Entry(s.to.provider)
      && s.cost == 0.0 && s.etd == 0.0
  {
    if keys != [] {
      var n := |keys| - 1;
      InEntrySteps(keys[..n], s);
      assert keys == keys[..n] + [keys[n]];
    }
  }

  lemma {:induction false} InTransitSteps(routes: seq<ProviderZoneRoute>, p: string, w: real, s: Step)
    ensures s in TransitSteps(routes, p, w) <==>
      s.info.Transit? && s.info.route in routes && s.to == PZ(s.info.route.toZone, p)
      && s.cost == s.info.route.CalculateCost(w) && s.etd == s.info.route.deliveryHrs
  {
    if routes != [] {
      var n := |routes| - 1;
      InTransitSteps(routes[..n], p, w, s);
      assert routes == routes[..n] + [routes[n]];
    }
  }

  lemma {:induction false} InExitSteps(pcs: seq<string>, p: string, s: Step)
    ensures s in ExitSteps(pcs, p) <==>
      s.to.PC? && s.to.code in pcs && s.info == Exit(p) && s.cost == 0.0 && s.etd == 0.0
  {
    if pcs != [] {
      var n := |pcs| - 1;
      InExitSteps(pcs[..n], p, s);
      assert pcs == pcs[..n] + [pcs[n]];
    }
  }
}
