/** The entity records of the multi-provider zone graph: postcodes shared by every provider,
    provider-specific zones, priced zone-to-zone routes, the shipment query, the two kinds of
    search-graph vertex and the path result. */
module DataModel {
  import opened Common

  /** A global postcode; its identity is `code`. */
  datatype Postcode = Postcode(code: string, suburb: string, state: string, region: Option<string>)

  /** A provider-specific grouping of postcodes; identity is (providerId, zoneCode). */
  datatype ProviderZone = ProviderZone(
    providerId: string, zoneCode: string, postcodes: seq<string>, state: string, category: string)

  /** A directed zone-to-zone edge inside one provider's network, priced by weight. */
  datatype ProviderZoneRoute = ProviderZoneRoute(
    providerId: string, fromZone: string, toZone: string, serviceType: string,
    baseCharge: real, perKGRate: real, minCharge: real, deliveryHrs: real,
    maxMass: real, maxCBM: real, maxPallets: int, reliabilityScore: real, fuelLevyPct: real)
  {
    /** Price of carrying `weightKG` on this route: the minimum charge for a non-positive weight
        (no levy on that branch), otherwise base plus per-kg charge, floored at the minimum
        charge, then marked up by the fuel levy percentage. */
    function CalculateCost(weightKG: real): (cost: real)
      ensures weightKG <= 0.0 ==> cost == minCharge
      ensures weightKG > 0.0 ==>
        cost == Max(baseCharge + weightKG * perKGRate, minCharge) * (1.0 + fuelLevyPct / 100.0)
    {
      if weightKG <= 0.0 then minCharge
      else
        var charge := Max(baseCharge + weightKG * perKGRate, minCharge);
        charge + charge * (fuelLevyPct / 100.0)
    }
  }

  function Max(a: real, b: real): real { if a >= b then a else b }

  /** With a non-negative minimum charge and fuel levy, no weight is charged less than the minimum. */
  lemma CostAtLeastMinCharge(r: ProviderZoneRoute, w: real)
    requires r.minCharge >= 0.0 && r.fuelLevyPct >= 0.0
    ensures r.CalculateCost(w) >= r.minCharge
  {
    if w > 0.0 {
      var charge := Max(r.baseCharge + w * r.perKGRate, r.minCharge);
      assert charge >= 0.0;
      assert charge * (r.fuelLevyPct / 100.0) >= 0.0;
    }
  }

  /** With a non-negative per-kg rate, minimum charge and levy, a heavier shipment never costs less. */
  lemma CostMonotoneInWeight(r: ProviderZoneRoute, w1: real, w2: real)
    requires w1 <= w2
    requires r.perKGRate >= 0.0 && r.minCharge >= 0.0 && r.fuelLevyPct >= 0.0
    ensures r.CalculateCost(w1) <= r.CalculateCost(w2)
  {
    var m := 1.0 + r.fuelLevyPct / 100.0;
    if w1 <= 0.0 {
      CostAtLeastMinCharge(r, w2);
    } else {
      assert w1 * r.perKGRate <= w2 * r.perKGRate by {
        assert (w2 - w1) * r.perKGRate >= 0.0;
      }
      var c1 := Max(r.baseCharge + w1 * r.perKGRate, r.minCharge);
      var c2 := Max(r.baseCharge + w2 * r.perKGRate, r.minCharge);
      assert c1 <= c2;
      assert (c2 - c1) * m >= 0.0;
    }
  }

  /** Once the weight-based charge is above the minimum, a strictly heavier shipment costs
      strictly more (for a positive rate and a levy above -100%). */
  lemma CostStrictlyIncreasing(r: ProviderZoneRoute, w1: real, w2: real)
    requires 0.0 < w1 < w2
    requires r.perKGRate > 0.0 && r.fuelLevyPct > -100.0
    requires r.baseCharge + w1 * r.perKGRate > r.minCharge
    ensures r.CalculateCost(w1) < r.CalculateCost(w2)
  {
    ChargeStrict(r.baseCharge, r.perKGRate, w1, w2);
    LevyStrict(r.baseCharge + w1 * r.perKGRate, r.baseCharge + w2 * r.perKGRate, r.fuelLevyPct);
  }

  /** A positive per-kg rate makes the weight-based charge strictly increasing. */
  lemma ChargeStrict(base: real, rate: real, w1: real, w2: real)
    requires w1 < w2 && rate > 0.0
    ensures base + w1 * rate < base + w2 * rate
  {
    ScaleStrict(w1, w2, rate);
  }

  /** A levy above -100% keeps a strict order between two charges. */
  lemma LevyStrict(c1: real, c2: real, levy: real)
    requires c1 < c2 && levy > -100.0
    ensures c1 * (1.0 + levy / 100.0) < c2 * (1.0 + levy / 100.0)
  {
    ScaleStrict(c1, c2, 1.0 + levy / 100.0);
  }

  /** Scaling by a positive factor keeps a strict order. */
  lemma ScaleStrict(a: real, b: real, m: real)
    requires a < b && m > 0.0
    ensures a * m < b * m
  {
    assert (b - a) * m > 0.0;
    assert b * m - a * m == (b - a) * m;
  }

  /** A higher fuel levy never lowers the price of a positive-weight shipment whose charge is
      non-negative, and strictly raises it when the charge is positive. */
  lemma CostIncreasesWithLevy(r: ProviderZoneRoute, levy: real, w: real)
    requires w > 0.0 && r.fuelLevyPct <= levy && r.minCharge >= 0.0
    ensures r.CalculateCost(w) <= r.(fuelLevyPct := levy).CalculateCost(w)
    ensures r.fuelLevyPct < levy && r.minCharge > 0.0 ==>
      r.CalculateCost(w) < r.(fuelLevyPct := levy).CalculateCost(w)
  {
    var charge := Max(r.baseCharge + w * r.perKGRate, r.minCharge);
    assert charge * ((levy - r.fuelLevyPct) / 100.0) >= 0.0;
    if r.fuelLevyPct < levy && r.minCharge > 0.0 {
      assert charge * ((levy - r.fuelLevyPct) / 100.0) > 0.0;
    }
  }

  /** Two zones of one provider joined by a route with base 15, rate 0.5, minimum 2 and no levy:
      100 kg costs max(15 + 50, 2) = 65; any zero-weight shipment costs exactly the minimum. */
  lemma CostExamples(r: ProviderZoneRoute)
    requires r.baseCharge == 15.0 && r.perKGRate == 0.5 && r.minCharge == 2.0 && r.fuelLevyPct == 0.0
    ensures r.CalculateCost(100.0) == 65.0
    ensures r.CalculateCost(0.0) == 2.0
  {
  }

  /** A booking query. */
  datatype Shipment = Shipment(
    id: string, originPC: string, destPC: string,
    weightKG: real, volumeCBM: real, pallets: int, serviceType: string)

  /** A vertex of the search graph: a postcode `('pc', code, None)` or a provider zone
      `('pz', zoneCode, providerId)`. Equality is equality of the triple, so two zones with the
      same code under different providers are different vertices. */
  datatype Node = PC(code: string) | PZ(zone: string, provider: string) {
    /** The middle component of the triple: the postcode or the zone code. */
    function Id(): string {
      if PC? then code else zone
    }
  }

  /** Node of a search tree, identified by (nodeType, nodeId, providerId) whatever its costs. */
  datatype PathNode = PathNode(
    nodeType: string, nodeId: string, providerId: Option<string>, pathHops: int,
    gCost: real, hCost: real, shipmentWeight: real)
  {
    /** The A* priority: cost so far plus the estimate to the goal. */
    function FCost(): (f: real)
      ensures hCost >= 0.0 ==> f >= gCost
      ensures f - hCost == gCost
    {
      gCost + hCost
    }

    /** Python's `__eq__`: the identity triple only. */
    predicate SameAs(other: PathNode) {
      (nodeType, nodeId, providerId) == (other.nodeType, other.nodeId, other.providerId)
    }
  }

  /** `SameAs` is an equivalence that ignores hop counts and costs. */
  lemma SameAsIsIdentity(a: PathNode, b: PathNode, c: PathNode, hops: int, g: real, h: real)
    ensures a.SameAs(a)
    ensures a.SameAs(b) ==> b.SameAs(a)
    ensures a.SameAs(b) && b.SameAs(c) ==> a.SameAs(c)
    ensures a.SameAs(a.(pathHops := hops, gCost := g, hCost := h))
  {
  }

  /** One leg of a path. The bidirectional engine records every edge it unrolls (entry, exit and
      zone routes, with a provider only for zone routes); the forward engine records only transit
      legs, each with its route's provider. */
  datatype Segment =
    | EdgeSegment(fromZone: string, toZone: string, cost: real, etd: real,
                  kind: string, service: string, providerId: Option<string>)
    | TransitSegment(providerId': string, fromZone: string, toZone: string, cost: real, etd: real)

  /** A path result. */
  datatype MultiHopPath = MultiHopPath(
    shipmentId: string, nodes: seq<Node>, segments: seq<Segment>,
    totalCost: ExtReal, totalETD: ExtReal, providersInvolved: seq<string>,
    numHops: int, reliabilityScore: real, totScore: real, rank: int)

  /** Construction of a path result with the remaining fields at their defaults; the
      providers list is de-duplicated as the record is created. */
  function NewMultiHopPath(
    shipmentId: string, nodes: seq<Node>, segments: seq<Segment>,
    totalCost: ExtReal, totalETD: ExtReal, providers: seq<string>, numHops: int): (p: MultiHopPath)
    ensures Distinct(p.providersInvolved)
    ensures forall x :: x in p.providersInvolved <==> x in providers
    ensures p.shipmentId == shipmentId && p.nodes == nodes && p.segments == segments
    ensures p.totalCost == totalCost && p.totalETD == totalETD && p.numHops == numHops
    ensures p.reliabilityScore == 1.0 && p.totScore == 0.0 && p.rank == 0
  {
    MultiHopPath(shipmentId, nodes, segments, totalCost, totalETD, Dedup(providers),
                 numHops, 1.0, 0.0, 0)
  }
}
