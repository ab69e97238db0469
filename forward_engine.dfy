/** `find_mltihop_path`, `create_default_path` and the pass-through `RouteOptimizer` of
    engine_new.py. The search starts at the origin postcode, stops as soon as the destination
    postcode is popped and reconstructs that one path; when the heap runs dry it returns the
    fallback path alone. The loop is run for a step budget: `BudgetExhausted` stands for a search
    that has not finished within it. */
module ForwardEngine {
  import opened Common
  import opened DataModel
  import opened Index
  import opened SearchTree
  import opened Forward
  import opened ForwardSearch
  import opened ForwardLoop

  /** How `find_mltihop_path` ends: a `ValueError` for an unknown origin or destination, a search
      not finished within the step budget, a reconstruction that never ends, or the paths. */
  datatype Outcome =
    | UnknownOrigin
    | UnknownDestination
    | BudgetExhausted
    | Diverges
    | Found(paths: seq<MultiHopPath>)

  /** `create_default_path`: no nodes, no segments, infinite cost and time, no hops. */
  function FallbackPath(shipment: Shipment): (p: MultiHopPath)
    ensures p.shipmentId == shipment.id && p.nodes == [] && p.segments == []
    ensures p.totalCost == PosInf && p.totalETD == PosInf
    ensures p.providersInvolved == [] && p.numHops == 0
  {
    NewMultiHopPath(shipment.id, [], [], PosInf, PosInf, [], 0)
  }

  /** The state before the first pop: the origin at cost 0, no parents, no edge data, and the
      origin queued at its estimate with counter 0. */
  function InitialState(eng: FreightEngine, shipment: Shipment): ForwardState {
    ForwardState(map[PC(shipment.originPC) := 0.0], map[], map[],
                 [QueueItem(Heuristic(eng, shipment.originPC, shipment.destPC), 0, PC(shipment.originPC))], 0)
  }

  /** The initial state satisfies the loop's invariant. */
  lemma InitialSearching(eng: FreightEngine, shipment: Shipment, maxCost: ExtReal)
    ensures Searching(eng.index, PC(shipment.originPC), shipment.weightKG, shipment.destPC, maxCost,
                      InitialState(eng, shipment))
    ensures CountersOk(InitialState(eng, shipment).heap, InitialState(eng, shipment).counter)
  {
    var s := InitialState(eng, shipment);
    var start := PC(shipment.originPC);
    assert HeapNodes(s.heap) == {start} by {
      assert s.heap[0] in s.heap;
    }
    forall v ensures PendingAt(eng.index, shipment.weightKG, maxCost, s.g, HeapNodes(s.heap), v) {
    }
    AcyclicRoot(start, 0.0, 1);
  }

  /** What `find_mltihop_path` promises, given the step budget and the final state `s` of the
      search:
      - an unknown origin, then an unknown destination, is reported;
      - otherwise the search tree is rooted at the origin, within `maxCost`, made of genuine
        forward steps, and every entry left queued has a counter of its own; with no route
        priced below zero, every parent walk in it ends, so a popped destination always gives
        a path;
      - when the heap runs dry the fallback path alone is returned, the destination was never
        costed, and no walk from the origin within `maxCost` reaches it;
      - the final state and the way the loop ended are exactly those of `Run` from the initial
        state for the budget; the budget runs out only while entries are still queued, so the
        source's loop would go on, and a budget of 0 always runs out;
      - when the destination is popped, it is costed, and the result is the path reconstructed
        from it (or the divergence of that reconstruction);
      - when origin and destination coincide, the destination is popped first, with no parents
        recorded. */
  ghost predicate FindContract(eng: FreightEngine, shipment: Shipment, maxCost: ExtReal, budget: nat,
                               r: Outcome, end: SearchEnd, s: ForwardState)
  {
    var start, goal, w := PC(shipment.originPC), PC(shipment.destPC), shipment.weightKG;
    && (shipment.originPC !in eng.postcodes ==> r == UnknownOrigin)
    && (shipment.originPC in eng.postcodes && shipment.destPC !in eng.postcodes ==> r == UnknownDestination)
    && (shipment.originPC in eng.postcodes && shipment.destPC in eng.postcodes ==>
          && TreeOk(start, s.g, s.parent, s.edge, maxCost)
          && Genuine(eng.index, w, s.parent, s.edge)
          && CountersOk(s.heap, s.counter)
          && (s, end) == Run(eng, w, shipment.destPC, maxCost, budget, InitialState(eng, shipment))
          && (r == BudgetExhausted <==> end == OutOfSteps)
          && (end == OutOfSteps ==> s.heap != [])
          && (budget == 0 ==> r == BudgetExhausted)
          && (NonNegativePrices(eng.index, w) ==> ChainsEnd(s.g, s.parent))
          && (NonNegativePrices(eng.index, w) && end == GoalPopped ==> r.Found?)
          && (end == QueueEmptied ==>
                && r == Found([FallbackPath(shipment)])
                && goal !in s.g
                && forall steps :: Walk(eng.index, w, start, steps, maxCost) ==> WalkEnd(start, steps) != goal)
          && (end == GoalPopped ==>
                && goal in s.g
                && r == match Reconstruct(goal, s.parent, s.edge, shipment.id)
                        case None => Diverges
                        case Some(p) => Found([p]))
          && (shipment.originPC == shipment.destPC && budget > 0 ==> end == GoalPopped && s.parent == map[]))
  }

  /** `find_mltihop_path` (with `maxETD`, `maxHops` and `topK` unused, as in the source), for at
      most `budget` iterations of its main loop. */
  method FindPath(eng: FreightEngine, shipment: Shipment, maxCost: ExtReal, maxETD: ExtReal, maxHops: int,
                  topK: int, budget: nat)
    returns (r: Outcome, ghost end: SearchEnd, ghost s: ForwardState)
    ensures FindContract(eng, shipment, maxCost, budget, r, end, s)
    ensures shipment.originPC !in eng.postcodes ==> r == UnknownOrigin
    ensures shipment.originPC in eng.postcodes && shipment.destPC !in eng.postcodes ==> r == UnknownDestination
    ensures r.Found? ==> |r.paths| == 1
    ensures NonNegativePrices(eng.index, shipment.weightKG) ==> r != Diverges
    ensures shipment.originPC in eng.postcodes && shipment.originPC == shipment.destPC && budget > 0 ==>
      r.Found? && r.paths[0].nodes == [PC(shipment.originPC)] && r.paths[0].totalCost == Fin(0.0)
      && r.paths[0].numHops == 0
  {
    end, s := OutOfSteps, ForwardState(map[], map[], map[], [], 0);
    if shipment.originPC !in eng.postcodes {
      return UnknownOrigin, end, s;
    }
    if shipment.destPC !in eng.postcodes {
      return UnknownDestination, end, s;
    }
    var start, goal := PC(shipment.originPC), PC(shipment.destPC);
    var s0 := InitialState(eng, shipment);
    InitialSearching(eng, shipment, maxCost);
    var final, how := SearchLoop(eng, start, shipment.weightKG, shipment.destPC, maxCost, budget, s0);
    end, s := how, final;
    if NonNegativePrices(eng.index, shipment.weightKG) {
      AcyclicChainsEnd(final.g, final.parent, final.counter + 1);
    }
    match how
    case OutOfSteps =>
      r := BudgetExhausted;
    case QueueEmptied =>
      NoWalkToGoal(eng.index, shipment.weightKG, start, goal, final.g, maxCost);
      r := Found([FallbackPath(shipment)]);
    case GoalPopped =>
      var path := ReconstructPath(goal, final.parent, final.edge, shipment);
      r := if path.None? then Diverges else Found([path.value]);
    if shipment.originPC == shipment.destPC && budget > 0 {
      SamePostcodePath(eng, shipment, maxCost, budget, r, end, s);
    }
  }

  /** The step `n` was reached by, as its edge data records it. */
  function StepOf(n: Node, edge: map<Node, EdgeRecord<StepInfo>>): Step
    requires n in edge
  {
    Step(n, edge[n].cost, edge[n].etd, edge[n].info)
  }

  /** A path found when the destination is popped runs from the origin to the destination down
      the search tree, each node reached from the one before by a step `_get_forward_neighbors`
      lists there; it costs no more than the destination's recorded cost (and so stays within
      `maxCost`), its segments are transit segments naming listed providers, each listed provider
      names a segment, and the hop count is the number of providers. */
  lemma FoundPathFacts(eng: FreightEngine, shipment: Shipment, maxCost: ExtReal, budget: nat,
                       r: Outcome, end: SearchEnd, s: ForwardState)
    returns (p: MultiHopPath)
    requires FindContract(eng, shipment, maxCost, budget, r, end, s)
    requires r.Found? && end == GoalPopped
    ensures r.paths == [p]
    ensures |p.nodes| >= 1 && p.nodes[0] == PC(shipment.originPC) && p.nodes[|p.nodes| - 1] == PC(shipment.destPC)
    ensures forall i :: 1 <= i < |p.nodes| ==>
      p.nodes[i] in s.edge && StepOf(p.nodes[i], s.edge) in ForwardNeighbors(eng.index, p.nodes[i - 1], shipment.weightKG)
    ensures p.totalCost.Le(Fin(s.g[PC(shipment.destPC)]))
    ensures PC(shipment.destPC) in s.parent ==> p.totalCost.Le(maxCost)
    ensures p.numHops == |p.providersInvolved|
    ensures forall seg :: seg in p.segments ==> seg.TransitSegment? && seg.providerId' in p.providersInvolved
    ensures forall x :: x in p.providersInvolved ==>
      exists seg :: seg in p.segments && seg.TransitSegment? && seg.providerId' == x
  {
    var start, goal, w := PC(shipment.originPC), PC(shipment.destPC), shipment.weightKG;
    assert r != UnknownOrigin && r != UnknownDestination;
    p := ReconstructInTree(start, s.g, s.parent, s.edge, maxCost, goal, shipment.id);
    var q := ReconstructProviders(goal, s.parent, s.edge, shipment.id);
    forall i | 1 <= i < |p.nodes|
      ensures p.nodes[i] in s.edge && StepOf(p.nodes[i], s.edge) in ForwardNeighbors(eng.index, p.nodes[i - 1], w)
    {
      assert StepDown(p.nodes, s.parent, i - 1);
      assert TreeStep(eng.index, w, s.parent, s.edge, p.nodes[i]);
    }
  }

  /** The step budget only cuts the search short: an answer found within `budget` iterations
      is the answer under any larger budget. */
  lemma FindSettles(eng: FreightEngine, shipment: Shipment, maxCost: ExtReal, budget: nat, more: nat,
                    r: Outcome, end: SearchEnd, s: ForwardState, r': Outcome, end': SearchEnd, s': ForwardState)
    requires FindContract(eng, shipment, maxCost, budget, r, end, s)
    requires FindContract(eng, shipment, maxCost, more, r', end', s')
    requires budget <= more && r != BudgetExhausted
    ensures r' == r
  {
    if shipment.originPC in eng.postcodes && shipment.destPC in eng.postcodes {
      var next := Next(eng, shipment.weightKG, shipment.destPC, maxCost);
      RunSettles(next, shipment.destPC, budget, more, InitialState(eng, shipment));
    }
  }

  /** When origin and destination coincide and the budget allows one iteration, the single path
      found is the origin alone: no segments, zero cost and time, no hops. */
  lemma SamePostcodePath(eng: FreightEngine, shipment: Shipment, maxCost: ExtReal, budget: nat,
                         r: Outcome, end: SearchEnd, s: ForwardState)
    requires FindContract(eng, shipment, maxCost, budget, r, end, s)
    requires shipment.originPC in eng.postcodes && shipment.originPC == shipment.destPC && budget > 0
    ensures r.Found? && |r.paths| == 1
    ensures var p := r.paths[0];
      && p.nodes == [PC(shipment.originPC)] && p.segments == [] && p.totalCost == Fin(0.0)
      && p.totalETD == Fin(0.0) && p.providersInvolved == [] && p.numHops == 0
  {
    ReconstructAtRoot(PC(shipment.destPC), s.parent, s.edge, shipment.id);
  }

  // ---------------------------------------------------------------------------------------
  // RouteOptimizer

  /** The optimizer holds only the engine it was built with. */
  datatype RouteOptimizer = RouteOptimizer(engine: FreightEngine)

  /** `unoptimized`: the engine's fallback path. */
  function Unoptimized(opt: RouteOptimizer, shipment: Shipment): (p: MultiHopPath)
    ensures p.nodes == [] && p.segments == [] && p.totalCost == PosInf && p.totalETD == PosInf
    ensures p.numHops == 0 && p.shipmentId == shipment.id
  {
    FallbackPath(shipment)
  }

  /** `optimized_for_cost`: the engine's search with no cost bound (`maxETD` is passed on and not
      used). */
  method OptimizedForCost(opt: RouteOptimizer, shipment: Shipment, maxETD: ExtReal, budget: nat)
    returns (r: Outcome, ghost end: SearchEnd, ghost s: ForwardState)
    ensures FindContract(opt.engine, shipment, PosInf, budget, r, end, s)
    ensures shipment.originPC !in opt.engine.postcodes ==> r == UnknownOrigin
    ensures shipment.originPC in opt.engine.postcodes && shipment.destPC !in opt.engine.postcodes ==>
      r == UnknownDestination
    ensures r.Found? ==> |r.paths| == 1
    ensures NonNegativePrices(opt.engine.index, shipment.weightKG) ==> r != Diverges
  {
    r, end, s := FindPath(opt.engine, shipment, PosInf, maxETD, 5, 10, budget);
  }

  /** `optimized_for_time`: the engine's search within `maxCost`. */
  method OptimizedForTime(opt: RouteOptimizer, shipment: Shipment, maxCost: ExtReal, budget: nat)
    returns (r: Outcome, ghost end: SearchEnd, ghost s: ForwardState)
    ensures FindContract(opt.engine, shipment, maxCost, budget, r, end, s)
    ensures shipment.originPC !in opt.engine.postcodes ==> r == UnknownOrigin
    ensures shipment.originPC in opt.engine.postcodes && shipment.destPC !in opt.engine.postcodes ==>
      r == UnknownDestination
    ensures r.Found? ==> |r.paths| == 1
    ensures NonNegativePrices(opt.engine.index, shipment.weightKG) ==> r != Diverges
  {
    r, end, s := FindPath(opt.engine, shipment, maxCost, PosInf, 5, 10, budget);
  }

  /** `optimize_multi_criteria`: the engine's search with every default. */
  method OptimizeMultiCriteria(opt: RouteOptimizer, shipment: Shipment, budget: nat)
    returns (r: Outcome, ghost end: SearchEnd, ghost s: ForwardState)
    ensures FindContract(opt.engine, shipment, PosInf, budget, r, end, s)
    ensures shipment.originPC !in opt.engine.postcodes ==> r == UnknownOrigin
    ensures shipment.originPC in opt.engine.postcodes && shipment.destPC !in opt.engine.postcodes ==>
      r == UnknownDestination
    ensures r.Found? ==> |r.paths| == 1
    ensures NonNegativePrices(opt.engine.index, shipment.weightKG) ==> r != Diverges
  {
    r, end, s := FindPath(opt.engine, shipment, PosInf, PosInf, 5, 10, budget);
  }
}
