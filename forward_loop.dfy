/** The main loop of `find_mltihop_path` (engine_new.py): a best-first search with no visited
    set, so a vertex whose cost drops after it was expanded is queued and expanded again. The
    loop keeps a search tree of genuine forward steps, and every costed vertex within `maxCost`
    that is not queued has already reached each of its neighbours at no more than its cost plus
    the step. When the queue runs dry, every walk from the origin that stays within `maxCost`
    therefore ends at a costed vertex. */
module ForwardLoop {
  import opened Common
  import opened DataModel
  import opened Index
  import opened SearchTree
  import opened Forward

  /** The working state: `g_score`, `came_from`, `edge_data`, the heap and the push counter. */
  datatype ForwardState = ForwardState(
    g: map<Node, real>, parent: map<Node, Node>, edge: map<Node, EdgeRecord<StepInfo>>,
    heap: seq<QueueItem>, counter: int)

  /** The edge data of `n` records a step that `_get_forward_neighbors` lists for its parent. */
  ghost predicate TreeStep(idx: GraphIndex, w: real, parent: map<Node, Node>,
                           edge: map<Node, EdgeRecord<StepInfo>>, n: Node)
  {
    n in parent && n in edge ==>
      Step(n, edge[n].cost, edge[n].etd, edge[n].info) in ForwardNeighbors(idx, parent[n], w)
  }

  /** Every recorded step is a genuine forward step. */
  ghost predicate Genuine(idx: GraphIndex, w: real, parent: map<Node, Node>, edge: map<Node, EdgeRecord<StepInfo>>) {
    forall n {:trigger TreeStep(idx, w, parent, edge, n)} :: TreeStep(idx, w, parent, edge, n)
  }

  /** A search tree from `start` within `maxCost` of genuine steps, only costed vertices queued,
      and the start never above its initial cost 0. */
  ghost predicate SearchShape(idx: GraphIndex, start: Node, w: real, maxCost: ExtReal, s: ForwardState) {
    && TreeOk(start, s.g, s.parent, s.edge, maxCost)
    && Genuine(idx, w, s.parent, s.edge)
    && HeapNodes(s.heap) <= s.g.Keys
    && s.g[start] <= 0.0
  }

  /** The shape the state keeps; with no route priced below zero, the parent pointers are also
      ordered by (cost, push counter), so they never form a cycle. */
  ghost predicate SearchOk(idx: GraphIndex, start: Node, w: real, maxCost: ExtReal, s: ForwardState) {
    && SearchShape(idx, start, w, maxCost, s)
    && (NonNegativePrices(idx, w) ==> Acyclic(s.g, s.parent, s.counter + 1))
  }

  /** A step taken from a vertex at cost `gv` has reached its target: unless that costs more than
      `maxCost`, the target is costed at no more than `gv` plus the step. */
  predicate Reached(g: map<Node, real>, e: Step, gv: real, maxCost: ExtReal) {
    Fin(gv + e.cost).Le(maxCost) ==> e.to in g && g[e.to] <= gv + e.cost
  }

  ghost predicate AllReached(g: map<Node, real>, es: seq<Step>, gv: real, maxCost: ExtReal) {
    forall e :: e in es ==> Reached(g, e, gv, maxCost)
  }

  /** Vertex `v`, when costed within `maxCost`, has reached all its neighbours at its cost. */
  ghost predicate DoneAt(idx: GraphIndex, w: real, maxCost: ExtReal, g: map<Node, real>, v: Node) {
    v in g && Fin(g[v]).Le(maxCost) ==> AllReached(g, ForwardNeighbors(idx, v, w), g[v], maxCost)
  }

  ghost predicate PendingAt(idx: GraphIndex, w: real, maxCost: ExtReal, g: map<Node, real>, queued: set<Node>, v: Node) {
    v in g && v !in queued ==> DoneAt(idx, w, maxCost, g, v)
  }

  /** Every costed vertex that is not queued is done. */
  ghost predicate Pending(idx: GraphIndex, w: real, maxCost: ExtReal, g: map<Node, real>, queued: set<Node>) {
    forall v {:trigger PendingAt(idx, w, maxCost, g, queued, v)} :: PendingAt(idx, w, maxCost, g, queued, v)
  }

  /** Every vertex whose cost changed from `g0` to `g`, or that is new, is queued. */
  ghost predicate Requeued(g0: map<Node, real>, g: map<Node, real>, queued: set<Node>) {
    forall m :: m in g ==> (m in g0 && g[m] == g0[m]) || m in queued
  }

  /** What holds between iterations of the main loop: the state's shape, the pending vertices
      queued, and the goal, once costed, queued (popping it ends the loop). */
  ghost predicate Searching(idx: GraphIndex, start: Node, w: real, goalPC: string, maxCost: ExtReal, s: ForwardState) {
    && SearchOk(idx, start, w, maxCost, s)
    && Pending(idx, w, maxCost, s.g, HeapNodes(s.heap))
    && (PC(goalPC) in s.g ==> PC(goalPC) in HeapNodes(s.heap))
  }

  // ---------------------------------------------------------------------------------------
  // The inner loop

  lemma AllReachedMono(g: map<Node, real>, g': map<Node, real>, es: seq<Step>, gv: real, maxCost: ExtReal)
    requires AllReached(g, es, gv, maxCost) && Lowered(g, g')
    ensures AllReached(g', es, gv, maxCost)
  {
    forall e | e in es ensures Reached(g', e, gv, maxCost) {
      assert Reached(g, e, gv, maxCost);
    }
  }

  /** The state after taking step `e` out of `current`: `e.to` gets the new cost, `current` as
      parent and the step's data, and is pushed at that cost plus its estimate `h` under the next
      counter. */
  function TakeStep(s: ForwardState, current: Node, e: Step, h: real): ForwardState
    requires current in s.g
  {
    var t := s.g[current] + e.cost;
    ForwardState(s.g[e.to := t], s.parent[e.to := current], s.edge[e.to := EdgeRecord(e.cost, e.etd, e.info)],
                 s.heap + [QueueItem(t + h, s.counter + 1, e.to)], s.counter + 1)
  }

  lemma TakeStepKeepsGenuine(idx: GraphIndex, w: real, parent: map<Node, Node>,
                             edge: map<Node, EdgeRecord<StepInfo>>, current: Node, e: Step)
    requires Genuine(idx, w, parent, edge)
    requires e in ForwardNeighbors(idx, current, w)
    ensures Genuine(idx, w, parent[e.to := current], edge[e.to := EdgeRecord(e.cost, e.etd, e.info)])
  {
    var parent', edge' := parent[e.to := current], edge[e.to := EdgeRecord(e.cost, e.etd, e.info)];
    forall n ensures TreeStep(idx, w, parent', edge', n) {
      if n != e.to {
        assert TreeStep(idx, w, parent, edge, n);
      }
    }
  }

  /** Taking a step within `maxCost` that improves its target's cost keeps the state's shape and
      queues the target. */
  lemma TakeStepKeepsSearchOk(idx: GraphIndex, start: Node, w: real, maxCost: ExtReal, s: ForwardState,
                              current: Node, e: Step, h: real)
    requires SearchOk(idx, start, w, maxCost, s)
    requires current in s.g && e in ForwardNeighbors(idx, current, w)
    requires Genuine(idx, w, s.parent[e.to := current], s.edge[e.to := EdgeRecord(e.cost, e.etd, e.info)])
    requires Fin(s.g[current] + e.cost).Le(maxCost)
    requires e.to !in s.g || s.g[current] + e.cost < s.g[e.to]
    ensures SearchOk(idx, start, w, maxCost, TakeStep(s, current, e, h))
    ensures HeapNodes(TakeStep(s, current, e, h).heap) == HeapNodes(s.heap) + {e.to}
  {
    TakeStepKeepsShape(idx, start, w, maxCost, s, current, e, h);
    TakeStepKeepsAcyclic(idx, w, s, current, e, h);
  }

  /** The tree, genuineness and queue part of `TakeStepKeepsSearchOk`. */
  lemma TakeStepKeepsShape(idx: GraphIndex, start: Node, w: real, maxCost: ExtReal, s: ForwardState,
                           current: Node, e: Step, h: real)
    requires SearchShape(idx, start, w, maxCost, s)
    requires current in s.g
    requires Genuine(idx, w, s.parent[e.to := current], s.edge[e.to := EdgeRecord(e.cost, e.etd, e.info)])
    requires Fin(s.g[current] + e.cost).Le(maxCost)
    requires e.to !in s.g || s.g[current] + e.cost < s.g[e.to]
    ensures SearchShape(idx, start, w, maxCost, TakeStep(s, current, e, h))
    ensures HeapNodes(TakeStep(s, current, e, h).heap) == HeapNodes(s.heap) + {e.to}
  {
    var cg := s.g[current];
    RelaxKeepsTree(start, s.g, s.parent, s.edge, maxCost, current, cg, e.to, EdgeRecord(e.cost, e.etd, e.info));
    SameKeysUpdate(s.parent, s.edge, e.to, current, EdgeRecord(e.cost, e.etd, e.info));
    HeapNodesPush(s.heap, QueueItem(cg + e.cost + h, s.counter + 1, e.to));
  }

  /** The new target takes the counter value it is pushed with as its stamp. */
  lemma TakeStepKeepsAcyclic(idx: GraphIndex, w: real, s: ForwardState, current: Node, e: Step, h: real)
    requires current in s.g && e in ForwardNeighbors(idx, current, w)
    requires e.to !in s.g || s.g[current] + e.cost < s.g[e.to]
    requires NonNegativePrices(idx, w) ==> Acyclic(s.g, s.parent, s.counter + 1)
    ensures NonNegativePrices(idx, w) ==>
      Acyclic(TakeStep(s, current, e, h).g, TakeStep(s, current, e, h).parent, TakeStep(s, current, e, h).counter + 1)
  {
    if NonNegativePrices(idx, w) {
      StepCostNonNegative(idx, current, w, e);
      AcyclicRelax(s.g, s.parent, s.counter + 1, current, s.g[current], e.to, e.cost, s.counter + 1);
    }
  }

  /** The entry a step pushes carries the next counter, above every one handed out. */
  lemma TakeStepCounters(s: ForwardState, current: Node, e: Step, h: real)
    requires current in s.g && CountersOk(s.heap, s.counter)
    ensures CountersOk(TakeStep(s, current, e, h).heap, TakeStep(s, current, e, h).counter)
    ensures TakeStep(s, current, e, h).counter == s.counter + 1
  {
    CountersPush(s.heap, s.counter, QueueItem(s.g[current] + e.cost + h, s.counter + 1, e.to));
  }

  /** Giving `e.to` the lower cost `g[current] + e.cost` lowers no cost, queues the one it
      changes, and reaches `e.to`. */
  lemma TakeStepCosts(s: ForwardState, current: Node, e: Step, h: real, maxCost: ExtReal)
    requires current in s.g
    requires e.to !in s.g || s.g[current] + e.cost < s.g[e.to]
    ensures var t := TakeStep(s, current, e, h);
      && Lowered(s.g, t.g)
      && HeapNodes(s.heap) <= HeapNodes(t.heap)
      && Requeued(s.g, t.g, HeapNodes(t.heap))
      && Reached(t.g, e, s.g[current], maxCost)
  {
    HeapNodesPush(s.heap, QueueItem(s.g[current] + e.cost + h, s.counter + 1, e.to));
  }

  /** The state after the inner loop's body for the step `e` out of `current`: the step is
      recorded and its target pushed, at its cost plus its estimate, when the cost through
      `current` is within `maxCost` and improves on the target's; otherwise nothing changes. */
  function Relaxed(eng: FreightEngine, goalPC: string, maxCost: ExtReal, current: Node, e: Step,
                   s: ForwardState): (r: ForwardState)
    requires current in s.g
    ensures r == s || r.g.Keys == s.g.Keys + {e.to}
  {
    var t := s.g[current] + e.cost;
    if Fin(t).Le(maxCost) && (e.to !in s.g || t < s.g[e.to]) then
      TakeStep(s, current, e, HeuristicNode(eng, e.to, goalPC))
    else s
  }

  /** The state after the inner loop over the steps `ns`, relaxed in order. */
  function RelaxedAll(eng: FreightEngine, goalPC: string, maxCost: ExtReal, current: Node, ns: seq<Step>,
                      s: ForwardState): (r: ForwardState)
    requires current in s.g
    ensures s.g.Keys <= r.g.Keys
    decreases |ns|
  {
    if ns == [] then s
    else Relaxed(eng, goalPC, maxCost, current, ns[|ns| - 1],
                 RelaxedAll(eng, goalPC, maxCost, current, ns[..|ns| - 1], s))
  }

  lemma RelaxedAllSnoc(eng: FreightEngine, goalPC: string, maxCost: ExtReal, current: Node, ns: seq<Step>,
                       i: nat, s: ForwardState)
    requires current in s.g && i < |ns|
    ensures current in RelaxedAll(eng, goalPC, maxCost, current, ns[..i], s).g
    ensures RelaxedAll(eng, goalPC, maxCost, current, ns[..i + 1], s)
         == Relaxed(eng, goalPC, maxCost, current, ns[i], RelaxedAll(eng, goalPC, maxCost, current, ns[..i], s))
  {
    assert ns[..i + 1][..i] == ns[..i];
  }

  /** One step of the inner loop of `find_mltihop_path`: the cost through `current` is its
      current cost plus the step's; a cost over `maxCost` is skipped, and otherwise, when it
      improves on the target's cost, the target gets `current` as parent, the cost and the step's
      data, and is pushed at that cost plus its estimate. */
  method RelaxStep(eng: FreightEngine, ghost start: Node, w: real, goalPC: string, maxCost: ExtReal,
                   current: Node, e: Step, s0: ForwardState)
    returns (s: ForwardState)
    requires SearchOk(eng.index, start, w, maxCost, s0)
    requires current in s0.g && e in ForwardNeighbors(eng.index, current, w)
    requires CountersOk(s0.heap, s0.counter)
    ensures SearchOk(eng.index, start, w, maxCost, s)
    ensures CountersOk(s.heap, s.counter) && s0.counter <= s.counter
    ensures Lowered(s0.g, s.g)
    ensures HeapNodes(s0.heap) <= HeapNodes(s.heap)
    ensures Requeued(s0.g, s.g, HeapNodes(s.heap))
    ensures Reached(s.g, e, s0.g[current], maxCost)
    ensures (!Fin(s0.g[current] + e.cost).Le(maxCost)
             || (e.to in s0.g && s0.g[current] + e.cost >= s0.g[e.to])) ==> s == s0
    ensures Fin(s0.g[current] + e.cost).Le(maxCost) && (e.to !in s0.g || s0.g[current] + e.cost < s0.g[e.to])
            ==> s == TakeStep(s0, current, e, HeuristicNode(eng, e.to, goalPC))
                && (e.to !in s0.g || s.g[e.to] < s0.g[e.to])
    ensures s == Relaxed(eng, goalPC, maxCost, current, e, s0)
  {
    s := s0;
    var tentative := s.g[current] + e.cost;
    if !Fin(tentative).Le(maxCost) {
      return;
    }
    if e.to !in s.g || tentative < s.g[e.to] {
      var h := HeuristicNode(eng, e.to, goalPC);
      TakeStepKeepsGenuine(eng.index, w, s.parent, s.edge, current, e);
      TakeStepKeepsSearchOk(eng.index, start, w, maxCost, s, current, e, h);
      TakeStepCosts(s, current, e, h, maxCost);
      TakeStepCounters(s, current, e, h);
      s := TakeStep(s, current, e, h);
    }
  }

  /** After relaxing the next step of `ns`: `current` is queued, or it kept its cost `cv` and
      has reached one more of the steps. */
  lemma NeighborStep(g: map<Node, real>, g': map<Node, real>, q: set<Node>, q': set<Node>,
                     ns: seq<Step>, i: nat, current: Node, cv: real, maxCost: ExtReal)
    requires i < |ns| && current in g
    requires current in q || (g[current] == cv && AllReached(g, ns[..i], cv, maxCost))
    requires q <= q' && Lowered(g, g') && Requeued(g, g', q')
    requires Reached(g', ns[i], g[current], maxCost)
    ensures current in q' || (g'[current] == cv && AllReached(g', ns[..i + 1], cv, maxCost))
  {
    if current !in q' && g'[current] == cv {
      AllReachedMono(g, g', ns[..i], cv, maxCost);
      assert ns[..i + 1] == ns[..i] + [ns[i]];
    }
  }

  /** The inner loop of `find_mltihop_path`: every neighbour of `current`, in order, is relaxed.
      Afterwards `current` is queued again, or it kept its cost and reached every neighbour. */
  method RelaxNeighbors(eng: FreightEngine, ghost start: Node, w: real, goalPC: string, maxCost: ExtReal,
                        current: Node, ns: seq<Step>, s0: ForwardState)
    returns (s: ForwardState)
    requires SearchOk(eng.index, start, w, maxCost, s0)
    requires current in s0.g && forall e :: e in ns ==> e in ForwardNeighbors(eng.index, current, w)
    requires CountersOk(s0.heap, s0.counter)
    ensures SearchOk(eng.index, start, w, maxCost, s)
    ensures CountersOk(s.heap, s.counter) && s0.counter <= s.counter
    ensures Lowered(s0.g, s.g)
    ensures HeapNodes(s0.heap) <= HeapNodes(s.heap)
    ensures Requeued(s0.g, s.g, HeapNodes(s.heap))
    ensures current in HeapNodes(s.heap) || (s.g[current] == s0.g[current] && AllReached(s.g, ns, s0.g[current], maxCost))
    ensures s == RelaxedAll(eng, goalPC, maxCost, current, ns, s0)
  {
    s := s0;
    for i := 0 to |ns|
      invariant s == RelaxedAll(eng, goalPC, maxCost, current, ns[..i], s0)
      invariant SearchOk(eng.index, start, w, maxCost, s)
      invariant CountersOk(s.heap, s.counter) && s0.counter <= s.counter
      invariant Lowered(s0.g, s.g)
      invariant HeapNodes(s0.heap) <= HeapNodes(s.heap)
      invariant Requeued(s0.g, s.g, HeapNodes(s.heap))
      invariant current in HeapNodes(s.heap) || (s.g[current] == s0.g[current] && AllReached(s.g, ns[..i], s0.g[current], maxCost))
    {
      ghost var before := s;
      RelaxedAllSnoc(eng, goalPC, maxCost, current, ns, i, s0);
      s := RelaxStep(eng, start, w, goalPC, maxCost, current, ns[i], s);
      NeighborStep(before.g, s.g, HeapNodes(before.heap), HeapNodes(s.heap), ns, i, current, s0.g[current], maxCost);
    }
    assert ns[..|ns|] == ns;
  }

  // ---------------------------------------------------------------------------------------
  // The main loop

  /** After popping `current` and expanding it (or skipping it): every vertex not queued is
      done, given that `current` is queued again or done. */
  lemma PendingAfterExpand(idx: GraphIndex, w: real, maxCost: ExtReal, g: map<Node, real>, g': map<Node, real>,
                           q0: set<Node>, rest: set<Node>, q': set<Node>, current: Node)
    requires Pending(idx, w, maxCost, g, q0)
    requires q0 <= rest + {current} && rest <= q'
    requires Lowered(g, g') && Requeued(g, g', q')
    requires current in q' || DoneAt(idx, w, maxCost, g', current)
    ensures Pending(idx, w, maxCost, g', q')
  {
    forall v ensures PendingAt(idx, w, maxCost, g', q', v) {
      if v in g' && v !in q' && v != current {
        assert PendingAt(idx, w, maxCost, g, q0, v);
        if Fin(g'[v]).Le(maxCost) {
          AllReachedMono(g, g', ForwardNeighbors(idx, v, w), g[v], maxCost);
        }
      }
    }
  }

  /** Popping the least entry keeps only costed vertices queued and the goal queued unless it
      was the one popped. */
  lemma PopKeeps(heap: seq<QueueItem>, item: QueueItem, rest: seq<QueueItem>, keys: set<Node>, goal: Node)
    requires item in heap && HeapNodes(heap) <= keys
    requires forall y :: y in heap ==> y in rest || y == item
    requires forall y :: y in rest ==> y in heap
    requires goal in keys ==> goal in HeapNodes(heap)
    ensures item.node in keys && HeapNodes(rest) <= keys
    ensures HeapNodes(heap) <= HeapNodes(rest) + {item.node}
    ensures goal in keys && item.node != goal ==> goal in HeapNodes(rest)
  {
    HeapNodesPop(heap, item, rest);
    assert item.node in HeapNodes(heap);
  }

  /** The state after the main loop's body for the popped entry `item`, not the goal, with
      `rest` the heap left: the vertex is skipped when its cost is over `maxCost`, and otherwise
      its forward neighbours are relaxed in index order. */
  function Expanded(eng: FreightEngine, w: real, goalPC: string, maxCost: ExtReal, s: ForwardState,
                    item: QueueItem, rest: seq<QueueItem>): (r: ForwardState)
    requires item.node in s.g
  {
    if !Fin(s.g[item.node]).Le(maxCost) then s.(heap := rest)
    else RelaxedAll(eng, goalPC, maxCost, item.node, ForwardNeighbors(eng.index, item.node, w), s.(heap := rest))
  }

  /** The body of the main loop once the popped vertex is not the goal: it is skipped when its
      cost is over `maxCost`, and otherwise its forward neighbours are relaxed. */
  method ExpandNext(eng: FreightEngine, ghost start: Node, w: real, goalPC: string, maxCost: ExtReal,
                    s0: ForwardState, item: QueueItem, rest: seq<QueueItem>)
    returns (s: ForwardState)
    requires Searching(eng.index, start, w, goalPC, maxCost, s0)
    requires item in s0.heap
    requires forall y :: y in s0.heap ==> y in rest || y == item
    requires forall y :: y in rest ==> y in s0.heap
    requires item.node != PC(goalPC)
    requires CountersOk(s0.heap, s0.counter)
    ensures Searching(eng.index, start, w, goalPC, maxCost, s)
    ensures CountersOk(s.heap, s.counter)
    ensures Lowered(s0.g, s.g)
    ensures item.node in s0.g && s == Expanded(eng, w, goalPC, maxCost, s0, item, rest)
  {
    var current := item.node;
    PopKeeps(s0.heap, item, rest, s0.g.Keys, PC(goalPC));
    CountersPop(s0.heap, s0.counter, rest);
    s := s0.(heap := rest);
    if !Fin(s.g[current]).Le(maxCost) {
      PendingAfterExpand(eng.index, w, maxCost, s0.g, s.g, HeapNodes(s0.heap), HeapNodes(rest),
                         HeapNodes(rest), current);
      return;
    }
    var ns := GetForwardNeighbors(eng.index, current, w);
    s := RelaxNeighbors(eng, start, w, goalPC, maxCost, current, ns, s);
    PendingAfterExpand(eng.index, w, maxCost, s0.g, s.g, HeapNodes(s0.heap), HeapNodes(rest),
                       HeapNodes(s.heap), current);
  }

  /** How the main loop ends: the goal popped, the heap empty, or the step budget spent. */
  datatype SearchEnd = GoalPopped | QueueEmptied | OutOfSteps

  /** The state after an iteration that pops a vertex other than the destination. (A popped
      vertex without a cost cannot occur in a search, where every queued vertex is costed; the
      state is then left as it is.) */
  function NextState(eng: FreightEngine, w: real, goalPC: string, maxCost: ExtReal, s: ForwardState): ForwardState {
    if s.heap == [] || Popped(s.heap).node !in s.g then s
    else Expanded(eng, w, goalPC, maxCost, s, Popped(s.heap), Rest(s.heap))
  }

  /** `NextState` for one engine, weight, destination and cost bound. */
  function Next(eng: FreightEngine, w: real, goalPC: string, maxCost: ExtReal): ForwardState -> ForwardState {
    s => NextState(eng, w, goalPC, maxCost, s)
  }

  /** The main loop run from `s` for at most `budget` iterations, `next` giving the state after
      an iteration that does not pop the destination: the state it stops in and how it stops. */
  function RunWith(next: ForwardState -> ForwardState, goalPC: string, budget: nat, s: ForwardState)
    : (r: (ForwardState, SearchEnd))
    ensures r.1 == QueueEmptied ==> r.0.heap == []
    ensures r.1 == OutOfSteps ==> r.0.heap != []
    decreases budget
  {
    if s.heap == [] then (s, QueueEmptied)
    else if budget == 0 then (s, OutOfSteps)
    else if Popped(s.heap).node == PC(goalPC) then (s.(heap := Rest(s.heap)), GoalPopped)
    else RunWith(next, goalPC, budget - 1, next(s))
  }

  /** The main loop of `find_mltihop_path` run from `s` for at most `budget` iterations. */
  function Run(eng: FreightEngine, w: real, goalPC: string, maxCost: ExtReal, budget: nat, s: ForwardState)
    : (r: (ForwardState, SearchEnd))
    ensures r.1 == OutOfSteps ==> r.0.heap != []
  {
    RunWith(Next(eng, w, goalPC, maxCost), goalPC, budget, s)
  }

  /** One iteration of `Run` that pops a costed vertex other than the destination and expands it
      into `s'`. */
  lemma RunExpands(eng: FreightEngine, w: real, goalPC: string, maxCost: ExtReal, budget: nat,
                   remaining: nat, s: ForwardState, s': ForwardState)
    requires s.heap != [] && budget == remaining + 1
    requires Popped(s.heap).node != PC(goalPC) && Popped(s.heap).node in s.g
    requires s' == Expanded(eng, w, goalPC, maxCost, s, Popped(s.heap), Rest(s.heap))
    ensures Run(eng, w, goalPC, maxCost, budget, s) == Run(eng, w, goalPC, maxCost, remaining, s')
  {
  }

  /** A run that stops within `budget` iterations, on the destination or an empty heap, stops
      in the same state and the same way under any larger budget. */
  lemma {:induction false} RunSettles(next: ForwardState -> ForwardState, goalPC: string, budget: nat, more: nat,
                                      s: ForwardState)
    requires budget <= more && RunWith(next, goalPC, budget, s).1 != OutOfSteps
    ensures RunWith(next, goalPC, more, s) == RunWith(next, goalPC, budget, s)
    decreases budget
  {
    if s.heap != [] && Popped(s.heap).node != PC(goalPC) {
      RunSettles(next, goalPC, budget - 1, more - 1, next(s));
    }
  }

  /** Budgets add up: running for `a` iterations and then, from where that stopped on its
      budget, for `b` more, is running for `a + b`. */
  lemma {:induction false} RunSplit(next: ForwardState -> ForwardState, goalPC: string, a: nat, b: nat,
                                    s: ForwardState)
    requires RunWith(next, goalPC, a, s).1 == OutOfSteps
    ensures RunWith(next, goalPC, a + b, s) == RunWith(next, goalPC, b, RunWith(next, goalPC, a, s).0)
    decreases a
  {
    if a > 0 {
      RunSplit(next, goalPC, a - 1, b, next(s));
    }
  }

  /** One iteration of the main loop with budget left: pops the least entry and stops when it
      is the destination postcode, and otherwise expands it; either way as `Run` does. */
  method Iterate(eng: FreightEngine, ghost start: Node, w: real, goalPC: string, maxCost: ExtReal,
                 left: nat, s0: ForwardState, ghost target: (ForwardState, SearchEnd))
    returns (s: ForwardState, popped: bool, remaining: nat)
    requires Searching(eng.index, start, w, goalPC, maxCost, s0)
    requires CountersOk(s0.heap, s0.counter)
    requires s0.heap != [] && left > 0
    requires Run(eng, w, goalPC, maxCost, left, s0) == target
    ensures CountersOk(s.heap, s.counter)
    ensures Lowered(s0.g, s.g)
    ensures popped ==>
      && SearchOk(eng.index, start, w, maxCost, s) && PC(goalPC) in s.g
      && s.g == s0.g && s.parent == s0.parent && s.edge == s0.edge
      && target == (s, GoalPopped)
    ensures !popped ==>
      && Searching(eng.index, start, w, goalPC, maxCost, s)
      && remaining == left - 1 && Run(eng, w, goalPC, maxCost, remaining, s) == target
    ensures |s0.heap| == 1 && s0.heap[0].node == PC(goalPC) ==> popped
  {
    var item, rest := PopMin(s0.heap);
    assert item == Popped(s0.heap) && rest == Rest(s0.heap);
    if item.node.PC? && item.node.code == goalPC {
      PopKeeps(s0.heap, item, rest, s0.g.Keys, PC(goalPC));
      CountersPop(s0.heap, s0.counter, rest);
      return s0.(heap := rest), true, 0;
    }
    s := ExpandNext(eng, start, w, goalPC, maxCost, s0, item, rest);
    popped, remaining := false, left - 1;
    RunExpands(eng, w, goalPC, maxCost, left, remaining, s0, s);
  }

  /** The main loop of `find_mltihop_path`, for at most `budget` iterations: pops the least
      entry, stops when it is the destination postcode, and otherwise expands it. When the heap
      runs dry, every costed vertex is done and the goal was never costed. A search whose only
      entry is the goal stops at once. */
  method SearchLoop(eng: FreightEngine, ghost start: Node, w: real, goalPC: string, maxCost: ExtReal,
                    budget: nat, s0: ForwardState)
    returns (s: ForwardState, end: SearchEnd)
    requires Searching(eng.index, start, w, goalPC, maxCost, s0)
    requires CountersOk(s0.heap, s0.counter)
    ensures SearchOk(eng.index, start, w, maxCost, s)
    ensures CountersOk(s.heap, s.counter)
    ensures Lowered(s0.g, s.g)
    ensures end == GoalPopped ==> PC(goalPC) in s.g
    ensures end == QueueEmptied ==> Pending(eng.index, w, maxCost, s.g, {}) && PC(goalPC) !in s.g
    ensures budget > 0 && |s0.heap| == 1 && s0.heap[0].node == PC(goalPC) ==>
      end == GoalPopped && s.g == s0.g && s.parent == s0.parent && s.edge == s0.edge
    ensures end == OutOfSteps ==> s.heap != []
    ensures budget == 0 && s0.heap != [] ==> end == OutOfSteps && s == s0
    ensures (s, end) == Run(eng, w, goalPC, maxCost, budget, s0)
  {
    s := s0;
    var left: nat := budget;
    ghost var target := Run(eng, w, goalPC, maxCost, budget, s0);
    while s.heap != []
      invariant Searching(eng.index, start, w, goalPC, maxCost, s)
      invariant Run(eng, w, goalPC, maxCost, left, s) == target
      invariant CountersOk(s.heap, s.counter)
      invariant Lowered(s0.g, s.g)
      invariant left <= budget && (left == budget ==> s == s0)
      invariant budget > 0 && |s0.heap| == 1 && s0.heap[0].node == PC(goalPC) ==> left == budget
      decreases left
    {
      if left == 0 {
        return s, OutOfSteps;
      }
      var next, popped, remaining := Iterate(eng, start, w, goalPC, maxCost, left, s, target);
      if popped {
        return next, GoalPopped;
      }
      s, left := next, remaining;
    }
    assert HeapNodes(s.heap) == {};
    return s, QueueEmptied;
  }

  // ---------------------------------------------------------------------------------------
  // Walks

  /** Where a walk of forward steps from `start` ends. */
  function WalkEnd(start: Node, steps: seq<Step>): Node {
    if steps == [] then start else steps[|steps| - 1].to
  }

  /** The summed cost of a walk. */
  function WalkCost(steps: seq<Step>): real {
    if steps == [] then 0.0 else WalkCost(steps[..|steps| - 1]) + steps[|steps| - 1].cost
  }

  /** A walk from `start` that the search may follow: each step is one that
      `_get_forward_neighbors` lists at the end of the walk before it, and neither the walk nor
      any of its prefixes costs more than `maxCost`. */
  ghost predicate Walk(idx: GraphIndex, w: real, start: Node, steps: seq<Step>, maxCost: ExtReal) {
    && Fin(WalkCost(steps)).Le(maxCost)
    && (steps != [] ==>
          var init := steps[..|steps| - 1];
          Walk(idx, w, start, init, maxCost) && steps[|steps| - 1] in ForwardNeighbors(idx, WalkEnd(start, init), w))
  }

  /** With every costed vertex done, every walk from the start within `maxCost` ends at a costed
      vertex whose cost is at most the walk's. */
  lemma {:induction false} WalksStayCosted(idx: GraphIndex, w: real, start: Node, g: map<Node, real>,
                                           maxCost: ExtReal, steps: seq<Step>)
    requires Pending(idx, w, maxCost, g, {})
    requires start in g && g[start] <= 0.0
    requires Walk(idx, w, start, steps, maxCost)
    ensures WalkEnd(start, steps) in g && g[WalkEnd(start, steps)] <= WalkCost(steps)
    decreases |steps|
  {
    if steps != [] {
      var init := steps[..|steps| - 1];
      var e := steps[|steps| - 1];
      var u := WalkEnd(start, init);
      WalksStayCosted(idx, w, start, g, maxCost, init);
      assert PendingAt(idx, w, maxCost, g, {}, u);
      assert Fin(g[u]).Le(maxCost);
      assert Reached(g, e, g[u], maxCost);
    }
  }

  /** When the heap runs dry without the goal costed, no walk from the start within `maxCost`
      reaches the destination postcode. */
  lemma NoWalkToGoal(idx: GraphIndex, w: real, start: Node, goal: Node, g: map<Node, real>, maxCost: ExtReal)
    requires Pending(idx, w, maxCost, g, {})
    requires start in g && g[start] <= 0.0 && goal !in g
    ensures forall steps :: Walk(idx, w, start, steps, maxCost) ==> WalkEnd(start, steps) != goal
  {
    forall steps | Walk(idx, w, start, steps, maxCost) ensures WalkEnd(start, steps) != goal {
      WalksStayCosted(idx, w, start, g, maxCost, steps);
    }
  }
}
