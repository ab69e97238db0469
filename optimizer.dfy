/** `RouteOptimizer` (engine.py): the high-level API over the bidirectional engine. The fallback
    path, the cheapest paths, the fastest paths, and a weighted ranking of cost, time and
    reliability. */
module Optimizer {
  import opened Common
  import opened DataModel
  import opened Index
  import opened SearchTree
  import opened Bidirectional
  import opened BidirectionalPaths
  import opened Sorting

  /** The optimizer holds only the engine it was built with. */
  datatype RouteOptimizer = RouteOptimizer(engine: Engine)

  /** `unoptimized`: the engine's fallback path, from origin to destination at infinite cost and
      time, with no hops. */
  function Unoptimized(opt: RouteOptimizer, shipment: Shipment): (p: MultiHopPath)
    ensures p.nodes == [PC(shipment.originPC), PC(shipment.destPC)] && p.segments == []
    ensures p.totalCost == PosInf && p.totalETD == PosInf && p.numHops == 0
  {
    DefaultPath(shipment)
  }

  /** `optimized_for_cost`: the engine's ten cheapest paths within `maxETD`, with no cost bound.
      The result lists paths sorted by cost, at least one and at most ten, the first ten of the
      engine's merged list `all` by cost. With no route priced below zero, two known postcodes
      always give paths; otherwise the engine diverges only where its searches meet at a
      postcode whose parent walk never ends. */
  method OptimizedForCost(opt: RouteOptimizer, shipment: Shipment, maxETD: ExtReal)
    returns (r: Outcome, ghost all: seq<MultiHopPath>)
    ensures shipment.originPC !in opt.engine.postcodes ==> r == UnknownOrigin
    ensures shipment.originPC in opt.engine.postcodes && shipment.destPC !in opt.engine.postcodes ==>
      r == UnknownDestination
    ensures (shipment.originPC in opt.engine.postcodes && shipment.destPC in opt.engine.postcodes
             && NonNegativePrices(opt.engine.index, shipment.weightKG)) ==> r.Found?
    ensures r.Diverges? ==> Diverged(opt.engine, shipment, PosInf, maxETD)
    ensures r.Found? ==>
      && MergedList(opt.engine, shipment, PosInf, maxETD, all)
      && r.paths == Take(SortBy(all, CostKey), 10)
      && SortedBy(r.paths, CostKey) && 1 <= |r.paths| <= 10
      && multiset(r.paths) <= multiset(all)
  {
    ghost var fwd, bwd, fe, be, meets;
    r, fwd, bwd, fe, be, meets, all := FindMultiHopPath(opt.engine, shipment, PosInf, maxETD, 5, 10);
    if r.Found? {
      FoundPathsRanked(all, 10);
    }
  }

  /** The sort key of `optimized_for_time`: total time. */
  function ETDKey(p: MultiHopPath): ExtReal { p.totalETD }

  /** `optimized_for_time`: the engine's ten cheapest paths within `maxCost`, then re-sorted by
      total time. The result holds the same paths as `cheapest`, the first ten of the engine's
      merged list `all` by cost, sorted by time, and paths of equal time keep their order by
      cost. The engine diverges only where its searches meet at a postcode whose parent walk
      never ends. */
  method OptimizedForTime(opt: RouteOptimizer, shipment: Shipment, maxCost: ExtReal)
    returns (r: Outcome, ghost all: seq<MultiHopPath>, ghost cheapest: seq<MultiHopPath>)
    ensures shipment.originPC !in opt.engine.postcodes ==> r == UnknownOrigin
    ensures shipment.originPC in opt.engine.postcodes && shipment.destPC !in opt.engine.postcodes ==>
      r == UnknownDestination
    ensures (shipment.originPC in opt.engine.postcodes && shipment.destPC in opt.engine.postcodes
             && NonNegativePrices(opt.engine.index, shipment.weightKG)) ==> r.Found?
    ensures r.Diverges? ==> Diverged(opt.engine, shipment, maxCost, PosInf)
    ensures r.Found? ==>
      && MergedList(opt.engine, shipment, maxCost, PosInf, all)
      && cheapest == Take(SortBy(all, CostKey), 10)
      && SortedBy(cheapest, CostKey) && 1 <= |cheapest| <= 10
      && SortedBy(r.paths, ETDKey)
      && multiset(r.paths) == multiset(cheapest)
      && forall t :: WithKey(r.paths, ETDKey, t) == WithKey(cheapest, ETDKey, t)
  {
    ghost var fwd, bwd, fe, be, meets;
    var found;
    found, fwd, bwd, fe, be, meets, all := FindMultiHopPath(opt.engine, shipment, maxCost, PosInf, 5, 10);
    cheapest := [];
    r := found;
    if found.Found? {
      FoundPathsRanked(all, 10);
      cheapest := found.paths;
      r := Found(SortBy(found.paths, ETDKey));
      SortByProperties(found.paths, ETDKey);
    }
  }

  // ---------------------------------------------------------------------------------------
  // optimize_multi_criteria

  /** `1.0 / (1.0 + x / scale)`: 0 for an infinite `x`, and a `ZeroDivisionError` (`None`) when
      `x` is exactly `-scale`. */
  function Inverse(x: ExtReal, scale: real): (r: Option<real>)
    requires scale > 0.0
    ensures r.None? <==> x == Fin(-scale)
    ensures x.Fin? && x.v >= 0.0 ==> r.Some? && 0.0 < r.value <= 1.0
    ensures x == PosInf ==> r == Some(0.0)
  {
    match x
    case PosInf => Some(0.0)
    case Fin(v) =>
      if 1.0 + v / scale == 0.0 then None
      else
        var r := 1.0 / (1.0 + v / scale);
        assert v >= 0.0 ==> 1.0 + v / scale >= 1.0 && r * (1.0 + v / scale) == 1.0;
        Some(r)
  }

  /** A path's weighted score: 0.4 of its inverse cost per 1000, 0.35 of its inverse time per
      24 hours, and 0.25 of its reliability. `None` when either division is by zero. */
  function Score(p: MultiHopPath): Option<real> {
    match (Inverse(p.totalCost, 1000.0), Inverse(p.totalETD, 24.0))
    case (Some(c), Some(t)) => Some(0.4 * c + 0.35 * t + 0.25 * p.reliabilityScore)
    case _ => None
  }

  /** A path with a finite or infinite non-negative cost and time. */
  predicate NonNegative(p: MultiHopPath) {
    (p.totalCost.Fin? ==> p.totalCost.v >= 0.0) && (p.totalETD.Fin? ==> p.totalETD.v >= 0.0)
  }

  /** With non-negative cost and time and a reliability in [0, 1], the score exists and lies in
      [0, 1]; it is positive when cost or time is finite, or reliability positive. */
  lemma ScoreBounds(p: MultiHopPath)
    requires NonNegative(p) && 0.0 <= p.reliabilityScore <= 1.0
    ensures Score(p).Some? && 0.0 <= Score(p).value <= 1.0
    ensures (p.totalCost.Fin? || p.totalETD.Fin? || p.reliabilityScore > 0.0) ==> Score(p).value > 0.0
  {
  }

  /** Of two paths equal in time and reliability, the cheaper one scores at least as high. */
  lemma CheaperScoresHigher(p: MultiHopPath, q: MultiHopPath)
    requires NonNegative(p) && NonNegative(q)
    requires p.totalETD == q.totalETD && p.reliabilityScore == q.reliabilityScore
    requires p.totalCost.Le(q.totalCost)
    ensures Score(p).Some? && Score(q).Some? && Score(p).value >= Score(q).value
  {
    if q.totalCost.Fin? {
      var a, b := p.totalCost.v, q.totalCost.v;
      InverseAntitone(a, b, 1000.0);
    }
  }

  /** Of two paths equal in cost and reliability, the faster one scores at least as high. */
  lemma FasterScoresHigher(p: MultiHopPath, q: MultiHopPath)
    requires NonNegative(p) && NonNegative(q)
    requires p.totalCost == q.totalCost && p.reliabilityScore == q.reliabilityScore
    requires p.totalETD.Le(q.totalETD)
    ensures Score(p).Some? && Score(q).Some? && Score(p).value >= Score(q).value
  {
    if q.totalETD.Fin? {
      var a, b := p.totalETD.v, q.totalETD.v;
      InverseAntitone(a, b, 24.0);
    }
  }

  /** `1 / (1 + x / scale)` does not increase as `x` grows from 0. */
  lemma InverseAntitone(a: real, b: real, scale: real)
    requires 0.0 <= a <= b && scale > 0.0
    ensures 1.0 / (1.0 + a / scale) >= 1.0 / (1.0 + b / scale)
  {
    var da, db := 1.0 + a / scale, 1.0 + b / scale;
    assert a / scale <= b / scale;
    assert 1.0 <= da <= db;
    var ra, rb := 1.0 / da, 1.0 / db;
    assert ra * da == 1.0 && rb * db == 1.0;
    assert rb * da <= rb * db;
  }

  /** The first loop of `optimize_multi_criteria`: sets each path's score in turn; `None` when a
      score divides by zero, and otherwise the same paths, each with its score and nothing else
      changed. */
  method ScorePaths(paths: seq<MultiHopPath>) returns (r: Option<seq<MultiHopPath>>)
    ensures r.Some? <==> forall i :: 0 <= i < |paths| ==> Score(paths[i]).Some?
    ensures r.Some? ==> |r.value| == |paths|
    ensures r.Some? ==>
      forall i :: 0 <= i < |paths| ==> r.value[i] == paths[i].(totScore := Score(paths[i]).value)
  {
    var scored: seq<MultiHopPath> := [];
    for i := 0 to |paths|
      invariant |scored| == i
      invariant forall j :: 0 <= j < i ==> Score(paths[j]).Some? && scored[j] == paths[j].(totScore := Score(paths[j]).value)
    {
      var path := paths[i];
      var costScore := Inverse(path.totalCost, 1000.0);
      if costScore.None? {
        return None;
      }
      var timeScore := Inverse(path.totalETD, 24.0);
      if timeScore.None? {
        return None;
      }
      scored := scored + [path.(totScore := 0.4 * costScore.value + 0.35 * timeScore.value + 0.25 * path.reliabilityScore)];
    }
    return Some(scored);
  }

  /** The sort of `optimize_multi_criteria`: by score, highest first; Python's `reverse=True`
      keeps equal keys in their order, as a stable sort on the negated score does. */
  function ScoreKey(p: MultiHopPath): ExtReal { Fin(-p.totScore) }

  /** The second loop of `optimize_multi_criteria`: ranks the paths 1, 2, 3, ... in list order,
      changing nothing else. */
  method AssignRanks(paths: seq<MultiHopPath>) returns (r: seq<MultiHopPath>)
    ensures |r| == |paths|
    ensures forall i :: 0 <= i < |paths| ==> r[i] == paths[i].(rank := i + 1)
  {
    r := [];
    for i := 0 to |paths|
      invariant |r| == i
      invariant forall j :: 0 <= j < i ==> r[j] == paths[j].(rank := j + 1)
    {
      r := r + [paths[i].(rank := i + 1)];
    }
  }

  /** How `optimize_multi_criteria` ends: the engine's failure, a score dividing by zero, or the
      ranked paths. */
  datatype Ranking = SearchFailed(outcome: Outcome) | ScoreDivisionByZero | Ranked(paths: seq<MultiHopPath>)

  /** `optimize_multi_criteria`: the engine's fifteen cheapest paths (`found`, the first fifteen
      of its merged list `all` by cost), each scored (`scored`), sorted by score highest first
      (`sorted`, stably), then ranked from 1. The engine diverges only where its searches meet
      at a postcode whose parent walk never ends. */
  method OptimizeMultiCriteria(opt: RouteOptimizer, shipment: Shipment)
    returns (r: Ranking, ghost all: seq<MultiHopPath>, ghost found: seq<MultiHopPath>,
             ghost scored: seq<MultiHopPath>, ghost sorted: seq<MultiHopPath>)
    ensures shipment.originPC !in opt.engine.postcodes ==> r == SearchFailed(UnknownOrigin)
    ensures shipment.originPC in opt.engine.postcodes && shipment.destPC !in opt.engine.postcodes ==>
      r == SearchFailed(UnknownDestination)
    ensures r.SearchFailed? ==> !r.outcome.Found?
    ensures r == SearchFailed(Diverges) ==> Diverged(opt.engine, shipment, PosInf, PosInf)
    ensures (shipment.originPC in opt.engine.postcodes && shipment.destPC in opt.engine.postcodes
             && NonNegativePrices(opt.engine.index, shipment.weightKG)) ==> !r.SearchFailed?
    ensures !r.SearchFailed? ==>
      MergedList(opt.engine, shipment, PosInf, PosInf, all) && found == Take(SortBy(all, CostKey), 15)
    ensures r.ScoreDivisionByZero? ==> exists i :: 0 <= i < |found| && Score(found[i]).None?
    ensures r.Ranked? ==>
      && SortedBy(found, CostKey) && 1 <= |found| <= 15
      && |scored| == |found|
      && (forall i :: 0 <= i < |found| ==>
            Score(found[i]).Some? && scored[i] == found[i].(totScore := Score(found[i]).value))
      && multiset(sorted) == multiset(scored)
      && SortedBy(sorted, ScoreKey)
      && (forall s :: WithKey(sorted, ScoreKey, s) == WithKey(scored, ScoreKey, s))
      && |r.paths| == |sorted|
      && (forall i :: 0 <= i < |sorted| ==> r.paths[i] == sorted[i].(rank := i + 1))
      && (forall i, j :: 0 <= i < j < |r.paths| ==> r.paths[i].totScore >= r.paths[j].totScore)
  {
    found, scored, sorted := [], [], [];
    ghost var fwd, bwd, fe, be, meets;
    var outcome;
    outcome, fwd, bwd, fe, be, meets, all := FindMultiHopPath(opt.engine, shipment, PosInf, PosInf, 5, 15);
    if !outcome.Found? {
      return SearchFailed(outcome), all, found, scored, sorted;
    }
    FoundPathsRanked(all, 15);
    found := outcome.paths;
    var withScores := ScorePaths(outcome.paths);
    if withScores.None? {
      return ScoreDivisionByZero, all, found, scored, sorted;
    }
    scored := withScores.value;
    var byScore := SortBy(withScores.value, ScoreKey);
    SortByProperties(withScores.value, ScoreKey);
    SortByLength(withScores.value, ScoreKey);
    sorted := byScore;
    var ranked := AssignRanks(byScore);
    RankedByScore(sorted, ranked);
    r := Ranked(ranked);
  }

  /** Ranking a list sorted by `ScoreKey` leaves the scores in non-increasing order. */
  lemma RankedByScore(sorted: seq<MultiHopPath>, ranked: seq<MultiHopPath>)
    requires SortedBy(sorted, ScoreKey) && |ranked| == |sorted|
    requires forall i :: 0 <= i < |sorted| ==> ranked[i] == sorted[i].(rank := i + 1)
    ensures forall i, j :: 0 <= i < j < |ranked| ==> ranked[i].totScore >= ranked[j].totScore
  {
    forall i, j | 0 <= i < j < |ranked| ensures ranked[i].totScore >= ranked[j].totScore {
      assert ScoreKey(sorted[i]).Le(ScoreKey(sorted[j]));
    }
  }

  /** After ranking, the ranks run 1, 2, ..., N without gaps or repeats. */
  lemma RanksAreConsecutive(paths: seq<MultiHopPath>, ranked: seq<MultiHopPath>)
    requires |ranked| == |paths|
    requires forall i :: 0 <= i < |paths| ==> ranked[i] == paths[i].(rank := i + 1)
    ensures forall i :: 0 <= i < |ranked| ==> 1 <= ranked[i].rank <= |ranked|
    ensures forall i, j :: 0 <= i < j < |ranked| ==> ranked[i].rank < ranked[j].rank
  {
    forall i, j | 0 <= i < j < |ranked| ensures ranked[i].rank < ranked[j].rank {
      assert ranked[i] == paths[i].(rank := i + 1) && ranked[j] == paths[j].(rank := j + 1);
    }
  }
}
