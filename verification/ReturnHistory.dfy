/** Rebuilding the hourly returns: one series per holding and their basis-weighted total. */
module ReturnHistory {
  import opened Fixed
  import opened Wrappers
  import opened Trades
  import opened Lots
  import opened Projection
  import opened HoldingState
  import opened Bookkeeping
  import opened SetSums
  import opened HourGrid
  import opened CashHistory
  import opened PortfolioHistory
  import opened PortfolioCurve

  /** Returns are hundredths of a percent.  A basis is quantity times cost times rate, in units of
      1e-24; a return times a basis is quantized back to units of 1e-8 by dividing by 1e18. */
  const PERCENT: int := 10_000
  const WEIGHT: int := 1_000_000_000_000_000_000

  function ReturnPct(price: int, cost: int): int
    requires cost > 0
  {
    RoundDiv((price - cost) * PERCENT, cost)
  }

  datatype Part = Part(pct: int, basis: int)

  /** What a holding in some state contributes: nothing while it is empty, unpriced or worthless. */
  function PartOf(lots: seq<Lot>, price: int, rate: int): Option<Part> {
    var cost := CostBasis(lots);
    if Quantity(lots) <= EPSILON || cost.None? || cost.value <= 0 || cost.value * Quantity(lots) * rate <= 0 then None
    else Some(Part(ReturnPct(price, cost.value), cost.value * Quantity(lots) * rate))
  }

  function FirstTrade(log: seq<Transaction>): int
    requires log != []
  {
    DateStart(SortedNonEmpty(log)[0].tradedOn)
  }

  function PricingRate(log: seq<Transaction>, feed: Feed, rates: Rates): int
    requires log != []
  {
    RateToCny(rates, PricingCurrency(SortedNonEmpty(log), feed))
  }

  ghost function PriceAt(log: seq<Transaction>, feed: Feed, hour: int): int
    requires log != []
  {
    FillAt(feed.points, StartPrice(log, feed), FirstTrade(log), hour)
  }

  /** The direct definition of a holding's contribution at an hour. */
  ghost function PartAt(log: seq<Transaction>, feed: Feed, rates: Rates, hour: int): Option<Part> {
    if log == [] || StateAt(log, hour).Err? then None
    else PartOf(StateAt(log, hour).value, PriceAt(log, feed, hour), PricingRate(log, feed, rates))
  }

  lemma BeforeFirstTrade(log: seq<Transaction>, hour: int)
    requires log != [] && hour < FirstTrade(log)
    ensures StateAt(log, hour) == Ok([])
  {
    SortSorts(log);
    SortUpTo(log, hour);
    SortedUpToIsPrefix(Sort(log), hour);
  }

  // ---- one holding ----

  /** The contributions of the hours before a bound. */
  ghost predicate PartsBefore(parts: map<int, Part>, log: seq<Transaction>, feed: Feed, rates: Rates,
                              first: int, bound: int)
  {
    && (forall h :: h in parts <==> first <= h < bound && PartAt(log, feed, rates, h).Some?)
    && (forall h :: h in parts ==> parts[h] == PartAt(log, feed, rates, h).value)
  }

  /** Moves one holding's state to an hour and adds its contribution to that hour. */
  method StepReturn(state: ProjectedState, ghost log: seq<Transaction>, sorted: seq<Transaction>, ghost feed: Feed,
                    ghost rates: Rates, ghost first: int, ghost last: int, hour: int, from: nat, price: int, rate: int,
                    current: map<int, Part>)
    returns (accepted: bool, pointer: nat, parts: map<int, Part>)
    requires log != [] && sorted == Sort(log) && first <= hour <= last && Replayed(sorted, from, state.lots, hour)
    requires price == PriceAt(log, feed, hour) && rate == PricingRate(log, feed, rates)
    requires PartsBefore(current, log, feed, rates, first, hour)
    modifies state
    ensures accepted ==> Replayed(sorted, pointer, state.lots, hour + 1) && StateAt(log, hour).Ok?
    ensures accepted ==> PartsBefore(parts, log, feed, rates, first, hour + 1)
    ensures !accepted ==> StateAt(log, last).Err?
  {
    accepted, pointer := StepState(state, log, sorted, hour, last, from);
    parts := current;
    if accepted {
      var part := PartOf(state.lots, price, rate);
      if part.Some? {
        parts := parts[hour := part.value];
      }
    }
  }

  /** The contributions of one holding, hour by hour, from its first trade on. */
  method SweepReturns(last: int, log: seq<Transaction>, feed: Feed, rates: Rates)
    returns (accepted: bool, parts: map<int, Part>)
    requires log != []
    ensures accepted <==> StateAt(log, last).Ok?
    ensures accepted ==> forall h :: h in parts <==> h <= last && PartAt(log, feed, rates, h).Some?
    ensures accepted ==> forall h :: h in parts ==> parts[h] == PartAt(log, feed, rates, h).value
  {
    var first := FirstTrade(log);
    forall h | h < first ensures PartAt(log, feed, rates, h).None? { BeforeFirstTrade(log, h); }
    if first > last {
      BeforeFirstTrade(log, last);
      return true, map[];
    }
    accepted, parts := SweepFromFirst(first, last, log, feed, rates);
  }

  /** The hours and prices of one holding. */
  method PriceGrid(first: int, last: int, log: seq<Transaction>, feed: Feed)
    returns (hours: seq<int>, filled: map<int, int>)
    requires log != [] && first == FirstTrade(log)
    ensures hours == HourRange(first, last)
    ensures forall h :: first <= h <= last ==> h in filled && filled[h] == PriceAt(log, feed, h)
  {
    HourBoundaries(first, last);
    hours := BuildHourBuckets(first * HOUR, last * HOUR);
    var fallback := FallbackPrice(SortedNonEmpty(log), feed);
    filled := FillHourlyPrices(hours, first, last, feed.points, fallback);
    ghost var start :| IsDefault(feed.points, fallback, start) && FilledFrom(filled, start, feed.points, first, last);
    DefaultIsUnique(feed.points, fallback, start, StartPrice(log, feed));
  }

  method SweepFromFirst(first: int, last: int, log: seq<Transaction>, feed: Feed, rates: Rates)
    returns (accepted: bool, parts: map<int, Part>)
    requires log != [] && first == FirstTrade(log) <= last
    ensures accepted <==> StateAt(log, last).Ok?
    ensures accepted ==> forall h :: h in parts <==> first <= h <= last && PartAt(log, feed, rates, h).Some?
    ensures accepted ==> forall h :: h in parts ==> parts[h] == PartAt(log, feed, rates, h).value
  {
    var sorted := SortedNonEmpty(log);
    var hours, filled := PriceGrid(first, last, log, feed);
    accepted, parts := SweepGrid(hours, first, last, log, sorted, feed, rates, filled, PricingRate(log, feed, rates));
  }

  method SweepGrid(hours: seq<int>, ghost first: int, ghost last: int, ghost log: seq<Transaction>,
                   sorted: seq<Transaction>, ghost feed: Feed, ghost rates: Rates, filled: map<int, int>, rate: int)
    returns (accepted: bool, parts: map<int, Part>)
    requires hours == HourRange(first, last) && first <= last && log != [] && sorted == Sort(log)
    requires forall h :: first <= h <= last ==> h in filled && filled[h] == PriceAt(log, feed, h)
    requires rate == PricingRate(log, feed, rates)
    ensures accepted <==> StateAt(log, last).Ok?
    ensures accepted ==> PartsBefore(parts, log, feed, rates, first, last + 1)
  {
    var state := new ProjectedState();
    var pointer: nat := 0;
    parts := map[];
    NothingReplayed(sorted, first);
    for i := 0 to |hours|
      invariant fresh(state) && Replayed(sorted, pointer, state.lots, first + i)
      invariant i > 0 ==> StateAt(log, first + i - 1).Ok?
      invariant PartsBefore(parts, log, feed, rates, first, first + i)
    {
      var hour := hours[i];
      var ok;
      ok, pointer, parts := StepReturn(state, log, sorted, feed, rates, first, last, hour, pointer, filled[hour], rate,
                                       parts);
      if !ok {
        return false, parts;
      }
    }
    return true, parts;
  }

  // ---- the weighted total ----

  ghost function PartIn(log: seq<Transaction>, feeds: map<Key, Feed>, rates: Rates, hour: int, key: Key): Option<Part> {
    PartAt(LogOf(log, key), FeedOf(feeds, key), rates, hour)
  }

  ghost function WeightTerm(log: seq<Transaction>, feeds: map<Key, Feed>, rates: Rates, hour: int): Key -> int {
    key => var part := PartIn(log, feeds, rates, hour, key);
           if part.Some? then Weight(part.value) else 0
  }

  ghost function BasisTerm(log: seq<Transaction>, feeds: map<Key, Feed>, rates: Rates, hour: int): Key -> int {
    key => var part := PartIn(log, feeds, rates, hour, key); if part.Some? then part.value.basis else 0
  }

  /** The exact product, before it is quantized. */
  ghost function ProductTerm(log: seq<Transaction>, feeds: map<Key, Feed>, rates: Rates, hour: int): Key -> int {
    key => var part := PartIn(log, feeds, rates, hour, key);
           if part.Some? then part.value.pct * part.value.basis else 0
  }

  /** Some holding contributes to the hour. */
  ghost predicate HasPart(log: seq<Transaction>, feeds: map<Key, Feed>, rates: Rates, hour: int, keys: set<Key>) {
    exists k :: k in keys && PartIn(log, feeds, rates, hour, k).Some?
  }

  /** The two running sums of an hour; both maps have an hour as soon as one holding contributes. */
  ghost predicate SumsMeet(log: seq<Transaction>, feeds: map<Key, Feed>, rates: Rates, last: int,
                           keys: set<Key>, weighted: map<int, int>, basis: map<int, int>)
  {
    && weighted.Keys == basis.Keys
    && (forall h :: h in basis <==> h <= last && HasPart(log, feeds, rates, h, keys))
    && (forall h :: h in basis ==> basis[h] == SumOver(keys, BasisTerm(log, feeds, rates, h)))
    && (forall h :: h in basis ==> weighted[h] == SumOver(keys, WeightTerm(log, feeds, rates, h)))
  }

  lemma {:induction false} NoParts(log: seq<Transaction>, feeds: map<Key, Feed>, rates: Rates, hour: int,
                                   keys: set<Key>)
    requires forall k :: k in keys ==> PartIn(log, feeds, rates, hour, k).None?
    ensures SumOver(keys, BasisTerm(log, feeds, rates, hour)) == 0
    ensures SumOver(keys, WeightTerm(log, feeds, rates, hour)) == 0
  {
    SumOverSkips({}, keys, BasisTerm(log, feeds, rates, hour));
    SumOverSkips({}, keys, WeightTerm(log, feeds, rates, hour));
  }

  function Weight(part: Part): int { RoundDiv(part.pct * part.basis, WEIGHT) }

  function WeightIn(parts: map<int, Part>, h: int): int { if h in parts then Weight(parts[h]) else 0 }

  function BasisIn(parts: map<int, Part>, h: int): int { if h in parts then parts[h].basis else 0 }

  /** Adds the contributions of one holding to the two sums. */
  method AddParts(parts: map<int, Part>, weighted: map<int, int>, basis: map<int, int>)
    returns (heavier: map<int, int>, broader: map<int, int>)
    requires weighted.Keys == basis.Keys
    ensures heavier.Keys == broader.Keys == basis.Keys + parts.Keys
    ensures forall h :: h in broader ==> broader[h] == Delta(basis, h) + BasisIn(parts, h)
    ensures forall h :: h in heavier ==> heavier[h] == Delta(weighted, h) + WeightIn(parts, h)
  {
    heavier, broader := weighted, basis;
    var pending := parts.Keys;
    ghost var done: map<int, Part> := map[];
    while pending != {}
      invariant done.Keys + pending == parts.Keys && done.Keys !! pending
      invariant forall h :: h in done ==> done[h] == parts[h]
      invariant heavier.Keys == broader.Keys == basis.Keys + done.Keys
      invariant forall h :: h in broader ==> broader[h] == Delta(basis, h) + BasisIn(done, h)
      invariant forall h :: h in heavier ==> heavier[h] == Delta(weighted, h) + WeightIn(done, h)
      decreases pending
    {
      ghost var member := Member(pending);
      var h :| h in pending;
      heavier := heavier[h := Delta(heavier, h) + Weight(parts[h])];
      broader := broader[h := Delta(broader, h) + parts[h].basis];
      done, pending := done[h := parts[h]], pending - {h};
    }
    assert forall h :: h in done <==> h in parts;
  }

  lemma SumsAdvance(log: seq<Transaction>, feeds: map<Key, Feed>, rates: Rates, last: int,
                    keys: set<Key>, key: Key, parts: map<int, Part>,
                    weighted: map<int, int>, basis: map<int, int>, heavier: map<int, int>, broader: map<int, int>)
    requires SumsMeet(log, feeds, rates, last, keys, weighted, basis) && key !in keys
    requires forall h :: h in parts <==> h <= last && PartIn(log, feeds, rates, h, key).Some?
    requires forall h :: h in parts ==> parts[h] == PartIn(log, feeds, rates, h, key).value
    requires heavier.Keys == broader.Keys == basis.Keys + parts.Keys
    requires forall h :: h in broader ==> broader[h] == Delta(basis, h) + BasisIn(parts, h)
    requires forall h :: h in heavier ==> heavier[h] == Delta(weighted, h) + WeightIn(parts, h)
    ensures SumsMeet(log, feeds, rates, last, keys + {key}, heavier, broader)
  {
    forall h ensures h in broader <==> h <= last && HasPart(log, feeds, rates, h, keys + {key}) {
      assert h in basis <==> h <= last && HasPart(log, feeds, rates, h, keys);
    }
    forall h | h in broader
      ensures broader[h] == SumOver(keys + {key}, BasisTerm(log, feeds, rates, h))
      ensures heavier[h] == SumOver(keys + {key}, WeightTerm(log, feeds, rates, h))
    {
      SumAdvances(log, feeds, rates, h, keys, key, parts, weighted, basis);
    }
  }

  /** One more holding at one hour. */
  lemma SumAdvances(log: seq<Transaction>, feeds: map<Key, Feed>, rates: Rates, h: int, keys: set<Key>, key: Key,
                    parts: map<int, Part>, weighted: map<int, int>, basis: map<int, int>)
    requires key !in keys
    requires if h in parts then PartIn(log, feeds, rates, h, key) == Some(parts[h])
             else PartIn(log, feeds, rates, h, key).None?
    requires if h in basis then
               h in weighted && basis[h] == SumOver(keys, BasisTerm(log, feeds, rates, h))
               && weighted[h] == SumOver(keys, WeightTerm(log, feeds, rates, h))
             else h !in weighted && forall k :: k in keys ==> PartIn(log, feeds, rates, h, k).None?
    ensures SumOver(keys + {key}, BasisTerm(log, feeds, rates, h)) == Delta(basis, h) + BasisIn(parts, h)
    ensures SumOver(keys + {key}, WeightTerm(log, feeds, rates, h)) == Delta(weighted, h) + WeightIn(parts, h)
  {
    if h !in basis { NoParts(log, feeds, rates, h, keys); }
    SumOverAdds(keys, key, BasisTerm(log, feeds, rates, h));
    SumOverAdds(keys, key, WeightTerm(log, feeds, rates, h));
  }

  /** The stored total return of an hour. */
  function TotalReturn(weighted: int, basis: int): int
    requires basis > 0
  {
    RoundDiv(weighted * WEIGHT, basis)
  }

  ghost function Contributors(log: seq<Transaction>, feeds: map<Key, Feed>, rates: Rates, hour: int): set<Key> {
    ContributorsAmong(log, feeds, rates, hour, KeysIn(log))
  }

  ghost function ContributorsAmong(log: seq<Transaction>, feeds: map<Key, Feed>, rates: Rates, hour: int,
                                   keys: set<Key>)
    : set<Key>
  {
    set k | k in keys && PartIn(log, feeds, rates, hour, k).Some?
  }

  lemma {:induction false} BasisIsPositive(log: seq<Transaction>, feeds: map<Key, Feed>, rates: Rates, hour: int,
                                           keys: set<Key>, key: Key)
    requires key in keys && PartIn(log, feeds, rates, hour, key).Some?
    ensures SumOver(keys, BasisTerm(log, feeds, rates, hour)) > 0
    decreases keys
  {
    var f := BasisTerm(log, feeds, rates, hour);
    SumOverTakes(keys, key, f);
    NonNegative(log, feeds, rates, hour, keys - {key});
  }

  lemma {:induction false} NonNegative(log: seq<Transaction>, feeds: map<Key, Feed>, rates: Rates, hour: int,
                                       keys: set<Key>)
    ensures SumOver(keys, BasisTerm(log, feeds, rates, hour)) >= 0
    decreases keys
  {
    if keys == {} {
    } else {
      var k := Member(keys);
      SumOverTakes(keys, k, BasisTerm(log, feeds, rates, hour));
      NonNegative(log, feeds, rates, hour, keys - {k});
    }
  }

  method SumReturns(last: int, log: seq<Transaction>, feeds: map<Key, Feed>, rates: Rates)
    returns (accepted: bool, weighted: map<int, int>, basis: map<int, int>)
    ensures accepted <==> forall k :: k in KeysIn(log) ==> StateAt(LogOf(log, k), last).Ok?
    ensures accepted ==> SumsMeet(log, feeds, rates, last, KeysIn(log), weighted, basis)
  {
    var groups := GroupByKey(log);
    weighted, basis := map[], map[];
    var pending := groups.Keys;
    ghost var done := {};
    while pending != {}
      invariant done + pending == KeysIn(log) && done !! pending
      invariant forall k :: k in done ==> StateAt(LogOf(log, k), last).Ok?
      invariant SumsMeet(log, feeds, rates, last, done, weighted, basis)
      decreases pending
    {
      ghost var member := Member(pending);
      var key :| key in pending;
      var ok, parts := SweepReturns(last, groups[key], FeedOf(feeds, key), rates);
      if !ok {
        return false, weighted, basis;
      }
      var heavier, broader := AddParts(parts, weighted, basis);
      SumsAdvance(log, feeds, rates, last, done, key, parts, weighted, basis, heavier, broader);
      weighted, basis := heavier, broader;
      done, pending := done + {key}, pending - {key};
    }
    assert done == KeysIn(log);
    return true, weighted, basis;
  }

  // ---- how far the stored total can be from the exact mean ----

  /** Weights carry the products up to half a unit for each of the n contributors. */
  predicate Slack(weighted: int, products: int, n: int) {
    -n * WEIGHT <= 2 * (weighted * WEIGHT - products) <= n * WEIGHT
  }

  lemma WeightSlack(part: Part)
    ensures Slack(Weight(part), part.pct * part.basis, 1)
  {
    RoundDivIsNearest(part.pct * part.basis, WEIGHT);
  }

  lemma SlackAdds(w1: int, p1: int, n1: int, w2: int, p2: int, n2: int)
    requires Slack(w1, p1, n1) && Slack(w2, p2, n2)
    ensures Slack(w1 + w2, p1 + p2, n1 + n2)
  {
  }

  lemma ProductSlack(log: seq<Transaction>, feeds: map<Key, Feed>, rates: Rates, hour: int, k: Key)
    ensures Slack(WeightTerm(log, feeds, rates, hour)(k), ProductTerm(log, feeds, rates, hour)(k),
                  if PartIn(log, feeds, rates, hour, k).Some? then 1 else 0)
  {
    var part := PartIn(log, feeds, rates, hour, k);
    if part.Some? { WeightSlack(part.value); }
  }

  lemma ContributorsTake(log: seq<Transaction>, feeds: map<Key, Feed>, rates: Rates, hour: int, keys: set<Key>, k: Key)
    requires k in keys
    ensures |ContributorsAmong(log, feeds, rates, hour, keys)| ==
              |ContributorsAmong(log, feeds, rates, hour, keys - {k})|
              + if PartIn(log, feeds, rates, hour, k).Some? then 1 else 0
  {
    var parts := ContributorsAmong(log, feeds, rates, hour, keys);
    var others := ContributorsAmong(log, feeds, rates, hour, keys - {k});
    assert parts == others + if PartIn(log, feeds, rates, hour, k).Some? then {k} else {};
    assert k !in others;
  }

  lemma {:induction false} QuantizedProducts(log: seq<Transaction>, feeds: map<Key, Feed>, rates: Rates, hour: int,
                                             keys: set<Key>)
    ensures Slack(SumOver(keys, WeightTerm(log, feeds, rates, hour)),
                  SumOver(keys, ProductTerm(log, feeds, rates, hour)),
                  |ContributorsAmong(log, feeds, rates, hour, keys)|)
    decreases keys
  {
    var w, p := WeightTerm(log, feeds, rates, hour), ProductTerm(log, feeds, rates, hour);
    if keys == {} {
      assert ContributorsAmong(log, feeds, rates, hour, keys) == {};
    } else {
      var k := Member(keys);
      var rest := keys - {k};
      QuantizedProducts(log, feeds, rates, hour, rest);
      SumOverTakes(keys, k, w);
      SumOverTakes(keys, k, p);
      ProductSlack(log, feeds, rates, hour, k);
      ContributorsTake(log, feeds, rates, hour, keys, k);
      SlackAdds(SumOver(rest, w), SumOver(rest, p), |ContributorsAmong(log, feeds, rates, hour, rest)|,
                w(k), p(k), if PartIn(log, feeds, rates, hour, k).Some? then 1 else 0);
    }
  }

  lemma MeanSlack(weighted: int, products: int, basis: int, n: int)
    requires basis > 0 && Slack(weighted, products, n)
    ensures NearMean(TotalReturn(weighted, basis), products, basis, n)
  {
    RoundDivIsNearest(weighted * WEIGHT, basis);
    var t := TotalReturn(weighted, basis) * basis;
    assert -basis <= 2 * (weighted * WEIGHT - t) <= basis;
  }

  /** The three sums of an hour over all holdings. */
  ghost function WeightedAt(log: seq<Transaction>, feeds: map<Key, Feed>, rates: Rates, hour: int): int {
    SumOver(KeysIn(log), WeightTerm(log, feeds, rates, hour))
  }

  ghost function BasisAt(log: seq<Transaction>, feeds: map<Key, Feed>, rates: Rates, hour: int): int {
    SumOver(KeysIn(log), BasisTerm(log, feeds, rates, hour))
  }

  ghost function ProductsAt(log: seq<Transaction>, feeds: map<Key, Feed>, rates: Rates, hour: int): int {
    SumOver(KeysIn(log), ProductTerm(log, feeds, rates, hour))
  }

  lemma BasisAtIsPositive(log: seq<Transaction>, feeds: map<Key, Feed>, rates: Rates, hour: int)
    requires Contributors(log, feeds, rates, hour) != {}
    ensures BasisAt(log, feeds, rates, hour) > 0
  {
    var k := Member(Contributors(log, feeds, rates, hour));
    BasisIsPositive(log, feeds, rates, hour, KeysIn(log), k);
  }

  /** How far a total can be from the mean products / basis of n contributors:
      |T - M| <= 1/2 + n * 1e18 / (2 * basis), all multiplied by 2 * basis. */
  predicate NearMean(total: int, products: int, basis: int, n: int) {
    2 * Abs(total * basis - products) <= basis + n * 1_000_000_000_000_000_000
  }

  /** The stored total differs from the exact basis-weighted mean of the contributors' returns by at
      most half a display unit (0.005) plus, for each contributor, half of 1e-8 over the total basis. */
  lemma TotalIsNearMean(log: seq<Transaction>, feeds: map<Key, Feed>, rates: Rates, hour: int)
    requires Contributors(log, feeds, rates, hour) != {}
    ensures BasisAt(log, feeds, rates, hour) > 0
    ensures NearMean(TotalReturn(WeightedAt(log, feeds, rates, hour), BasisAt(log, feeds, rates, hour)),
                     ProductsAt(log, feeds, rates, hour), BasisAt(log, feeds, rates, hour),
                     |Contributors(log, feeds, rates, hour)|)
  {
    BasisAtIsPositive(log, feeds, rates, hour);
    QuantizedProducts(log, feeds, rates, hour, KeysIn(log));
    MeanSlack(WeightedAt(log, feeds, rates, hour), ProductsAt(log, feeds, rates, hour),
              BasisAt(log, feeds, rates, hour), |Contributors(log, feeds, rates, hour)|);
  }

  /** The quantized quotient of the two sums, which is near the exact mean. */
  ghost predicate IsTotal(log: seq<Transaction>, feeds: map<Key, Feed>, rates: Rates, hour: int, total: int) {
    && BasisAt(log, feeds, rates, hour) > 0
    && total == TotalReturn(WeightedAt(log, feeds, rates, hour), BasisAt(log, feeds, rates, hour))
    && NearMean(total, ProductsAt(log, feeds, rates, hour), BasisAt(log, feeds, rates, hour),
                |Contributors(log, feeds, rates, hour)|)
  }

  /** Rebuilds the total series: one point for every hour some holding contributes to, near the exact
      mean.  Refused when some log does not replay up to the last hour. */
  method RebuildTotals(last: int, log: seq<Transaction>, feeds: map<Key, Feed>, rates: Rates)
    returns (accepted: bool, totals: map<int, int>)
    ensures accepted <==> forall k :: k in KeysIn(log) ==> StateAt(LogOf(log, k), last).Ok?
    ensures accepted ==> forall h :: h in totals <==> h <= last && Contributors(log, feeds, rates, h) != {}
    ensures accepted ==> forall h :: h in totals ==> IsTotal(log, feeds, rates, h, totals[h])
  {
    var ok, weighted, basis := SumReturns(last, log, feeds, rates);
    totals := map[];
    if !ok {
      return false, totals;
    }
    forall h
      ensures h in basis <==> h <= last && Contributors(log, feeds, rates, h) != {}
      ensures h in basis ==> basis[h] > 0
    {
      if h <= last && Contributors(log, feeds, rates, h) != {} {
        var k := Member(Contributors(log, feeds, rates, h));
      }
      if h in basis {
        var k :| k in KeysIn(log) && PartIn(log, feeds, rates, h, k).Some?;
        assert k in Contributors(log, feeds, rates, h);
        BasisAtIsPositive(log, feeds, rates, h);
      }
    }
    totals := map h | h in basis :: TotalReturn(weighted[h], basis[h]);
    forall h | h in totals ensures IsTotal(log, feeds, rates, h, totals[h]) {
      TotalIsNearMean(log, feeds, rates, h);
    }
    return true, totals;
  }
}
