/** What a holding's return is: the percentage by which its price differs from the mean cost of the units it holds. */
module ReturnResults {
  import opened Fixed
  import opened Wrappers
  import opened Trades
  import opened Lots
  import opened Projection
  import opened Bookkeeping
  import opened Runs
  import opened CashHistory
  import opened PortfolioHistory
  import opened PortfolioCurve
  import opened ReturnHistory
  import opened CurveResults

  /** The mean cost of a queue, to the nearest unit. */
  ghost predicate IsMeanCost(units: seq<Share>, cost: int) {
    units != [] && UnitsPriced(units) && IsNearest(UnitCosts(units), |units|, cost)
  }

  /** A queue with a positive mean cost and a positive basis in CNY contributes its return, in hundredths of a percent
      of that cost, weighted by the basis; any other queue contributes nothing. */
  ghost predicate IsPart(units: seq<Share>, price: int, rate: int, part: Option<Part>) {
    match part
    case Some(p) =>
      exists cost :: IsMeanCost(units, cost) && cost > 0
        && p.basis == cost * |units| * rate > 0 && IsNearest((price - cost) * 10_000, cost, p.pct)
    case None =>
      forall cost :: IsMeanCost(units, cost) && cost > 0 ==> cost * |units| * rate <= 0
  }

  lemma PositiveMean(sum: int, n: int, mean: int)
    requires n > 0 && mean > 0 && IsNearest(sum, n, mean)
    ensures sum > 0
  {
    PositiveMultiple(mean, n);
  }

  lemma MeanCostIsBasis(lots: seq<Lot>, cost: int)
    requires AboveEpsilon(lots) && cost > 0
    ensures IsMeanCost(Queue(lots), cost) <==> CostBasis(lots) == Some(cost)
  {
    if lots != [] {
      var units := Queue(lots);
      QueueLength(lots);
      CostBasisIsMean(lots);
      if IsMeanCost(units, cost) { PositiveMean(UnitCosts(units), |units|, cost); }
      if CostBasis(lots).Some? {
        NearestIsUnique(UnitCosts(units), |units|, cost);
        NearestIsUnique(UnitCosts(units), |units|, CostBasis(lots).value);
      }
    }
  }

  lemma PartIsPart(lots: seq<Lot>, price: int, rate: int)
    requires AboveEpsilon(lots)
    ensures IsPart(Queue(lots), price, rate, PartOf(lots, price, rate))
  {
    forall cost | cost > 0 ensures IsMeanCost(Queue(lots), cost) <==> CostBasis(lots) == Some(cost) {
      MeanCostIsBasis(lots, cost);
    }
    QueueLength(lots);
    if PartOf(lots, price, rate).Some? {
      RoundDivIsNearest((price - CostBasis(lots).value) * PERCENT, CostBasis(lots).value);
    }
  }

  /** The first trade of a security is not after any of its others. */
  ghost predicate FirstTraded(log: seq<Transaction>, key: Key, day: int) {
    && (exists t :: t in log && t.key == key && t.tradedOn == day)
    && forall t :: t in log && t.key == key ==> day <= t.tradedOn
  }

  /** What a security contributes to an hour: the return of the units its log has left by then, at the price of the hour
      on the grid that begins with its first trade. */
  ghost predicate Contributes(log: seq<Transaction>, feeds: map<Key, Feed>, rates: Rates, key: Key, day: int, hour: int,
                              part: Option<Part>)
  {
    exists begun, price, rate ::
      && BegunBy(log, key, hour, begun) && IsValued(log, feeds, rates, key, 24 * day - 8, hour, price, rate)
      && LeavesPart(begun, price, rate, part)
  }

  ghost predicate LeavesPart(begun: seq<Transaction>, price: int, rate: int, part: Option<Part>) {
    match Replay(begun)
    case Ok(lots) => IsPart(Queue(lots), price, rate, part)
    case Err(_) => part == None
  }

  lemma FirstTradeIsFirst(log: seq<Transaction>, key: Key, day: int)
    requires FirstTraded(log, key, day)
    ensures LogOf(log, key) != [] && FirstTrade(LogOf(log, key)) == 24 * day - 8
  {
    var t :| t in log && t.key == key && t.tradedOn == day;
    InLog(log, key, t);
    var own := LogOf(log, key);
    var all := SortedNonEmpty(own);
    SortSorts(own);
    assert t in multiset(all) && all[0] in multiset(own);
    InLog(log, key, all[0]);
    var i :| 0 <= i < |all| && all[i] == t;
    if i > 0 { SameDayOrder(all, 0, i); }
  }

  lemma ReplayLeavesPart(begun: seq<Transaction>, price: int, rate: int)
    requires Sorted(begun)
    ensures LeavesPart(begun, price, rate,
                       match Replay(begun) case Ok(lots) => PartOf(lots, price, rate) case Err(_) => None)
  {
    if Replay(begun).Ok? {
      SortedReplay(begun);
      PartIsPart(Replay(begun).value, price, rate);
    }
  }

  /** From its first trade on, a security contributes exactly that. */
  lemma PartIsContribution(log: seq<Transaction>, feeds: map<Key, Feed>, rates: Rates, key: Key, day: int, hour: int)
    requires FirstTraded(log, key, day) && 24 * day - 8 <= hour
    ensures Contributes(log, feeds, rates, key, day, hour, PartIn(log, feeds, rates, hour, key))
  {
    var own, feed := LogOf(log, key), FeedOf(feeds, key);
    FirstTradeIsFirst(log, key, day);
    SortIsAll(log, key);
    ValuedIs(log, feeds, rates, key, 24 * day - 8, hour);
    ReplayLeavesPart(Sort(UpTo(own, hour)), PriceAt(own, feed, hour), PricingRate(own, feed, rates));
    assert BegunBy(log, key, hour, Sort(UpTo(own, hour)));
  }
}
