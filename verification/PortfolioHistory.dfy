/** Rebuilding the hourly portfolio curve from the ledger, the logs and the static assets. */
module PortfolioHistory {
  import opened Fixed
  import opened Wrappers
  import opened Trades
  import opened Lots
  import opened Projection
  import opened HoldingState
  import opened HourGrid
  import opened CashHistory

  // ---- the market data of one security ----

  datatype Spot = Spot(price: Ratio, currency: Option<Currency>)

  /** What the market data client returned for a security: hourly points, their currency, and the
      latest quote; anything it could not fetch is absent. */
  datatype Feed = Feed(points: seq<Point>, currency: Option<Currency>, quote: Option<Spot>)

  const NO_FEED := Feed([], None, None)

  /** The price of the latest transaction that has one. */
  function LastPrice(sorted: seq<Transaction>): int {
    if sorted == [] then 0
    else
      var price := PositivePrice(sorted[|sorted| - 1].price);
      if price.Some? then price.value else LastPrice(sorted[..|sorted| - 1])
  }

  function FallbackPrice(sorted: seq<Transaction>, feed: Feed): Ratio {
    if (feed.points == [] || feed.currency.None?) && feed.quote.Some? && feed.quote.value.price.n > 0
    then feed.quote.value.price else Fraction(LastPrice(sorted), 1)
  }

  function PricingCurrency(sorted: seq<Transaction>, feed: Feed): Currency
    requires sorted != []
  {
    if feed.currency.Some? then feed.currency.value
    else if feed.quote.Some? && feed.quote.value.currency.Some? then feed.quote.value.currency.value
    else sorted[|sorted| - 1].currency
  }

  // ---- the direct definition of a holding's value ----

  /** The state of a holding at an hour, projected from scratch from what had happened by then. */
  function StateAt(log: seq<Transaction>, hour: int): Result<seq<Lot>, Rejection> {
    Replay(Sort(UpTo(log, hour)))
  }

  function ValueOf(lots: seq<Lot>, price: int, rate: int): int {
    if Quantity(lots) <= EPSILON || price <= 0 then 0
    else RoundDiv(Quantity(lots) * price * rate, SCALE * SCALE)
  }

  ghost function StartPrice(log: seq<Transaction>, feed: Feed): int {
    var fallback := FallbackPrice(Sort(log), feed);
    if exists p :: IsDefault(feed.points, fallback, p)
    then var p :| IsDefault(feed.points, fallback, p); p else 0
  }

  lemma DefaultIsUnique(points: seq<Point>, fallback: Ratio, p: int, q: int)
    requires IsDefault(points, fallback, p) && IsDefault(points, fallback, q)
    ensures p == q
  {
  }

  /** Quantity at the hour, times the filled price, times the rate, rounded once. */
  ghost function HoldingAt(log: seq<Transaction>, feed: Feed, rates: Rates, first: int, hour: int): int {
    match StateAt(log, hour)
    case Err(_) => 0
    case Ok(lots) =>
      if log == [] then 0
      else ValueOf(lots, FillAt(feed.points, StartPrice(log, feed), first, hour),
                   RateToCny(rates, PricingCurrency(SortedNonEmpty(log), feed)))
  }

  function SortedNonEmpty(log: seq<Transaction>): (sorted: seq<Transaction>)
    requires log != []
    ensures sorted == Sort(log) && sorted != []
  {
    SortSorts(log);
    assert log[0] in multiset(Sort(log));
    Sort(log)
  }

  /** Incremental replay refines projection: after the transactions that have begun by the hour, the
      mutated state is the from-scratch projection of exactly those. */
  lemma PrefixIsState(log: seq<Transaction>, hour: int, next: nat)
    requires next <= |Sort(log)|
    requires forall i :: 0 <= i < next ==> DateStart(Sort(log)[i].tradedOn) <= hour
    requires next < |Sort(log)| ==> DateStart(Sort(log)[next].tradedOn) > hour
    ensures Sort(UpTo(log, hour)) == Sort(log)[..next]
    ensures StateAt(log, hour) == Replay(Sort(log)[..next])
  {
    var sorted := Sort(log);
    SortSorts(log);
    SortUpTo(log, hour);
    SortedUpToIsPrefix(sorted, hour);
    var n := |UpTo(sorted, hour)|;
    assert n == next;
  }

  lemma ReplayOneMore(sorted: seq<Transaction>, next: nat)
    requires next < |sorted| && Replay(sorted[..next]).Ok?
    ensures Replay(sorted[..next + 1]) == Apply(Replay(sorted[..next]).value, sorted[next])
  {
    assert sorted[..next + 1][..next] == sorted[..next];
  }

  /** Applies every transaction that has begun by the hour. */
  method AdvanceState(state: ProjectedState, sorted: seq<Transaction>, hour: int, from: nat)
    returns (accepted: bool, next: nat)
    requires from <= |sorted| && Replay(sorted[..from]) == Ok(state.lots)
    requires forall i :: 0 <= i < from ==> DateStart(sorted[i].tradedOn) <= hour
    modifies state
    ensures next <= |sorted|
    ensures forall i :: 0 <= i < next ==> DateStart(sorted[i].tradedOn) <= hour
    ensures accepted ==> Replay(sorted[..next]) == Ok(state.lots)
    ensures accepted ==> next < |sorted| ==> DateStart(sorted[next].tradedOn) > hour
    ensures !accepted ==> Replay(sorted[..next]).Err?
  {
    next := from;
    while next < |sorted| && DateStart(sorted[next].tradedOn) <= hour
      invariant from <= next <= |sorted| && Replay(sorted[..next]) == Ok(state.lots)
      invariant forall i :: 0 <= i < next ==> DateStart(sorted[i].tradedOn) <= hour
    {
      ReplayOneMore(sorted, next);
      var ok := state.ApplyTransaction(sorted[next]);
      next := next + 1;
      if !ok {
        return false, next;
      }
    }
    return true, next;
  }

  /** A rejection met on the way is a rejection at the last hour. */
  lemma RejectedByTheEnd(log: seq<Transaction>, last: int, next: nat)
    requires next <= |Sort(log)| && Replay(Sort(log)[..next]).Err?
    requires forall i :: 0 <= i < next ==> DateStart(Sort(log)[i].tradedOn) <= last
    ensures StateAt(log, last).Err?
  {
    var sorted := Sort(log);
    SortSorts(log);
    SortUpTo(log, last);
    SortedUpToIsPrefix(sorted, last);
    var n := |UpTo(sorted, last)|;
    assert next <= n;
    if StateAt(log, last).Ok? {
      PrefixAccepted(sorted[..n], next);
      assert sorted[..n][..next] == sorted[..next];
    }
  }

  /** The replay pointer has passed transactions begun by the hour only, and the state is their replay. */
  ghost predicate Replayed(sorted: seq<Transaction>, pointer: nat, lots: seq<Lot>, hour: int) {
    && pointer <= |sorted| && Replay(sorted[..pointer]) == Ok(lots)
    && forall k :: 0 <= k < pointer ==> DateStart(sorted[k].tradedOn) <= hour
  }

  lemma NothingReplayed(sorted: seq<Transaction>, hour: int)
    ensures Replayed(sorted, 0, [], hour)
  {
    assert sorted[..0] == [];
  }

  /** Moves one security's state to an hour; a rejection on the way is final. */
  method StepState(state: ProjectedState, ghost log: seq<Transaction>, sorted: seq<Transaction>, hour: int,
                   ghost last: int, from: nat)
    returns (accepted: bool, pointer: nat)
    requires sorted == Sort(log) && hour <= last && Replayed(sorted, from, state.lots, hour)
    modifies state
    ensures accepted ==> Replayed(sorted, pointer, state.lots, hour + 1) && StateAt(log, hour) == Ok(state.lots)
    ensures !accepted ==> StateAt(log, last).Err?
  {
    accepted, pointer := AdvanceState(state, sorted, hour, from);
    if accepted {
      PrefixIsState(log, hour, pointer);
    } else {
      RejectedByTheEnd(log, last, pointer);
    }
  }

  /** The total of every hour before a bound carries the security's value. */
  ghost predicate Carries(next: map<int, int>, totals: map<int, int>, log: seq<Transaction>, feed: Feed, rates: Rates,
                          first: int, last: int, bound: int)
  {
    && (forall h :: h in next <==> first <= h <= last)
    && forall h :: first <= h <= last && h in totals ==>
         next[h] == totals[h] + if h < bound then HoldingAt(log, feed, rates, first, h) else 0
  }

  /** Adds one security's value to the total of every hour. */
  method SweepHolding(hours: seq<int>, ghost first: int, ghost last: int, log: seq<Transaction>, feed: Feed,
                      rates: Rates, totals: map<int, int>)
    returns (accepted: bool, next: map<int, int>)
    requires hours == HourRange(first, last) && first <= last && log != []
    requires forall h :: h in totals <==> first <= h <= last
    ensures accepted <==> StateAt(log, last).Ok?
    ensures accepted ==> forall h :: h in next <==> first <= h <= last
    ensures accepted ==> forall h :: first <= h <= last ==>
              next[h] == totals[h] + HoldingAt(log, feed, rates, first, h)
  {
    var sorted := SortedNonEmpty(log);
    var rate := RateToCny(rates, PricingCurrency(sorted, feed));
    var filled := FillHourlyPrices(hours, first, last, feed.points, FallbackPrice(sorted, feed));
    ghost var start :| IsDefault(feed.points, FallbackPrice(sorted, feed), start)
      && FilledFrom(filled, start, feed.points, first, last);
    DefaultIsUnique(feed.points, FallbackPrice(sorted, feed), start, StartPrice(log, feed));
    accepted, next := SweepPriced(hours, first, last, log, sorted, feed, rates, filled, rate, totals);
  }

  method SweepPriced(hours: seq<int>, ghost first: int, ghost last: int, ghost log: seq<Transaction>,
                     sorted: seq<Transaction>, ghost feed: Feed, ghost rates: Rates,
                     filled: map<int, int>, rate: int, totals: map<int, int>)
    returns (accepted: bool, next: map<int, int>)
    requires hours == HourRange(first, last) && first <= last && log != [] && sorted == Sort(log)
    requires rate == RateToCny(rates, PricingCurrency(SortedNonEmpty(log), feed))
    requires FilledFrom(filled, StartPrice(log, feed), feed.points, first, last)
    requires forall h :: h in totals <==> first <= h <= last
    ensures accepted <==> StateAt(log, last).Ok?
    ensures accepted ==> Carries(next, totals, log, feed, rates, first, last, last + 1)
  {
    var state := new ProjectedState();
    var pointer: nat := 0;
    next := totals;
    NothingReplayed(sorted, first);
    for i := 0 to |hours|
      invariant fresh(state) && Replayed(sorted, pointer, state.lots, first + i)
      invariant i > 0 ==> StateAt(log, first + i - 1).Ok?
      invariant Carries(next, totals, log, feed, rates, first, last, first + i)
    {
      var hour := hours[i];
      var ok;
      ok, pointer, next := StepHolding(state, log, sorted, feed, rates, first, last, hour, pointer, filled[hour], rate,
                                       totals, next);
      if !ok {
        return false, next;
      }
    }
    return true, next;
  }

  /** Moves the state to an hour and adds the security's value to that hour. */
  method StepHolding(state: ProjectedState, ghost log: seq<Transaction>, sorted: seq<Transaction>, ghost feed: Feed,
                     ghost rates: Rates, ghost first: int, ghost last: int, hour: int, from: nat, price: int, rate: int,
                     ghost totals: map<int, int>, current: map<int, int>)
    returns (accepted: bool, pointer: nat, next: map<int, int>)
    requires log != [] && sorted == Sort(log) && first <= hour <= last && Replayed(sorted, from, state.lots, hour)
    requires rate == RateToCny(rates, PricingCurrency(SortedNonEmpty(log), feed))
    requires price == FillAt(feed.points, StartPrice(log, feed), first, hour)
    requires Carries(current, totals, log, feed, rates, first, last, hour)
    modifies state
    ensures accepted ==> Replayed(sorted, pointer, state.lots, hour + 1) && StateAt(log, hour).Ok?
    ensures accepted ==> Carries(next, totals, log, feed, rates, first, last, hour + 1)
    ensures !accepted ==> StateAt(log, last).Err?
  {
    accepted, pointer := StepState(state, log, sorted, hour, last, from);
    next := current;
    if accepted {
      CarriesOne(current, totals, log, feed, rates, first, last, hour);
      next := AddHour(current, hour, state.lots, price, rate);
    }
  }

  lemma CarriesOne(next: map<int, int>, totals: map<int, int>, log: seq<Transaction>, feed: Feed, rates: Rates,
                   first: int, last: int, hour: int)
    requires Carries(next, totals, log, feed, rates, first, last, hour) && first <= hour <= last
    ensures Carries(next[hour := next[hour] + HoldingAt(log, feed, rates, first, hour)],
                    totals, log, feed, rates, first, last, hour + 1)
  {
  }

  /** Adds a security's value to one hour, unless it is not held or has no price. */
  method AddHour(totals: map<int, int>, hour: int, lots: seq<Lot>, price: int, rate: int) returns (next: map<int, int>)
    requires hour in totals
    ensures next == totals[hour := totals[hour] + ValueOf(lots, price, rate)]
  {
    next := totals;
    var quantity := Quantity(lots);
    if quantity > EPSILON && price > 0 {
      next := next[hour := next[hour] + RoundDiv(quantity * price * rate, SCALE * SCALE)];
    }
  }
}
