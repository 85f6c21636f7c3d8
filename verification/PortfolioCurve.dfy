/** The whole rebuild: cash, holdings and static assets, hour by hour. */
module PortfolioCurve {
  import opened Fixed
  import opened Wrappers
  import opened Trades
  import opened Lots
  import opened Tables
  import opened Bookkeeping
  import opened SetSums
  import opened HourGrid
  import opened CashHistory
  import opened PortfolioHistory

  // ---- static assets ----

  /** A fixed or other asset, valued in CNY. */
  datatype Asset = Asset(value: int, startedOn: Option<int>, createdOn: Option<int>)

  datatype Liability = Liability(balance: int, currency: Currency, startedOn: Option<int>, createdOn: Option<int>)

  /** A value that counts from a day on. */
  datatype Static = Static(start: Option<int>, value: int)

  function StartDay(startedOn: Option<int>, createdOn: Option<int>): Option<int> {
    if startedOn.Some? then startedOn else createdOn
  }

  function AssetStatics(assets: seq<Asset>): seq<Static> {
    seq(|assets|, i requires 0 <= i < |assets| =>
      Static(StartDay(assets[i].startedOn, assets[i].createdOn), assets[i].value))
  }

  function LiabilityStatics(liabilities: seq<Liability>, rates: Rates): seq<Static> {
    seq(|liabilities|, i requires 0 <= i < |liabilities| =>
      Static(StartDay(liabilities[i].startedOn, liabilities[i].createdOn),
             -RoundDiv(liabilities[i].balance * RateToCny(rates, liabilities[i].currency), SCALE)))
  }

  /** Everything that has started by the hour. */
  function StaticAt(items: seq<Static>, hour: int): int {
    if items == [] then 0
    else
      var item := items[|items| - 1];
      StaticAt(items[..|items| - 1], hour)
      + (if item.start.Some? && DateStart(item.start.value) <= hour then item.value else 0)
  }

  /** Everything that starts in the hour. */
  function StartingIn(items: seq<Static>, hour: int): int {
    if items == [] then 0
    else
      var item := items[|items| - 1];
      StartingIn(items[..|items| - 1], hour)
      + (if item.start.Some? && DateStart(item.start.value) == hour then item.value else 0)
  }

  lemma {:induction false} StaticSteps(items: seq<Static>, hour: int)
    ensures StaticAt(items, hour) == StaticAt(items, hour - 1) + StartingIn(items, hour)
  {
    if items == [] {
    } else {
      StaticSteps(items[..|items| - 1], hour);
    }
  }

  predicate StartFrom(items: seq<Static>, first: int) {
    forall i :: 0 <= i < |items| ==> items[i].start.Some? ==> DateStart(items[i].start.value) >= first
  }

  lemma {:induction false} NothingBefore(items: seq<Static>, first: int)
    requires StartFrom(items, first)
    ensures StaticAt(items, first - 1) == 0
  {
    if items == [] {
    } else {
      NothingBefore(items[..|items| - 1], first);
    }
  }

  function Delta(deltas: map<int, int>, hour: int): int {
    if hour in deltas then deltas[hour] else 0
  }

  /** Puts every value into the hour it starts in, leaving out what starts after the last hour. */
  method CollectDeltas(items: seq<Static>, last: int) returns (deltas: map<int, int>)
    ensures forall h :: h <= last ==> Delta(deltas, h) == StartingIn(items, h)
  {
    deltas := map[];
    for i := 0 to |items|
      invariant forall h :: h <= last ==> Delta(deltas, h) == StartingIn(items[..i], h)
    {
      assert items[..i + 1][..i] == items[..i];
      var item := items[i];
      if item.start.Some? && item.value != 0 {
        var bucket := DateStart(item.start.value);
        if bucket <= last {
          deltas := deltas[bucket := Delta(deltas, bucket) + item.value];
        }
      }
    }
    assert items[..|items|] == items;
  }

  // ---- holdings ----

  function KeysIn(log: seq<Transaction>): set<Key> {
    set t | t in log :: t.key
  }

  function FeedOf(feeds: map<Key, Feed>, key: Key): Feed {
    if key in feeds then feeds[key] else NO_FEED
  }

  ghost function HoldingTerm(log: seq<Transaction>, feeds: map<Key, Feed>, rates: Rates, first: int, hour: int)
    : Key -> int
  {
    key => HoldingAt(LogOf(log, key), FeedOf(feeds, key), rates, first, hour)
  }

  ghost function HoldingsAt(log: seq<Transaction>, feeds: map<Key, Feed>, rates: Rates, first: int, hour: int): int {
    SumOver(KeysIn(log), HoldingTerm(log, feeds, rates, first, hour))
  }

  /** transactions_by_symbol */
  method GroupByKey(log: seq<Transaction>) returns (groups: map<Key, seq<Transaction>>)
    ensures groups.Keys == KeysIn(log)
    ensures forall k :: k in groups ==> groups[k] == LogOf(log, k) && groups[k] != []
  {
    groups := map[];
    for i := 0 to |log|
      invariant forall k :: k in groups <==> k in KeysIn(log[..i])
      invariant forall k :: k in groups ==> groups[k] == LogOf(log[..i], k) && groups[k] != []
      invariant forall k :: k !in groups ==> LogOf(log[..i], k) == []
    {
      var t := log[i];
      assert log[..i + 1] == log[..i] + [t];
      forall k ensures LogOf(log[..i + 1], k) == LogOf(log[..i], k) + (if t.key == k then [t] else []) {
        LogOfAppend(log[..i], t, k);
      }
      var sofar := if t.key in groups then groups[t.key] else [];
      groups := groups[t.key := sofar + [t]];
    }
    assert log[..|log|] == log;
  }

  /** Adds the values of all holdings; refused when some log does not replay up to the last hour. */
  method SweepHoldings(hours: seq<int>, ghost first: int, ghost last: int, log: seq<Transaction>,
                       feeds: map<Key, Feed>, rates: Rates, cash: map<int, int>)
    returns (accepted: bool, totals: map<int, int>)
    requires hours == HourRange(first, last) && first <= last
    requires forall h :: h in cash <==> first <= h <= last
    ensures accepted <==> forall k :: k in KeysIn(log) ==> StateAt(LogOf(log, k), last).Ok?
    ensures accepted ==> forall h :: h in totals <==> first <= h <= last
    ensures accepted ==> forall h :: first <= h <= last ==>
              totals[h] == cash[h] + HoldingsAt(log, feeds, rates, first, h)
  {
    var groups := GroupByKey(log);
    totals := cash;
    var pending := groups.Keys;
    ghost var done := {};
    while pending != {}
      invariant done + pending == KeysIn(log) && done !! pending
      invariant forall k :: k in done ==> StateAt(LogOf(log, k), last).Ok?
      invariant forall h :: h in totals <==> first <= h <= last
      invariant forall h :: first <= h <= last ==>
                  totals[h] == cash[h] + SumOver(done, HoldingTerm(log, feeds, rates, first, h))
      decreases pending
    {
      ghost var member := Member(pending);
      var key :| key in pending;
      var ok, next := SweepHolding(hours, first, last, groups[key], FeedOf(feeds, key), rates, totals);
      if !ok {
        return false, totals;
      }
      forall h | first <= h <= last
        ensures next[h] == cash[h] + SumOver(done + {key}, HoldingTerm(log, feeds, rates, first, h))
      {
        SumOverAdds(done, key, HoldingTerm(log, feeds, rates, first, h));
      }
      totals := next;
      done, pending := done + {key}, pending - {key};
    }
    assert done == KeysIn(log);
    return true, totals;
  }

  // ---- the curve ----

  datatype Row = Row(hour: int, total: int)

  /** What the rebuild reads: the rows of one user, the market data, and the hour it runs in. */
  datatype Source = Source(
    accounts: map<int, Currency>, entries: seq<Entry>, log: seq<Transaction>,
    assets: seq<Asset>, others: seq<Asset>, liabilities: seq<Liability>,
    feeds: map<Key, Feed>, rates: Rates, now: int)

  function Statics(src: Source): seq<Static> {
    AssetStatics(src.assets) + AssetStatics(src.others) + LiabilityStatics(src.liabilities, src.rates)
  }

  /** The days on which something begins. */
  function StartCandidates(src: Source): set<int> {
    (set e | e in src.entries :: e.happenedOn)
    + (set t | t in src.log :: t.tradedOn)
    + (set s | s in Statics(src) && s.start.Some? :: s.start.value)
  }

  /** The curve begins with the earliest of them, unless that is later than now. */
  function FirstHour(src: Source): int {
    if StartCandidates(src) == {} then src.now + 1 else DateStart(Least(StartCandidates(src)))
  }

  /** One point of a curve that begins with a given hour: cash, holdings and static assets. */
  ghost function PointFrom(src: Source, first: int, hour: int): Row {
    Row(hour, Display(
      CashAt(src.accounts, src.entries, src.rates, hour)
      + HoldingsAt(src.log, src.feeds, src.rates, first, hour)
      + StaticAt(Statics(src), hour)))
  }

  /** One point for each hour from the first until now. */
  ghost predicate PointByPoint(src: Source, first: int, rows: seq<Row>) {
    && |rows| == (if first <= src.now then src.now - first + 1 else 0)
    && forall i :: 0 <= i < |rows| ==> rows[i] == PointFrom(src, first, first + i)
  }

  /** The direct definition of the curve. */
  ghost predicate IsCurve(src: Source, rows: seq<Row>) { PointByPoint(src, FirstHour(src), rows) }

  /** Every log replays, as far as it has happened. */
  ghost predicate Replayable(src: Source) {
    forall k :: k in KeysIn(src.log) ==> StateAt(LogOf(src.log, k), src.now).Ok?
  }

  /** Each hour's total and static value, as shown. */
  predicate Displayed(rows: seq<Row>, hours: seq<int>, totals: map<int, int>, items: seq<Static>) {
    && |rows| == |hours|
    && (forall i :: 0 <= i < |rows| ==> hours[i] in totals)
    && forall i :: 0 <= i < |rows| ==>
         rows[i] == Row(hours[i], Display(totals[hours[i]] + StaticAt(items, hours[i])))
  }

  /** The final sweep: the running static total is added to every hour. */
  method SweepStatics(hours: seq<int>, ghost first: int, last: int, items: seq<Static>, totals: map<int, int>)
    returns (rows: seq<Row>)
    requires hours == HourRange(first, last)
    requires forall h :: h in totals <==> first <= h <= last
    requires StartFrom(items, first)
    ensures Displayed(rows, hours, totals, items)
  {
    var deltas := CollectDeltas(items, last);
    var running := 0;
    rows := [];
    NothingBefore(items, first);
    for i := 0 to |hours|
      invariant running == StaticAt(items, first + i - 1)
      invariant |rows| == i
      invariant forall k :: 0 <= k < i ==>
                  rows[k] == Row(hours[k], Display(totals[hours[k]] + StaticAt(items, hours[k])))
    {
      var hour := hours[i];
      StaticSteps(items, hour);
      running := running + Delta(deltas, hour);
      rows := rows + [Row(hour, Display(totals[hour] + running))];
    }
  }

  /** Cash and holdings at every hour of the curve. */
  ghost predicate TotalsMeet(src: Source, first: int, cash: map<int, int>, totals: map<int, int>) {
    && (forall h :: first <= h <= src.now ==>
          h in cash && cash[h] == CashAt(src.accounts, src.entries, src.rates, h))
    && (forall h :: h in totals <==> first <= h <= src.now)
    && (forall h :: first <= h <= src.now ==>
          totals[h] == cash[h] + HoldingsAt(src.log, src.feeds, src.rates, first, h))
  }

  method SweepTotals(src: Source, first: int, hours: seq<int>)
    returns (accepted: bool, ghost cash: map<int, int>, totals: map<int, int>)
    requires first == FirstHour(src) <= src.now && hours == HourRange(first, src.now)
    ensures accepted <==> Replayable(src)
    ensures accepted ==> TotalsMeet(src, first, cash, totals)
  {
    var swept := SweepCash(hours, first, src.now, src.accounts, src.entries, src.rates);
    cash := swept;
    accepted, totals := SweepHoldings(hours, first, src.now, src.log, src.feeds, src.rates, swept);
  }

  method Assemble(src: Source, first: int, hours: seq<int>, ghost cash: map<int, int>, totals: map<int, int>)
    returns (rows: seq<Row>)
    requires StartCandidates(src) != {} && first == FirstHour(src) && hours == HourRange(first, src.now)
    requires TotalsMeet(src, first, cash, totals)
    ensures IsCurve(src, rows)
  {
    StaticsStartLater(src);
    rows := SweepStatics(hours, first, src.now, Statics(src), totals);
    RowsMeet(src, first, hours, cash, totals, rows);
  }

  lemma RowsMeet(src: Source, first: int, hours: seq<int>, cash: map<int, int>, totals: map<int, int>, rows: seq<Row>)
    requires hours == HourRange(first, src.now) && TotalsMeet(src, first, cash, totals)
    requires Displayed(rows, hours, totals, Statics(src))
    ensures PointByPoint(src, first, rows)
  {
    forall i: nat | i < |rows| ensures rows[i] == PointFrom(src, first, first + i) {
      HourAt(first, src.now, i);
      RowMeets(src, first, hours, cash, totals, rows, i);
    }
  }

  lemma RowMeets(src: Source, first: int, hours: seq<int>, cash: map<int, int>, totals: map<int, int>,
                 rows: seq<Row>, i: nat)
    requires TotalsMeet(src, first, cash, totals) && Displayed(rows, hours, totals, Statics(src))
    requires i < |rows| && first <= hours[i] <= src.now
    ensures rows[i] == PointFrom(src, first, hours[i])
  {
    var h := hours[i];
    DisplayedAt(rows, hours, totals, Statics(src), i);
    assert totals[h] == cash[h] + HoldingsAt(src.log, src.feeds, src.rates, first, h);
  }

  lemma HourAt(first: int, last: int, i: nat)
    requires i < |HourRange(first, last)|
    ensures first <= HourRange(first, last)[i] == first + i <= last
  {
  }

  lemma DisplayedAt(rows: seq<Row>, hours: seq<int>, totals: map<int, int>, items: seq<Static>, i: nat)
    requires Displayed(rows, hours, totals, items) && i < |rows|
    ensures hours[i] in totals && rows[i] == Row(hours[i], Display(totals[hours[i]] + StaticAt(items, hours[i])))
  {
  }

  /** The rebuilt curve equals its direct definition at every hour: nothing is lost and nothing is
      counted twice.  It fails exactly when some log oversells. */
  method RebuildCurve(src: Source) returns (curve: Result<seq<Row>, Rejection>)
    ensures curve.Ok? ==> IsCurve(src, curve.value)
    ensures FirstHour(src) <= src.now ==> (curve.Ok? <==> Replayable(src))
    ensures FirstHour(src) > src.now ==> curve == Ok([])
  {
    var candidates := StartCandidates(src);
    if candidates == {} {
      return Ok([]);
    }
    var first := DateStart(Least(candidates));
    if first > src.now {
      return Ok([]);
    }
    HourBoundaries(first, src.now);
    var hours := BuildHourBuckets(first * HOUR, src.now * HOUR);
    var accepted, cash, totals := SweepTotals(src, first, hours);
    if !accepted {
      return Err(InsufficientQuantity);
    }
    var rows := Assemble(src, first, hours, cash, totals);
    return Ok(rows);
  }

  lemma StaticsStartLater(src: Source)
    requires StartCandidates(src) != {}
    ensures StartFrom(Statics(src), FirstHour(src))
  {
    var items := Statics(src);
    forall i | 0 <= i < |items| && items[i].start.Some?
      ensures DateStart(items[i].start.value) >= FirstHour(src)
    {
      assert items[i] in items;
      assert items[i].start.value in StartCandidates(src);
    }
  }

  lemma HourBoundaries(first: int, last: int)
    ensures HourOf(first * HOUR) == first && HourOf(last * HOUR) == last
  {
  }
}
