/** What a rebuilt point shows: the nearest cent of cash plus holdings plus assets less liabilities, each described by
    what it counts and at which price and rate. */
module CurveResults {
  import opened Fixed
  import opened Wrappers
  import opened Trades
  import opened Lots
  import opened Projection
  import opened Tables
  import opened Bookkeeping
  import opened Runs
  import opened SetSums
  import opened HourGrid
  import opened CashHistory
  import opened PortfolioHistory
  import opened PortfolioCurve

  /** The hour in which a day begins, in the fixed zone eight hours ahead. */
  predicate DayBegun(day: int, hour: int) { 24 * day - 8 <= hour }

  /** One for CNY, the rate that is given, or zero. */
  predicate IsRate(rates: Rates, c: Currency, rate: int) {
    if c == CNY then rate == 100_000_000 else if c in rates then rate == rates[c] else rate == 0
  }

  lemma RateIsRate(rates: Rates, c: Currency)
    ensures IsRate(rates, c, RateToCny(rates, c))
  {
  }

  // ---- static assets and liabilities ----

  /** It counts from its start day, or else the day it was made. */
  predicate Begun(startedOn: Option<int>, createdOn: Option<int>, hour: int) {
    match (startedOn, createdOn)
    case (Some(day), _) => DayBegun(day, hour)
    case (None, Some(day)) => DayBegun(day, hour)
    case (None, None) => false
  }

  /** The values of the assets begun by an hour. */
  function Owned(assets: seq<Asset>, hour: int): int {
    if assets == [] then 0
    else
      var asset := assets[|assets| - 1];
      Owned(assets[..|assets| - 1], hour) + if Begun(asset.startedOn, asset.createdOn, hour) then asset.value else 0
  }

  /** What each liability is worth in CNY. */
  ghost predicate Worths(liabilities: seq<Liability>, rates: Rates, worths: seq<int>) {
    |worths| == |liabilities| && forall i :: 0 <= i < |worths| ==> IsOwed(liabilities[i], rates, worths[i])
  }

  ghost predicate IsOwed(liability: Liability, rates: Rates, worth: int) {
    exists rate :: IsRate(rates, liability.currency, rate) && IsNearest(liability.balance * rate, 100_000_000, worth)
  }

  /** The worths of the liabilities begun by an hour. */
  function Owed(liabilities: seq<Liability>, worths: seq<int>, hour: int): int
    requires |worths| == |liabilities|
  {
    if liabilities == [] then 0
    else
      var n := |liabilities| - 1;
      Owed(liabilities[..n], worths[..n], hour)
      + if Begun(liabilities[n].startedOn, liabilities[n].createdOn, hour) then worths[n] else 0
  }

  lemma {:induction false} AssetsAreOwned(assets: seq<Asset>, hour: int)
    ensures StaticAt(AssetStatics(assets), hour) == Owned(assets, hour)
  {
    if assets == [] {
    } else {
      var n := |assets| - 1;
      AssetsAreOwned(assets[..n], hour);
      assert AssetStatics(assets)[..n] == AssetStatics(assets[..n]);
    }
  }

  lemma {:induction false} LiabilitiesAreOwed(liabilities: seq<Liability>, rates: Rates, worths: seq<int>, hour: int)
    requires Worths(liabilities, rates, worths)
    ensures StaticAt(LiabilityStatics(liabilities, rates), hour) == -Owed(liabilities, worths, hour)
  {
    if liabilities == [] {
    } else {
      var n := |liabilities| - 1;
      LiabilitiesAreOwed(liabilities[..n], rates, worths[..n], hour);
      LastLiability(liabilities, rates);
      OwedIsNearest(liabilities[n], rates, worths[n]);
    }
  }

  lemma LastLiability(liabilities: seq<Liability>, rates: Rates)
    requires liabilities != []
    ensures var n := |liabilities| - 1;
            LiabilityStatics(liabilities, rates)
            == LiabilityStatics(liabilities[..n], rates)
               + [Static(StartDay(liabilities[n].startedOn, liabilities[n].createdOn),
                         -RoundDiv(liabilities[n].balance * RateToCny(rates, liabilities[n].currency), SCALE))]
  {
  }

  lemma OwedIsNearest(liability: Liability, rates: Rates, worth: int)
    ensures IsOwed(liability, rates, worth)
            <==> worth == RoundDiv(liability.balance * RateToCny(rates, liability.currency), SCALE)
  {
    NearestIsUnique(liability.balance * RateToCny(rates, liability.currency), SCALE, worth);
    RateIsRate(rates, liability.currency);
  }

  lemma WorthsExist(liabilities: seq<Liability>, rates: Rates)
    ensures exists worths :: Worths(liabilities, rates, worths)
  {
    var worths := seq(|liabilities|, i requires 0 <= i < |liabilities| =>
                        RoundDiv(liabilities[i].balance * RateToCny(rates, liabilities[i].currency), SCALE));
    forall i | 0 <= i < |worths| ensures IsOwed(liabilities[i], rates, worths[i]) {
      OwedIsNearest(liabilities[i], rates, worths[i]);
    }
    assert Worths(liabilities, rates, worths);
  }

  lemma {:induction false} StaticAtAppend(a: seq<Static>, b: seq<Static>, hour: int)
    ensures StaticAt(a + b, hour) == StaticAt(a, hour) + StaticAt(b, hour)
  {
    if b == [] {
      assert a + b == a;
    } else {
      StaticAtAppend(a, b[..|b| - 1], hour);
      assert (a + b)[..|a + b| - 1] == a + b[..|b| - 1];
    }
  }

  lemma StaticsAreNet(src: Source, worths: seq<int>, hour: int)
    requires Worths(src.liabilities, src.rates, worths)
    ensures StaticAt(Statics(src), hour)
         == Owned(src.assets, hour) + Owned(src.others, hour) - Owed(src.liabilities, worths, hour)
  {
    var assets, others := AssetStatics(src.assets), AssetStatics(src.others);
    StaticAtAppend(assets + others, LiabilityStatics(src.liabilities, src.rates), hour);
    StaticAtAppend(assets, others, hour);
    AssetsAreOwned(src.assets, hour);
    AssetsAreOwned(src.others, hour);
    LiabilitiesAreOwed(src.liabilities, src.rates, worths, hour);
  }

  // ---- cash ----

  /** What the entries of an account begun by an hour sum to. */
  function Booked(es: seq<Entry>, a: int, hour: int): int {
    if es == [] then 0
    else (if es[0].account == a && DayBegun(es[0].happenedOn, hour) then es[0].amount else 0) + Booked(es[1..], a, hour)
  }

  lemma {:induction false} BalanceIsBooked(es: seq<Entry>, a: int, hour: int)
    ensures BalanceAt(es, a, hour) == Booked(es, a, hour)
  {
    if es == [] {
    } else {
      DayHasBegun(es[0].happenedOn, hour);
      BalanceIsBooked(es[1..], a, hour);
      var day := ServerDay(hour);
      if es[0].happenedOn <= day {
        assert Select(es, Until(day)) == [es[0]] + Select(es[1..], Until(day));
        BalanceAppend([es[0]], Select(es[1..], Until(day)), a);
        assert [es[0]][1..] == [];
        assert Sum([es[0]]) == es[0].amount && Sum([]) == 0;
      }
    }
  }

  /** The currency of the account's row, or of its first entry when the row is gone. */
  ghost predicate IsIn(src: Source, a: int, c: Currency) {
    if a in src.accounts then c == src.accounts[a]
    else exists i :: FirstEntry(src.entries, a, i) && c == src.entries[i].currency
  }

  predicate FirstEntry(es: seq<Entry>, a: int, i: int) {
    0 <= i < |es| && es[i].account == a && forall j :: 0 <= j < i ==> es[j].account != a
  }

  lemma {:induction false} FirstOwnEntry(es: seq<Entry>, a: int)
    requires a in AccountsIn(es)
    ensures Select(es, OfAccount(a)) != []
    ensures exists i :: FirstEntry(es, a, i) && Select(es, OfAccount(a))[0] == es[i]
  {
    if es[0].account == a {
      assert FirstEntry(es, a, 0);
    } else {
      var e :| e in es && e.account == a;
      assert e in es[1..];
      FirstOwnEntry(es[1..], a);
      var i :| FirstEntry(es[1..], a, i) && Select(es[1..], OfAccount(a))[0] == es[1..][i];
      assert FirstEntry(es, a, i + 1);
    }
  }

  /** An account counts with its balance at its rate, unless it holds less than two units. */
  ghost predicate IsShare(src: Source, a: int, hour: int, share: int) {
    var balance := Booked(src.entries, a, hour);
    if -1 <= balance <= 1 then share == 0
    else exists c, rate :: IsIn(src, a, c) && IsRate(src.rates, c, rate) && share == balance * rate
  }

  /** The cash of an hour: the nearest unit to the shares of all accounts that have entries. */
  ghost predicate IsCash(src: Source, hour: int, cash: int) {
    exists share: int -> int :: Shares(src, hour, share)
      && IsNearest(SumOver(AccountsIn(src.entries), share), 100_000_000, cash)
  }

  ghost predicate Shares(src: Source, hour: int, share: int -> int) {
    forall a :: a in AccountsIn(src.entries) ==> IsShare(src, a, hour, share(a))
  }

  lemma TermIsShare(src: Source, a: int, hour: int)
    requires a in AccountsIn(src.entries)
    ensures IsShare(src, a, hour, CashTerm(src.accounts, src.entries, src.rates, hour)(a))
  {
    BalanceIsBooked(src.entries, a, hour);
    FirstOwnEntry(src.entries, a);
    var c := AccountCurrency(src.accounts, src.entries, a);
    assert IsIn(src, a, c);
    RateIsRate(src.rates, c);
  }

  lemma CashIsCash(src: Source, hour: int)
    ensures IsCash(src, hour, CashAt(src.accounts, src.entries, src.rates, hour))
  {
    var share := CashTerm(src.accounts, src.entries, src.rates, hour);
    forall a | a in AccountsIn(src.entries) ensures IsShare(src, a, hour, share(a)) { TermIsShare(src, a, hour); }
    assert Shares(src, hour, share);
    RoundDivIsNearest(SumOver(AccountsIn(src.entries), share), SCALE);
  }

  // ---- holdings ----

  /** A security's transactions begun by an hour, in replay order. */
  ghost predicate BegunBy(log: seq<Transaction>, key: Key, hour: int, begun: seq<Transaction>) {
    && Sorted(begun)
    && forall t :: multiset(begun)[t] == if t.key == key && DayBegun(t.tradedOn, hour) then multiset(log)[t] else 0
  }

  /** All of a security's transactions, in replay order. */
  ghost predicate AllOf(log: seq<Transaction>, key: Key, all: seq<Transaction>) {
    Sorted(all) && forall t :: multiset(all)[t] == if t.key == key then multiset(log)[t] else 0
  }

  lemma {:induction false} UpToIsBegun(log: seq<Transaction>, key: Key, hour: int)
    ensures forall t :: multiset(UpTo(LogOf(log, key), hour))[t]
                     == if t.key == key && DayBegun(t.tradedOn, hour) then multiset(log)[t] else 0
    ensures forall t :: multiset(LogOf(log, key))[t] == if t.key == key then multiset(log)[t] else 0
  {
    if log == [] {
    } else {
      UpToIsBegun(log[1..], key, hour);
      assert log == [log[0]] + log[1..];
      if log[0].key == key { assert LogOf(log, key)[1..] == LogOf(log[1..], key); }
    }
  }

  /** The price of the last transaction that has a positive one, or zero. */
  ghost predicate IsLastPaid(all: seq<Transaction>, price: int) {
    || (exists i :: LastPaid(all, i) && all[i].price == Some(price))
    || ((forall i :: 0 <= i < |all| ==> !Paid(all[i])) && price == 0)
  }

  predicate Paid(t: Transaction) { t.price.Some? && t.price.value >= 1 }

  predicate LastPaid(all: seq<Transaction>, i: int) {
    0 <= i < |all| && Paid(all[i]) && forall j :: i < j < |all| ==> !Paid(all[j])
  }

  lemma {:induction false} LastPriceIsPaid(all: seq<Transaction>)
    ensures IsLastPaid(all, LastPrice(all))
  {
    if all == [] {
    } else {
      var n := |all| - 1;
      if Paid(all[n]) {
        assert LastPaid(all, n);
      } else {
        LastPriceIsPaid(all[..n]);
        forall i | LastPaid(all[..n], i) ensures LastPaid(all, i) {}
      }
    }
  }

  /** The quote stands in for a feed without points or currency, and otherwise the last price paid. */
  ghost predicate IsFallback(feed: Feed, all: seq<Transaction>, price: int) {
    if feed.quote.Some? && feed.quote.value.price.n > 0 && (feed.points == [] || feed.currency == None)
    then IsNearest(feed.quote.value.price.n, feed.quote.value.price.d, price)
    else IsLastPaid(all, price)
  }

  /** Before any known price: the fallback if positive, or else the smallest known price, or else zero. */
  ghost predicate IsStart(feed: Feed, all: seq<Transaction>, price: int) {
    exists fallback :: IsFallback(feed, all, fallback)
      && if fallback > 0 then price == fallback
         else if forall h, p :: !KnownAt(feed.points, h, p) then price == 0
         else (exists h :: KnownAt(feed.points, h, price)) && forall h, p :: KnownAt(feed.points, h, p) ==> price <= p
  }

  ghost predicate NoneKnown(points: seq<Point>, from: int, to: int) {
    forall h, p :: from <= h <= to ==> !KnownAt(points, h, p)
  }

  /** The known price of the latest hour that has one, from the first hour on, or else the starting price. */
  ghost predicate IsPrice(feed: Feed, all: seq<Transaction>, first: int, hour: int, price: int) {
    || (exists g :: first <= g <= hour && KnownAt(feed.points, g, price) && NoneKnown(feed.points, g + 1, hour))
    || (NoneKnown(feed.points, first, hour) && IsStart(feed, all, price))
  }

  lemma QuantizedFallback(feed: Feed, all: seq<Transaction>)
    ensures IsFallback(feed, all, Quantized(FallbackPrice(all, feed)))
  {
    var r := FallbackPrice(all, feed);
    RoundDivIsNearest(r.n, r.d);
    LastPriceIsPaid(all);
    RoundDivByOne(LastPrice(all));
  }

  lemma KnownPricesAreKnown(points: seq<Point>)
    ensures forall h, p :: KnownAt(points, h, p) <==> KnownPrice(points, h) == Some(p)
  {
    forall h, p { KnownPriceIsLast(points, h, p); }
  }

  /** There is always exactly one starting price. */
  lemma DefaultIsStart(feed: Feed, all: seq<Transaction>)
    ensures exists p :: IsDefault(feed.points, FallbackPrice(all, feed), p)
    ensures forall p :: IsDefault(feed.points, FallbackPrice(all, feed), p) ==> IsStart(feed, all, p)
  {
    var fallback := FallbackPrice(all, feed);
    QuantizedFallback(feed, all);
    KnownPricesAreKnown(feed.points);
    forall p | IsDefault(feed.points, fallback, p) ensures IsStart(feed, all, p) {
      assert IsFallback(feed, all, Quantized(fallback));
      if Quantized(fallback) <= 0 {
        forall h, q | KnownAt(feed.points, h, q) ensures p <= q { assert KnownPrice(feed.points, h) == Some(q); }
      }
    }
    DefaultExists(feed.points, fallback);
  }

  ghost predicate CheapestOf(points: seq<Point>, hours: set<int>, h: int) {
    && h in hours && KnownPrice(points, h).Some?
    && forall k :: k in hours && KnownPrice(points, k).Some? ==>
         KnownPrice(points, h).value <= KnownPrice(points, k).value
  }

  lemma {:induction false} CheapestExists(points: seq<Point>, hours: set<int>)
    requires exists h :: h in hours && KnownPrice(points, h).Some?
    ensures exists h :: CheapestOf(points, hours, h)
    decreases hours
  {
    var x := Member(hours);
    var rest := hours - {x};
    if exists h :: h in rest && KnownPrice(points, h).Some? {
      CheapestExists(points, rest);
      var h :| CheapestOf(points, rest, h);
      var least := if KnownPrice(points, x).Some? && KnownPrice(points, x).value < KnownPrice(points, h).value
                   then x else h;
      assert CheapestOf(points, hours, least);
    } else {
      assert CheapestOf(points, hours, x);
    }
  }

  lemma {:induction false} KnownInSomeHour(points: seq<Point>, h: int)
    requires KnownPrice(points, h).Some?
    ensures h in (set p | p in points :: HourOf(p.at))
  {
    var n := |points| - 1;
    if !(points[n].price.n > 0 && HourOf(points[n].at) == h) { KnownInSomeHour(points[..n], h); }
  }

  lemma SmallestKnownExists(points: seq<Point>, known: int)
    requires KnownPrice(points, known).Some?
    ensures exists h :: KnownPrice(points, h).Some? && NoneCheaper(points, KnownPrice(points, h).value)
  {
    var hours := set p | p in points :: HourOf(p.at);
    forall h | KnownPrice(points, h).Some? ensures h in hours { KnownInSomeHour(points, h); }
    CheapestExists(points, hours);
    var h :| CheapestOf(points, hours, h);
    assert NoneCheaper(points, KnownPrice(points, h).value);
  }

  lemma DefaultExists(points: seq<Point>, fallback: Ratio)
    ensures exists p :: IsDefault(points, fallback, p)
  {
    if Quantized(fallback) > 0 {
      assert IsDefault(points, fallback, Quantized(fallback));
    } else if forall h :: KnownPrice(points, h).None? {
      assert IsDefault(points, fallback, 0);
    } else {
      var known :| KnownPrice(points, known).Some?;
      SmallestKnownExists(points, known);
      var h :| KnownPrice(points, h).Some? && NoneCheaper(points, KnownPrice(points, h).value);
      assert IsDefault(points, fallback, KnownPrice(points, h).value);
    }
  }

  lemma FilledIsPrice(feed: Feed, all: seq<Transaction>, start: int, first: int, hour: int)
    requires IsDefault(feed.points, FallbackPrice(all, feed), start) && first <= hour
    ensures IsPrice(feed, all, first, hour, FillAt(feed.points, start, first, hour))
  {
    FillIsLatestKnown(feed.points, start, first, hour);
    if exists g :: first <= g <= hour && KnownPrice(feed.points, g).Some? {
      LatestKnownExists(feed.points, first, hour);
      var g :| LatestKnown(feed.points, first, hour, g);
      LatestIsPrice(feed, all, first, hour, g);
    } else {
      DefaultIsStart(feed, all);
      StartIsPrice(feed, all, first, hour, start);
    }
  }

  lemma LatestIsPrice(feed: Feed, all: seq<Transaction>, first: int, hour: int, g: int)
    requires LatestKnown(feed.points, first, hour, g)
    ensures IsPrice(feed, all, first, hour, KnownPrice(feed.points, g).value)
  {
    KnownPriceIsLast(feed.points, g, KnownPrice(feed.points, g).value);
    NothingKnown(feed.points, g + 1, hour);
  }

  lemma StartIsPrice(feed: Feed, all: seq<Transaction>, first: int, hour: int, start: int)
    requires forall g :: first <= g <= hour ==> KnownPrice(feed.points, g).None?
    requires IsStart(feed, all, start)
    ensures IsPrice(feed, all, first, hour, start)
  {
    NothingKnown(feed.points, first, hour);
  }

  lemma NothingKnown(points: seq<Point>, from: int, to: int)
    requires forall h :: from <= h <= to ==> KnownPrice(points, h).None?
    ensures NoneKnown(points, from, to)
  {
    forall h, p | from <= h <= to ensures !KnownAt(points, h, p) { KnownPriceIsLast(points, h, p); }
  }

  lemma {:induction false} LatestKnownExists(points: seq<Point>, first: int, hour: int)
    requires exists g :: first <= g <= hour && KnownPrice(points, g).Some?
    ensures exists g :: LatestKnown(points, first, hour, g)
    decreases if hour < first then 0 else hour - first + 1
  {
    if KnownPrice(points, hour).Some? {
      assert LatestKnown(points, first, hour, hour);
    } else {
      LatestKnownExists(points, first, hour - 1);
      var g :| LatestKnown(points, first, hour - 1, g);
      assert LatestKnown(points, first, hour, g);
    }
  }

  /** The currency of the feed, or else of the quote, or else of the last transaction. */
  ghost predicate IsPricedIn(feed: Feed, all: seq<Transaction>, c: Currency) {
    if feed.currency.Some? then c == feed.currency.value
    else if feed.quote.Some? && feed.quote.value.currency.Some? then c == feed.quote.value.currency.value
    else all != [] && c == all[|all| - 1].currency
  }

  ghost function FeedFor(feeds: map<Key, Feed>, key: Key): Feed {
    if key in feeds then feeds[key] else Feed([], None, None)
  }

  /** What is held is worth the nearest unit to units times price times rate, and nothing without units or price. */
  ghost predicate IsWorthOf(units: int, price: int, rate: int, worth: int) {
    if units == 0 || price <= 0 then worth == 0 else IsNearest(units * price * rate, 100_000_000 * 100_000_000, worth)
  }

  /** The units that a security's transactions begun by the hour leave in its queue. */
  ghost predicate IsHeld(log: seq<Transaction>, key: Key, hour: int, units: int) {
    exists begun :: BegunBy(log, key, hour, begun)
      && match Replay(begun)
         case Ok(lots) => units == |Queue(lots)|
         case Err(_) => units == 0
  }

  /** The price and rate of a security at an hour. */
  ghost predicate IsValued(log: seq<Transaction>, feeds: map<Key, Feed>, rates: Rates, key: Key, first: int, hour: int,
                           price: int, rate: int)
  {
    exists all, c :: AllOf(log, key, all) && IsPrice(FeedFor(feeds, key), all, first, hour, price)
      && IsPricedIn(FeedFor(feeds, key), all, c) && IsRate(rates, c, rate)
  }

  ghost predicate IsHolding(src: Source, key: Key, first: int, hour: int, worth: int) {
    exists units, price, rate ::
      IsHeld(src.log, key, hour, units) && IsValued(src.log, src.feeds, src.rates, key, first, hour, price, rate)
      && IsWorthOf(units, price, rate, worth)
  }

  lemma SortIsAll(log: seq<Transaction>, key: Key)
    ensures AllOf(log, key, Sort(LogOf(log, key)))
    ensures forall hour :: BegunBy(log, key, hour, Sort(UpTo(LogOf(log, key), hour)))
  {
    SortSorts(LogOf(log, key));
    UpToIsBegun(log, key, 0);
    forall hour ensures BegunBy(log, key, hour, Sort(UpTo(LogOf(log, key), hour))) {
      SortSorts(UpTo(LogOf(log, key), hour));
      UpToIsBegun(log, key, hour);
    }
  }

  lemma HeldIs(log: seq<Transaction>, key: Key, hour: int)
    ensures var state := StateAt(LogOf(log, key), hour);
            IsHeld(log, key, hour, if state.Ok? then Quantity(state.value) else 0)
  {
    var begun := Sort(UpTo(LogOf(log, key), hour));
    SortIsAll(log, key);
    assert BegunBy(log, key, hour, begun);
    if Replay(begun).Ok? {
      SortedReplay(begun);
      QueueLength(Replay(begun).value);
    }
  }

  lemma ValuedAt(log: seq<Transaction>, feeds: map<Key, Feed>, rates: Rates, key: Key, first: int, hour: int,
                 all: seq<Transaction>, price: int, c: Currency)
    requires AllOf(log, key, all) && IsPrice(FeedFor(feeds, key), all, first, hour, price)
    requires IsPricedIn(FeedFor(feeds, key), all, c)
    ensures IsValued(log, feeds, rates, key, first, hour, price, RateToCny(rates, c))
  {
    RateIsRate(rates, c);
  }

  lemma StartIsDefault(own: seq<Transaction>, feed: Feed)
    ensures IsDefault(feed.points, FallbackPrice(Sort(own), feed), StartPrice(own, feed))
  {
    DefaultIsStart(feed, Sort(own));
  }

  lemma ValuedIs(log: seq<Transaction>, feeds: map<Key, Feed>, rates: Rates, key: Key, first: int, hour: int)
    requires LogOf(log, key) != [] && first <= hour
    ensures var own, feed := LogOf(log, key), FeedOf(feeds, key);
            IsValued(log, feeds, rates, key, first, hour, FillAt(feed.points, StartPrice(own, feed), first, hour),
                     RateToCny(rates, PricingCurrency(SortedNonEmpty(own), feed)))
  {
    var own, feed := LogOf(log, key), FeedOf(feeds, key);
    var all := SortedNonEmpty(own);
    SortIsAll(log, key);
    StartIsDefault(own, feed);
    FilledIsPrice(feed, all, StartPrice(own, feed), first, hour);
    ValuedAt(log, feeds, rates, key, first, hour, all, FillAt(feed.points, StartPrice(own, feed), first, hour),
             PricingCurrency(all, feed));
  }

  lemma WorthIs(lots: seq<Lot>, price: int, rate: int)
    ensures IsWorthOf(Quantity(lots), price, rate, ValueOf(lots, price, rate))
  {
    RoundDivIsNearest(Quantity(lots) * price * rate, SCALE * SCALE);
  }

  lemma HoldingIs(src: Source, key: Key, first: int, hour: int)
    requires key in KeysIn(src.log) && first <= hour
    ensures IsHolding(src, key, first, hour, HoldingTerm(src.log, src.feeds, src.rates, first, hour)(key))
  {
    var log, feed := LogOf(src.log, key), FeedOf(src.feeds, key);
    var t :| t in src.log && t.key == key;
    InLog(src.log, key, t);
    HeldIs(src.log, key, hour);
    ValuedIs(src.log, src.feeds, src.rates, key, first, hour);
    var state := StateAt(log, hour);
    var price := FillAt(feed.points, StartPrice(log, feed), first, hour);
    var rate := RateToCny(src.rates, PricingCurrency(SortedNonEmpty(log), feed));
    if state.Ok? {
      WorthIs(state.value, price, rate);
    } else {
      assert IsWorthOf(0, price, rate, 0);
    }
  }

  /** The holdings of an hour: the worths of all securities that have transactions. */
  ghost predicate IsHoldings(src: Source, first: int, hour: int, holdings: int) {
    exists worth: Key -> int :: HoldingWorths(src, first, hour, worth) && holdings == SumOver(KeysIn(src.log), worth)
  }

  ghost predicate HoldingWorths(src: Source, first: int, hour: int, worth: Key -> int) {
    forall key :: key in KeysIn(src.log) ==> IsHolding(src, key, first, hour, worth(key))
  }

  lemma HoldingsAreHoldings(src: Source, first: int, hour: int)
    requires first <= hour
    ensures IsHoldings(src, first, hour, HoldingsAt(src.log, src.feeds, src.rates, first, hour))
  {
    var worth := HoldingTerm(src.log, src.feeds, src.rates, first, hour);
    forall key | key in KeysIn(src.log) ensures IsHolding(src, key, first, hour, worth(key)) {
      HoldingIs(src, key, first, hour);
    }
    assert HoldingWorths(src, first, hour, worth);
  }

  // ---- the curve ----

  /** Whole cents, nearest to an amount. */
  ghost predicate IsShown(units: int, shown: int) {
    exists cents :: shown == cents * 1_000_000 && IsNearest(units, 1_000_000, cents)
  }

  lemma DisplayIsShown(units: int)
    ensures IsShown(units, Display(units))
  {
    RoundDivIsNearest(units, CENT);
  }

  /** Cash plus holdings plus the assets begun less the liabilities begun, to the nearest cent. */
  ghost predicate ShowsWorth(src: Source, first: int, hour: int, total: int) {
    exists cash, holdings, worths :: ShowsSum(src, first, hour, cash, holdings, worths, total)
  }

  ghost predicate ShowsSum(src: Source, first: int, hour: int, cash: int, holdings: int, worths: seq<int>, total: int) {
    && IsCash(src, hour, cash) && IsHoldings(src, first, hour, holdings)
    && Worths(src.liabilities, src.rates, worths)
    && IsShown(cash + holdings + Owned(src.assets, hour) + Owned(src.others, hour)
               - Owed(src.liabilities, worths, hour), total)
  }

  lemma PointShowsWorth(src: Source, first: int, hour: int)
    requires first <= hour
    ensures ShowsWorth(src, first, hour, PointFrom(src, first, hour).total)
  {
    WorthsExist(src.liabilities, src.rates);
    var worths :| Worths(src.liabilities, src.rates, worths);
    var cash := CashAt(src.accounts, src.entries, src.rates, hour);
    var holdings := HoldingsAt(src.log, src.feeds, src.rates, first, hour);
    CashIsCash(src, hour);
    HoldingsAreHoldings(src, first, hour);
    StaticsAreNet(src, worths, hour);
    DisplayIsShown(cash + holdings + StaticAt(Statics(src), hour));
    assert ShowsSum(src, first, hour, cash, holdings, worths, PointFrom(src, first, hour).total);
  }

  /** An entry, a transaction, an asset or a liability begins on the day. */
  ghost predicate BeginsOn(src: Source, day: int) {
    || (exists e :: e in src.entries && e.happenedOn == day)
    || (exists t :: t in src.log && t.tradedOn == day)
    || (exists i :: 0 <= i < |src.assets| && BeginsAs(src.assets[i].startedOn, src.assets[i].createdOn, day))
    || (exists i :: 0 <= i < |src.others| && BeginsAs(src.others[i].startedOn, src.others[i].createdOn, day))
    || (exists i :: 0 <= i < |src.liabilities|
                    && BeginsAs(src.liabilities[i].startedOn, src.liabilities[i].createdOn, day))
  }

  predicate BeginsAs(startedOn: Option<int>, createdOn: Option<int>, day: int) {
    startedOn == Some(day) || (startedOn == None && createdOn == Some(day))
  }

  ghost predicate FirstDay(src: Source, day: int) {
    BeginsOn(src, day) && forall d :: BeginsOn(src, d) ==> day <= d
  }

  lemma StaticsBegin(src: Source, day: int)
    ensures (exists s :: s in Statics(src) && s.start == Some(day)) <==>
      || (exists i :: 0 <= i < |src.assets| && BeginsAs(src.assets[i].startedOn, src.assets[i].createdOn, day))
      || (exists i :: 0 <= i < |src.others| && BeginsAs(src.others[i].startedOn, src.others[i].createdOn, day))
      || (exists i :: 0 <= i < |src.liabilities|
                      && BeginsAs(src.liabilities[i].startedOn, src.liabilities[i].createdOn, day))
  {
    AssetsBegin(src.assets, day);
    AssetsBegin(src.others, day);
    LiabilitiesBegin(src.liabilities, src.rates, day);
  }

  lemma AssetsBegin(assets: seq<Asset>, day: int)
    ensures (exists s :: s in AssetStatics(assets) && s.start == Some(day))
            <==> exists i :: 0 <= i < |assets| && BeginsAs(assets[i].startedOn, assets[i].createdOn, day)
  {
    forall i | 0 <= i < |assets|
      ensures AssetStatics(assets)[i] in AssetStatics(assets)
      ensures AssetStatics(assets)[i].start == Some(day) <==> BeginsAs(assets[i].startedOn, assets[i].createdOn, day)
    {
    }
  }

  lemma LiabilitiesBegin(liabilities: seq<Liability>, rates: Rates, day: int)
    ensures (exists s :: s in LiabilityStatics(liabilities, rates) && s.start == Some(day))
            <==> exists i :: 0 <= i < |liabilities| && BeginsAs(liabilities[i].startedOn, liabilities[i].createdOn, day)
  {
    var items := LiabilityStatics(liabilities, rates);
    forall i | 0 <= i < |liabilities|
      ensures items[i] in items
      ensures items[i].start == Some(day) <==> BeginsAs(liabilities[i].startedOn, liabilities[i].createdOn, day)
    {
    }
  }

  lemma CandidatesBegin(src: Source, day: int)
    ensures day in StartCandidates(src) <==> BeginsOn(src, day)
  {
    StaticsBegin(src, day);
  }

  lemma FirstHourIs(src: Source)
    ensures (forall day :: !BeginsOn(src, day)) ==> FirstHour(src) == src.now + 1
    ensures forall day :: FirstDay(src, day) ==> FirstHour(src) == 24 * day - 8
  {
    forall day ensures day in StartCandidates(src) <==> BeginsOn(src, day) { CandidatesBegin(src, day); }
    if StartCandidates(src) != {} {
      var least := Least(StartCandidates(src));
      assert BeginsOn(src, least);
    }
  }

  /** The points run over the hours, and each shows what everything is worth at its hour. */
  ghost predicate RowsShowWorth(src: Source, first: int, rows: seq<Row>) {
    && |rows| == (if first <= src.now then src.now - first + 1 else 0)
    && forall i :: 0 <= i < |rows| ==> rows[i].hour == first + i && ShowsWorth(src, first, first + i, rows[i].total)
  }

  lemma RowShowsWorth(src: Source, first: int, hour: int, row: Row)
    requires first <= hour && row == PointFrom(src, first, hour)
    ensures row.hour == hour && ShowsWorth(src, first, hour, row.total)
  {
    PointShowsWorth(src, first, hour);
  }

  lemma RowIsPoint(src: Source, first: int, rows: seq<Row>, i: nat)
    requires PointByPoint(src, first, rows) && i < |rows|
    ensures rows[i] == PointFrom(src, first, first + i)
  {
  }

  lemma PointsShowWorth(src: Source, first: int, rows: seq<Row>)
    requires PointByPoint(src, first, rows)
    ensures RowsShowWorth(src, first, rows)
  {
    forall i: nat | i < |rows| ensures rows[i].hour == first + i && ShowsWorth(src, first, first + i, rows[i].total) {
      var hour, row := first + i, rows[i];
      RowIsPoint(src, first, rows, i);
      RowShowsWorth(src, first, hour, row);
    }
  }

  /** The curve has a point for every hour from the start of the first day on which anything begins until now, and none
      when nothing does. */
  lemma CurveShowsWorth(src: Source, rows: seq<Row>)
    requires IsCurve(src, rows)
    ensures (forall day :: !BeginsOn(src, day)) ==> rows == []
    ensures forall day :: FirstDay(src, day) ==> RowsShowWorth(src, 24 * day - 8, rows)
  {
    FirstHourIs(src);
    PointsShowWorth(src, FirstHour(src), rows);
  }
}
