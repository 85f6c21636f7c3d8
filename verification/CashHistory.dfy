/** The cash part of the rebuilt portfolio curve. */
module CashHistory {
  import opened Fixed
  import opened Wrappers
  import opened Trades
  import opened Tables
  import opened SetSums
  import opened HourGrid

  /** Rates to CNY; a rate that could not be fetched counts as zero. */
  type Rates = map<Currency, int>

  function RateToCny(rates: Rates, c: Currency): int {
    if c == CNY then SCALE else if c in rates then rates[c] else 0
  }

  // ---- the direct definition ----

  /** What the entries of an account dated at or before an hour sum to. */
  function BalanceAt(es: seq<Entry>, a: int, hour: int): int {
    Balance(Select(es, Until(ServerDay(hour))), a)
  }

  function AccountsIn(es: seq<Entry>): set<int> {
    set e | e in es :: e.account
  }

  /** The currency of an account, or of its first entry when there is no account row. */
  function AccountCurrency(accounts: map<int, Currency>, es: seq<Entry>, a: int): Currency {
    if a in accounts then accounts[a]
    else
      var own := Select(es, OfAccount(a));
      if own == [] then CNY else own[0].currency
  }

  function Weighted(balance: int, rate: int): int {
    if Abs(balance) <= EPSILON then 0 else balance * rate
  }

  ghost function CashTerm(accounts: map<int, Currency>, es: seq<Entry>, rates: Rates, hour: int): int -> int {
    a => Weighted(BalanceAt(es, a, hour), RateToCny(rates, AccountCurrency(accounts, es, a)))
  }

  /** The value of all cash at an hour: every account's entries so far, at its rate, rounded once. */
  ghost function CashAt(accounts: map<int, Currency>, es: seq<Entry>, rates: Rates, hour: int): int {
    RoundDiv(SumOver(AccountsIn(es), CashTerm(accounts, es, rates, hour)), SCALE)
  }

  // ---- grouping by day ----

  predicate Active(es: seq<Entry>, d: int) { exists e :: e in es && e.happenedOn == d }

  /** The entries of each day that has any. */
  ghost predicate Grouped(byDay: map<int, seq<Entry>>, es: seq<Entry>) {
    && (forall d :: d in byDay <==> Active(es, d))
    && (forall d :: Select(es, OnDay(d)) == if d in byDay then byDay[d] else [])
  }

  lemma SelectExtends(es: seq<Entry>, e: Entry, d: int)
    ensures Select(es + [e], OnDay(d)) == Select(es, OnDay(d)) + (if e.happenedOn == d then [e] else [])
  {
    SelectAppend(es, [e], OnDay(d));
    assert [e][1..] == [];
  }

  lemma GroupOne(byDay: map<int, seq<Entry>>, es: seq<Entry>, e: Entry)
    requires Grouped(byDay, es)
    ensures Grouped(byDay[e.happenedOn := (if e.happenedOn in byDay then byDay[e.happenedOn] else []) + [e]], es + [e])
  {
    var next := byDay[e.happenedOn := (if e.happenedOn in byDay then byDay[e.happenedOn] else []) + [e]];
    forall d ensures d in next <==> Active(es + [e], d) {}
    forall d ensures Select(es + [e], OnDay(d)) == if d in next then next[d] else [] { SelectExtends(es, e, d); }
  }

  method GroupByDay(es: seq<Entry>) returns (byDay: map<int, seq<Entry>>)
    ensures Grouped(byDay, es)
  {
    byDay := map[];
    assert es[..0] == [];
    for i := 0 to |es|
      invariant Grouped(byDay, es[..i])
    {
      var e := es[i];
      assert es[..i + 1] == es[..i] + [e];
      GroupOne(byDay, es[..i], e);
      var sofar := if e.happenedOn in byDay then byDay[e.happenedOn] else [];
      byDay := byDay[e.happenedOn := sofar + [e]];
    }
    assert es[..|es|] == es;
  }

  predicate Increasing(days: seq<int>) {
    forall i, j :: 0 <= i < j < |days| ==> days[i] < days[j]
  }

  /** sorted(cash_entries_by_date) */
  method SortDays(days: set<int>) returns (sorted: seq<int>)
    ensures Increasing(sorted)
    ensures forall d :: d in sorted <==> d in days
  {
    sorted := [];
    var pending := days;
    while pending != {}
      invariant pending <= days && Increasing(sorted)
      invariant forall d :: d in sorted <==> d in days && d !in pending
      invariant forall d, p :: d in sorted && p in pending ==> d < p
      decreases pending
    {
      var d := SmallestOf(pending);
      forall i | 0 <= i < |sorted| ensures sorted[i] < d { assert sorted[i] in sorted; }
      sorted := sorted + [d];
      pending := pending - {d};
    }
  }

  method SmallestOf(days: set<int>) returns (d: int)
    requires days != {}
    ensures d in days && forall x :: x in days ==> d <= x
  {
    ghost var member := Member(days);
    d :| d in days;
    var pending := days - {d};
    while pending != {}
      invariant pending <= days && d in days
      invariant forall x :: x in days && x !in pending ==> d <= x
      decreases pending
    {
      ghost var member := Member(pending);
      var x :| x in pending;
      if x < d { d := x; }
      pending := pending - {x};
    }
  }

  // ---- the event pointer ----

  /** What the first days add to an account. */
  function DaySum(es: seq<Entry>, days: seq<int>, a: int): int {
    if days == [] then 0
    else DaySum(es, days[..|days| - 1], a) + Balance(Select(es, OnDay(days[|days| - 1])), a)
  }

  lemma {:induction false} DaySumSplits(e: Entry, es: seq<Entry>, days: seq<int>, a: int)
    requires Increasing(days)
    ensures DaySum([e] + es, days, a)
         == DaySum(es, days, a) + (if e.happenedOn in days && e.account == a then e.amount else 0)
  {
    if days == [] {
    } else {
      var prefix, d := days[..|days| - 1], days[|days| - 1];
      assert days == prefix + [d];
      DaySumSplits(e, es, prefix, a);
    }
  }

  /** The days taken one by one add up to the entries dated on one of them. */
  lemma {:induction false} DaySumIs(es: seq<Entry>, days: seq<int>, day: int, a: int)
    requires Increasing(days)
    requires forall e :: e in es ==> (e.happenedOn in days <==> e.happenedOn <= day)
    ensures DaySum(es, days, a) == Balance(Select(es, Until(day)), a)
  {
    if es == [] {
      DaySumEmpty(days, a);
    } else {
      assert es == [es[0]] + es[1..];
      DaySumSplits(es[0], es[1..], days, a);
      DaySumIs(es[1..], days, day, a);
      BalanceAppend([es[0]], Select(es[1..], Until(day)), a);
      assert Select([es[0]], OfAccount(a)) == if es[0].account == a then [es[0]] else [];
      assert Sum([es[0]]) == es[0].amount;
    }
  }

  lemma {:induction false} DaySumEmpty(days: seq<int>, a: int)
    ensures DaySum([], days, a) == 0
  {
    if days == [] {
    } else {
      DaySumEmpty(days[..|days| - 1], a);
    }
  }

  function Held(balances: map<int, int>, a: int): int {
    if a in balances then balances[a] else 0
  }

  /** Adds the entries of one day to the running balances. */
  method AddDay(balances: map<int, int>, entries: seq<Entry>) returns (next: map<int, int>)
    ensures forall a :: Held(next, a) == Held(balances, a) + Balance(entries, a)
    ensures next.Keys == balances.Keys + AccountsIn(entries)
  {
    next := balances;
    for i := 0 to |entries|
      invariant forall a :: Held(next, a) == Held(balances, a) + Balance(entries[..i], a)
      invariant next.Keys == balances.Keys + AccountsIn(entries[..i])
    {
      var e := entries[i];
      assert entries[..i + 1] == entries[..i] + [e];
      forall a
        ensures Balance(entries[..i + 1], a) == Balance(entries[..i], a) + (if e.account == a then e.amount else 0)
      {
        BalanceAppend(entries[..i], [e], a);
        assert Select([e], OfAccount(a)) == if e.account == a then [e] else [];
        assert Sum([e]) == e.amount;
      }
      next := next[e.account := Held(next, e.account) + e.amount];
    }
    assert entries[..|entries|] == entries;
  }

  /** The account currencies, completed from the entries in their order. */
  method CompleteCurrencies(accounts: map<int, Currency>, es: seq<Entry>) returns (currencies: map<int, Currency>)
    ensures forall a :: a in AccountsIn(es) ==> a in currencies && currencies[a] == AccountCurrency(accounts, es, a)
  {
    currencies := accounts;
    for i := 0 to |es|
      invariant forall a :: a in currencies <==> a in accounts || a in AccountsIn(es[..i])
      invariant forall a :: a in currencies ==> currencies[a] == AccountCurrency(accounts, es[..i], a)
    {
      var e := es[i];
      assert es[..i + 1] == es[..i] + [e];
      forall a
        ensures Select(es[..i + 1], OfAccount(a))
             == Select(es[..i], OfAccount(a)) + (if e.account == a then [e] else [])
      {
        SelectAppend(es[..i], [e], OfAccount(a));
        assert [e][1..] == [];
      }
      if e.account !in currencies {
        NothingMatches(es[..i], OfAccount(e.account));
        currencies := currencies[e.account := e.currency];
      } else if e.account !in accounts {
        var x :| x in es[..i] && x.account == e.account;
        InSelect(es[..i], OfAccount(e.account), x);
      }
    }
    assert es[..|es|] == es;
  }

  ghost function RunningTerm(balances: map<int, int>, currencies: map<int, Currency>, rates: Rates): int -> int {
    a => Weighted(Held(balances, a), RateToCny(rates, if a in currencies then currencies[a] else CNY))
  }

  /** The weighted total of the running balances. */
  method WeighBalances(balances: map<int, int>, currencies: map<int, Currency>, rates: Rates) returns (total: int)
    ensures total == SumOver(balances.Keys, RunningTerm(balances, currencies, rates))
  {
    ghost var f := RunningTerm(balances, currencies, rates);
    total := 0;
    var pending := balances.Keys;
    ghost var done := {};
    while pending != {}
      invariant done + pending == balances.Keys && done !! pending
      invariant total == SumOver(done, f)
      decreases pending
    {
      ghost var member := Member(pending);
      var a :| a in pending;
      var balance := balances[a];
      SumOverAdds(done, a, f);
      if Abs(balance) > EPSILON {
        total := total + balance * RateToCny(rates, if a in currencies then currencies[a] else CNY);
      }
      done, pending := done + {a}, pending - {a};
    }
    assert done == balances.Keys;
  }

  /** The running balances hold exactly what the first days have added. */
  ghost predicate Running(es: seq<Entry>, days: seq<int>, balances: map<int, int>) {
    && (forall a :: Held(balances, a) == DaySum(es, days, a))
    && balances.Keys <= AccountsIn(es)
  }

  /** When the pointer has passed exactly the days up to an hour, the running total is the direct one. */
  lemma RunningIsDirect(accounts: map<int, Currency>, es: seq<Entry>, rates: Rates, hour: int,
                        days: seq<int>, balances: map<int, int>, currencies: map<int, Currency>)
    requires Increasing(days) && Running(es, days, balances)
    requires forall e :: e in es ==> (e.happenedOn in days <==> DateStart(e.happenedOn) <= hour)
    requires forall a :: a in AccountsIn(es) ==> a in currencies && currencies[a] == AccountCurrency(accounts, es, a)
    ensures SumOver(balances.Keys, RunningTerm(balances, currencies, rates))
         == SumOver(AccountsIn(es), CashTerm(accounts, es, rates, hour))
  {
    var f, g := RunningTerm(balances, currencies, rates), CashTerm(accounts, es, rates, hour);
    forall a | a in AccountsIn(es) ensures f(a) == g(a) && (a !in balances ==> f(a) == 0) {
      forall e | e in es ensures e.happenedOn in days <==> e.happenedOn <= ServerDay(hour) {
        DayHasBegun(e.happenedOn, hour);
      }
      DaySumIs(es, days, ServerDay(hour), a);
    }
    SumOverSkips(balances.Keys, AccountsIn(es), f);
    SumOverAgrees(AccountsIn(es), f, g);
  }

  /** What the currency table, the day groups and the sorted days were built from. */
  ghost predicate Prepared(accounts: map<int, Currency>, es: seq<Entry>, currencies: map<int, Currency>,
                           byDay: map<int, seq<Entry>>, days: seq<int>)
  {
    && Increasing(days)
    && (forall a :: a in AccountsIn(es) ==> a in currencies && currencies[a] == AccountCurrency(accounts, es, a))
    && (forall d :: d in days ==> d in byDay && byDay[d] == Select(es, OnDay(d)))
    && (forall e :: e in es ==> e.happenedOn in days)
  }

  /** The pointer stands past days that have all begun by an hour. */
  predicate Passed(days: seq<int>, next: nat, hour: int) {
    next <= |days| && forall j :: 0 <= j < next ==> DateStart(days[j]) <= hour
  }

  /** Adding the entries of the next day keeps the running balances right. */
  lemma DayAdvances(es: seq<Entry>, days: seq<int>, next: nat, was: map<int, int>, now: map<int, int>)
    requires next < |days| && Running(es, days[..next], was)
    requires forall a :: Held(now, a) == Held(was, a) + Balance(Select(es, OnDay(days[next])), a)
    requires now.Keys == was.Keys + AccountsIn(Select(es, OnDay(days[next])))
    ensures Running(es, days[..next + 1], now)
  {
    assert days[..next + 1][..next] == days[..next];
    forall e | e in Select(es, OnDay(days[next])) ensures e in es { InSelect(es, OnDay(days[next]), e); }
  }

  /** Moves the pointer past every day that has begun by the hour. */
  method AdvanceDays(es: seq<Entry>, byDay: map<int, seq<Entry>>, days: seq<int>, hour: int,
                     from: nat, running: map<int, int>)
    returns (next: nat, balances: map<int, int>)
    requires forall d :: d in days ==> d in byDay && byDay[d] == Select(es, OnDay(d))
    requires Passed(days, from, hour) && Running(es, days[..from], running)
    ensures Passed(days, next, hour) && Running(es, days[..next], balances)
    ensures next < |days| ==> DateStart(days[next]) > hour
  {
    next, balances := from, running;
    while next < |days| && DateStart(days[next]) <= hour
      invariant Passed(days, next, hour) && Running(es, days[..next], balances)
    {
      var added := AddDay(balances, byDay[days[next]]);
      DayAdvances(es, days, next, balances, added);
      next, balances := next + 1, added;
    }
  }

  method SweepHour(accounts: map<int, Currency>, es: seq<Entry>, rates: Rates, currencies: map<int, Currency>,
                   byDay: map<int, seq<Entry>>, days: seq<int>, hour: int, from: nat, running: map<int, int>)
    returns (next: nat, balances: map<int, int>, value: int)
    requires Prepared(accounts, es, currencies, byDay, days) && Passed(days, from, hour)
    requires Running(es, days[..from], running)
    ensures Passed(days, next, hour) && Running(es, days[..next], balances)
    ensures value == CashAt(accounts, es, rates, hour)
  {
    next, balances := AdvanceDays(es, byDay, days, hour, from, running);
    forall e | e in es ensures e.happenedOn in days[..next] <==> DateStart(e.happenedOn) <= hour {
      assert e.happenedOn in days;
      var j :| 0 <= j < |days| && days[j] == e.happenedOn;
      if j < next { assert days[..next][j] == e.happenedOn; }
    }
    var total := WeighBalances(balances, currencies, rates);
    RunningIsDirect(accounts, es, rates, hour, days[..next], balances, currencies);
    value := RoundDiv(total, SCALE);
  }

  /** One sweep over the hours, with a pointer into the sorted days and running balances, computes
      the direct definition at every hour. */
  method SweepCash(hours: seq<int>, ghost first: int, ghost last: int,
                   accounts: map<int, Currency>, es: seq<Entry>, rates: Rates)
    returns (totals: map<int, int>)
    requires hours == HourRange(first, last)
    ensures forall h :: h in totals <==> first <= h <= last
    ensures forall h :: first <= h <= last ==> totals[h] == CashAt(accounts, es, rates, h)
  {
    var currencies := CompleteCurrencies(accounts, es);
    var byDay := GroupByDay(es);
    var days := SortDays(byDay.Keys);
    var next: nat := 0;
    var balances: map<int, int> := map[];
    totals := map[];
    for i := 0 to |hours|
      invariant Passed(days, next, first + i) && Running(es, days[..next], balances)
      invariant forall h :: h in totals <==> first <= h < first + i
      invariant forall h :: first <= h < first + i ==> totals[h] == CashAt(accounts, es, rates, h)
    {
      var value;
      next, balances, value := SweepHour(accounts, es, rates, currencies, byDay, days, hours[i], next, balances);
      totals := totals[hours[i] := value];
    }
  }
}
