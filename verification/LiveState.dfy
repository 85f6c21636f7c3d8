/** The history ends at the live state: the last hour of the rebuilt curve shows the stored balances
    and the stored holdings. */
module LiveState {
  import opened Wrappers
  import opened Trades
  import opened Lots
  import opened Projection
  import opened Tables
  import opened Bookkeeping
  import opened LedgerInvariant
  import opened Runs
  import opened HoldingView
  import opened LogReplay
  import opened CashHistory
  import opened PortfolioHistory
  import opened PortfolioCurve

  // ---- cash ----

  lemma {:induction false} SelectWithout(es: seq<Entry>, q: Query, p: Query)
    ensures Select(Without(es, q), p) == Without(Select(es, p), q)
  {
    if es == [] {
    } else {
      SelectWithout(es[1..], q, p);
    }
  }

  lemma {:induction false} SameSelect(es: seq<Entry>, p: Query, q: Query)
    requires forall e :: e in es ==> (Matches(e, p) <==> Matches(e, q))
    ensures Select(es, p) == Select(es, q)
  {
    if es == [] {
    } else {
      SameSelect(es[1..], p, q);
    }
  }

  function Opening(b: Books, a: int): Entry
    requires |Select(b.entries, InitialOf(a))| == 1
  {
    Select(b.entries, InitialOf(a))[0]
  }

  /** When only opening entries lie in the future, the balance by a day is short of the stored one by
      the account's opening entry, if that is dated later. */
  lemma BalanceByDay(b: Books, a: int, day: int)
    requires Inv(b) && Dated(b, day) && a in b.accounts
    ensures b.accounts[a].balance - Balance(Select(b.entries, Until(day)), a)
         == if Opening(b, a).happenedOn > day then Opening(b, a).amount else 0
  {
    var opening, later := Opening(b, a), Without(b.entries, Until(day));
    BalanceWithout(b.entries, Until(day), a);
    forall e | e in later ensures Matches(e, OfAccount(a)) <==> Matches(e, InitialOf(a)) {
      InWithout(b.entries, Until(day), e);
      assert EntryDated(e, day) && Placed(b, e);
    }
    SameSelect(later, OfAccount(a), InitialOf(a));
    SelectWithout(b.entries, Until(day), InitialOf(a));
    assert Select(b.entries, InitialOf(a)) == [opening];
    assert [opening][1..] == [] && Sum([opening]) == opening.amount;
    assert Without([opening], Until(day)) == if opening.happenedOn > day then [opening] else [];
    assert Balance(later, a) == Sum(Without([opening], Until(day)));
  }

  /** The last hour's running balance of an account equals its stored balance if and only if the
      account does not open, with a non-zero amount, after the server's day. */
  lemma CashEndsLive(b: Books, a: int, hour: int)
    requires Inv(b) && Dated(b, ServerDay(hour)) && a in b.accounts
    ensures BalanceAt(b.entries, a, hour) == b.accounts[a].balance
            <==> Opening(b, a).happenedOn <= ServerDay(hour) || Opening(b, a).amount == 0
  {
    BalanceByDay(b, a, ServerDay(hour));
  }

  // ---- holdings ----

  lemma {:induction false} UpToAll(log: seq<Transaction>, hour: int)
    requires forall t :: t in log ==> DateStart(t.tradedOn) <= hour
    ensures UpTo(log, hour) == log
  {
    if log == [] {
    } else {
      UpToAll(log[1..], hour);
    }
  }

  /** By the last hour the replay is that of the whole log. */
  lemma LastStateIsProjection(b: Books, key: Key, hour: int)
    requires Accepted(b.transactions, key) && Dated(b, ServerDay(hour))
    ensures var log := LogOf(b.transactions, key);
            && StateAt(log, hour) == Replay(Sort(log)) && StateAt(log, hour).Ok?
            && Quantity(StateAt(log, hour).value) == if Project(log).Held? then Quantity(Project(log).lots) else 0
  {
    var log := LogOf(b.transactions, key);
    forall t | t in log ensures DateStart(t.tradedOn) <= hour {
      InLog(b.transactions, key, t);
      DayHasBegun(t.tradedOn, hour);
    }
    UpToAll(log, hour);
    if !Project(log).Held? && log != [] {
      DriftIsBounded(Sort(log));
      QueueLength(Replay(Sort(log)).value);
    }
  }

  /** The last hour's replayed quantity of a security in agreement is that of its row, or zero without one. */
  lemma HoldingEndsLive(b: Books, key: Key, hour: int)
    requires Agrees(b, key) && Dated(b, ServerDay(hour))
    ensures StateAt(LogOf(b.transactions, key), hour).Ok?
    ensures forall h :: h in RowsOf(b, key) ==>
              Quantity(StateAt(LogOf(b.transactions, key), hour).value) == b.holdings[h].quantity
    ensures RowsOf(b, key) == {} ==> Quantity(StateAt(LogOf(b.transactions, key), hour).value) == 0
  {
    LastStateIsProjection(b, key, hour);
    var log := LogOf(b.transactions, key);
    if Project(log).Held? {
      var h :| RowsOf(b, key) == {h} && Shows(b.holdings[h], log, Project(log).lots, key);
    }
  }

  // ---- every reachable state ----

  /** The cash of the curve ends at the live state, in every reachable state: an account's last balance is the stored
      one exactly when its opening entry has come into effect. */
  lemma CashOfEveryRunEndsLive(history: History, a: int, hour: int)
    requires ClockRuns(history) && a in Run(history).accounts
    requires history != [] ==> history[|history| - 1].0.today <= ServerDay(hour)
    ensures var b := Run(history);
            && |Select(b.entries, InitialOf(a))| == 1
            && (BalanceAt(b.entries, a, hour) == b.accounts[a].balance
                <==> Opening(b, a).happenedOn <= ServerDay(hour) || Opening(b, a).amount == 0)
  {
    EveryRunKeepsInv(history);
    EveryRunIsDated(history, ServerDay(hour));
    CashEndsLive(Run(history), a, hour);
  }

  /** The curve of every reachable state can be rebuilt, and its holdings end at the live state: the last state of
      each log is its projection, and a security's row has its quantity wherever the row agrees with the log. */
  lemma CurveEndsLive(history: History, hour: int)
    requires ClockRuns(history)
    requires history != [] ==> history[|history| - 1].0.today <= ServerDay(hour)
    ensures var b := Run(history);
            && (forall src: Source :: src.log == b.transactions && src.now == hour ==> Replayable(src))
            && (forall key :: StateAt(LogOf(b.transactions, key), hour) == Replay(Sort(LogOf(b.transactions, key))))
            && (forall h :: h in b.holdings && Agrees(b, b.holdings[h].key) ==>
                  StateAt(LogOf(b.transactions, b.holdings[h].key), hour).Ok?
                  && Quantity(StateAt(LogOf(b.transactions, b.holdings[h].key), hour).value) == b.holdings[h].quantity)
  {
    var b := Run(history);
    EveryRunIsDated(history, ServerDay(hour));
    EveryLogReplays(history);
    forall key
      ensures StateAt(LogOf(b.transactions, key), hour) == Replay(Sort(LogOf(b.transactions, key)))
      ensures StateAt(LogOf(b.transactions, key), hour).Ok?
    {
      assert Accepted(b.transactions, key);
      LastStateIsProjection(b, key, hour);
    }
    forall h | h in b.holdings && Agrees(b, b.holdings[h].key)
      ensures Quantity(StateAt(LogOf(b.transactions, b.holdings[h].key), hour).value) == b.holdings[h].quantity
    {
      assert h in RowsOf(b, b.holdings[h].key);
      HoldingEndsLive(b, b.holdings[h].key, hour);
    }
  }

  /** An account opened for tomorrow: the curve of today does not show its balance. */
  lemma FutureOpeningIsNotShown()
    ensures var env := Env(10, 10, 1, map[], map[]);
            var b := CreateAccount(EMPTY_BOOKS, env, AccountForm(CNY, 500, "bank", Given(Some(11)))).value;
            && 1 in b.accounts && b.accounts[1].balance == 500
            && BalanceAt(b.entries, 1, DateStart(10)) == 0
  {
    var env := Env(10, 10, 1, map[], map[]);
    var form := AccountForm(CNY, 500, "bank", Given(Some(11)));
    EmptyInv();
    AccountHasRequestedBalance(EMPTY_BOOKS, env, 1, form);
    CreateAccountIs(EMPTY_BOOKS, env, form);
    var b := CreateAccount(EMPTY_BOOKS, env, form).value;
    assert b.entries == [OpeningEntry(1, 1, NewAccountRow(env, form), 500)];
    assert b.entries[1..] == [] && ServerDay(DateStart(10)) == 10;
    assert Select(b.entries, Until(10)) == [];
  }
}
