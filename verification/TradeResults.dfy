/** The cash of a trade: what settling moves, in terms of quantity, price and rate, and what reversing gives back. */
module TradeResults {
  import opened Fixed
  import opened Wrappers
  import opened Trades
  import opened Tables
  import opened Bookkeeping
  import opened LedgerInvariant
  import opened TradeInvariant

  // ---- the cash of a trade ----

  /** The gross amount is the unit nearest to quantity times price, and the worth what that is worth in the currency of
      the account. */
  ghost predicate Priced(env: Env, t: Transaction, currency: Currency, gross: int, worth: int) {
    t.price.Some? && IsNearest(t.quantity * t.price.value, 100_000_000, gross)
    && IsWorth(env, gross, t.currency, currency, worth)
  }

  /** The one entry of the trade lies on the account, on the trade's day, in the account's currency. */
  ghost predicate OneEntry(r: Books, t: Transaction, a: int, amount: int)
    requires a in r.accounts
  {
    var legs := Select(r.entries, OfTransaction(t.id));
    && |legs| == 1 && legs[0].account == a && legs[0].amount == amount
    && legs[0].currency == r.accounts[a].currency && legs[0].happenedOn == t.tradedOn
  }

  /** An account is credited or debited with what the trade is worth, and nothing else moves. */
  ghost predicate CashMoved(b: Books, r: Books, env: Env, t: Transaction, a: int, inflow: bool, gross: int, worth: int)
  {
    && a in r.accounts && Priced(env, t, r.accounts[a].currency, gross, worth)
    && OneEntry(r, t, a, if inflow then worth else -worth)
    && r.accounts[a].balance
       == (if a in b.accounts then b.accounts[a].balance else 0) + (if inflow then worth else -worth)
    && (forall c :: c in b.accounts && c != a ==> c in r.accounts && r.accounts[c] == b.accounts[c])
    && t.id in r.settlements && r.settlements[t.id].account == a && r.settlements[t.id].amount == worth
    && r.settlements[t.id].direction == (if inflow then Inflow else Outflow)
    && r.settlements[t.id].sourceAmount == gross && r.settlements[t.id].sourceCurrency == t.currency
    && (forall x :: x in b.settlements && x != t.id ==> x in r.settlements && r.settlements[x] == b.settlements[x])
    && r.settlements.Keys == b.settlements.Keys + {t.id}
  }

  lemma GrossIsNearest(t: Transaction)
    requires t.price.Some?
    ensures IsNearest(t.quantity * t.price.value, 100_000_000, Gross(t))
  {
    RoundDivIsNearest(t.quantity * t.price.value, SCALE);
  }

  lemma GrossIsUnique(t: Transaction, gross: int)
    requires t.price.Some? && IsNearest(t.quantity * t.price.value, 100_000_000, gross)
    ensures gross == Gross(t)
  {
    NearestIsUnique(t.quantity * t.price.value, SCALE, gross);
  }

  lemma BookedMovesCash(b: Books, env: Env, t: Transaction, s: Settlement)
    requires Inv(b) && t.id !in b.settlements && Select(b.entries, OfTransaction(t.id)) == []
    requires s.account in b.accounts && s.currency == b.accounts[s.account].currency
    requires Priced(env, t, s.currency, s.sourceAmount, s.amount) && s.sourceCurrency == t.currency
    ensures CashMoved(b, Booked(b, t.id, s, t.tradedOn), env, t, s.account, s.direction.Inflow?, s.sourceAmount,
                      s.amount)
    ensures Booked(b, t.id, s, t.tradedOn).accounts.Keys == b.accounts.Keys
  {
    var r := Booked(b, t.id, s, t.tradedOn);
    var e := r.entries[|b.entries|];
    AppendOne(b.entries, e);
    AppendMovesOneBalance(b.entries, e);
    assert r.entries == b.entries + [e];
    assert Select(r.entries, OfTransaction(t.id)) == [e];
  }

  /** When a trade can be settled: proceeds in a new account always, otherwise when the account is there, the worth is
      known, and a purchase is covered up to a unit. */
  ghost predicate CanSettle(b: Books, env: Env, t: Transaction, plan: Plan) {
    match plan
    case NoCash => true
    case NewAccount => true
    case AddTo(a) =>
      a in b.accounts && exists gross, worth :: Priced(env, t, b.accounts[a].currency, gross, worth)
    case Deduct(a) =>
      a in b.accounts && exists gross, worth ::
        Priced(env, t, b.accounts[a].currency, gross, worth) && b.accounts[a].balance + 1 >= worth
  }

  lemma SettlesExactlyWhen(b: Books, env: Env, t: Transaction, plan: Plan)
    requires t.price.Some?
    ensures Settle(b, env, t, plan).Ok? <==> CanSettle(b, env, t, plan)
  {
    GrossIsNearest(t);
    if (plan.AddTo? || plan.Deduct?) && plan.account in b.accounts {
      var currency := b.accounts[plan.account].currency;
      ConvertedIsWorth(env, Gross(t), t.currency, currency);
      if Settle(b, env, t, plan).Ok? {
        assert Priced(env, t, currency, Gross(t), Convert(env, Gross(t), t.currency, currency).value);
      }
      if CanSettle(b, env, t, plan) {
        var gross, worth :| Priced(env, t, currency, gross, worth)
          && (plan.Deduct? ==> b.accounts[plan.account].balance + 1 >= worth);
        GrossIsUnique(t, gross);
      }
    }
  }

  /** What settling does: proceeds open an account in the trade's currency with the gross amount in it, or are credited
      to the named one; funding is debited from the named one. */
  ghost predicate Settled(b: Books, r: Books, env: Env, t: Transaction, plan: Plan) {
    match plan
    case NoCash => r == b
    case NewAccount =>
      var a := b.next.account;
      && a !in b.accounts && r.accounts.Keys == b.accounts.Keys + {a}
      && r.accounts[a].currency == t.currency && r.accounts[a].startedOn == Some(t.tradedOn)
      && exists gross, worth :: CashMoved(b, r, env, t, a, true, gross, worth)
    case AddTo(a) =>
      r.accounts.Keys == b.accounts.Keys && exists gross, worth :: CashMoved(b, r, env, t, a, true, gross, worth)
    case Deduct(a) =>
      r.accounts.Keys == b.accounts.Keys && exists gross, worth :: CashMoved(b, r, env, t, a, false, gross, worth)
  }

  /** The books with the proceeds account open and empty. */
  lemma EmptyProceedsAccount(b: Books, env: Env, t: Transaction)
    requires Inv(b) && t.id !in b.settlements && Live(b, t.id)
    ensures var a := b.next.account;
            var r := Rebalance(WithAccount(b, a, ProceedsAccount(env, t), 0));
      && Inv(r) && a !in b.accounts && r.accounts.Keys == b.accounts.Keys + {a}
      && r.accounts[a] == ProceedsAccount(env, t)
      && (forall c :: c in b.accounts ==> r.accounts[c] == b.accounts[c])
      && Select(r.entries, OfTransaction(t.id)) == []
  {
    var a, row := b.next.account, ProceedsAccount(env, t);
    OpenAccount(b, a, row, 0);
    RebalanceGivesInv(WithAccount(b, a, row, 0));
    EmptyAccountMovesNothing(b, a, row);
    AppendOne(b.entries, OpeningEntry(b.next.entry, a, row, 0));
    UnsettledHasNoEntry(b, t);
  }

  lemma EmptyAccountMovesNothing(b: Books, a: int, row: Account)
    requires Balanced(b) && EntriesPlaced(b) && a !in b.accounts && row.balance == 0
    ensures var r := Rebalance(WithAccount(b, a, row, 0));
      && r.accounts.Keys == b.accounts.Keys + {a} && r.accounts[a] == row
      && forall c :: c in b.accounts ==> r.accounts[c] == b.accounts[c]
  {
    AppendMovesOneBalance(b.entries, OpeningEntry(b.next.entry, a, row, 0));
    forall e | e in b.entries ensures e.account != a { assert Placed(b, e); }
    BalanceElsewhere(b.entries, a);
  }

  lemma SettledProceeds(b: Books, env: Env, t: Transaction)
    requires Inv(b) && t.price.Some? && t.id !in b.settlements && Live(b, t.id)
    ensures Settled(b, Settle(b, env, t, NewAccount).value, env, t, NewAccount)
  {
    var a := b.next.account;
    var with := WithAccount(b, a, ProceedsAccount(env, t), 0);
    var s := Settlement(a, CreateNewCash, Gross(t), t.currency, Gross(t), t.currency, Inflow, true);
    EmptyProceedsAccount(b, env, t);
    GrossIsNearest(t);
    BookedMovesCash(Rebalance(with), env, t, s);
    BookedIgnoresBalances(with, t.id, s, t.tradedOn);
    MovedFromEmpty(b, Rebalance(with), Settle(b, env, t, NewAccount).value, env, t, a, Gross(t));
  }

  /** Crediting an account that has just been opened, seen from before. */
  lemma MovedFromEmpty(b: Books, with: Books, r: Books, env: Env, t: Transaction, a: int, gross: int)
    requires CashMoved(with, r, env, t, a, true, gross, gross) && a !in b.accounts
    requires with.accounts.Keys == b.accounts.Keys + {a} && with.accounts[a].balance == 0
    requires forall c :: c in b.accounts ==> with.accounts[c] == b.accounts[c]
    requires with.settlements == b.settlements
    ensures CashMoved(b, r, env, t, a, true, gross, gross)
  {
  }

  lemma BookedIgnoresBalances(b: Books, x: int, s: Settlement, on: int)
    ensures Booked(Rebalance(b), x, s, on) == Booked(b, x, s, on)
  {
    assert Booked(Rebalance(b), x, s, on).accounts == Booked(b, x, s, on).accounts;
  }

  /** A recorded trade without a settlement has no entry. */
  lemma UnsettledHasNoEntry(b: Books, t: Transaction)
    requires Inv(b) && t.id !in b.settlements && Live(b, t.id)
    ensures Select(b.entries, OfTransaction(t.id)) == []
  {
    var u :| u in b.transactions && u.id == t.id;
    assert NoStrays(b);
  }

  lemma SettledOnAccount(b: Books, env: Env, t: Transaction, plan: Plan)
    requires Inv(b) && t.price.Some? && t.id !in b.settlements && Live(b, t.id) && Settle(b, env, t, plan).Ok?
    requires plan.AddTo? || plan.Deduct?
    ensures Settled(b, Settle(b, env, t, plan).value, env, t, plan)
  {
    var a, r := plan.account, Settle(b, env, t, plan).value;
    var currency := b.accounts[a].currency;
    var amount := Convert(env, Gross(t), t.currency, currency).value;
    UnsettledHasNoEntry(b, t);
    GrossIsNearest(t);
    ConvertedIsWorth(env, Gross(t), t.currency, currency);
    BookedMovesCash(b, env, t,
      if plan.AddTo? then Settlement(a, AddToExistingCash, amount, currency, Gross(t), t.currency, Inflow, false)
      else Settlement(a, DeductFromExistingCash, amount, currency, Gross(t), t.currency, Outflow, false));
    assert CashMoved(b, r, env, t, a, plan.AddTo?, Gross(t), amount);
  }

  /** Settling succeeds exactly when it can, and then moves exactly what the trade is worth. */
  lemma SettlementMovesWorth(b: Books, env: Env, t: Transaction, plan: Plan)
    requires Inv(b) && t.price.Some? && t.id !in b.settlements && Live(b, t.id)
    ensures Settle(b, env, t, plan).Ok? <==> CanSettle(b, env, t, plan)
    ensures Settle(b, env, t, plan).Ok? ==> Settled(b, Settle(b, env, t, plan).value, env, t, plan)
  {
    SettlesExactlyWhen(b, env, t, plan);
    if Settle(b, env, t, plan).Ok? {
      match plan
      case NoCash =>
      case NewAccount => SettledProceeds(b, env, t);
      case AddTo(_) => SettledOnAccount(b, env, t, plan);
      case Deduct(_) => SettledOnAccount(b, env, t, plan);
    }
  }

  // ---- taking the cash back ----

  /** The account loses what the trade credited, or gets back what it was debited. */
  function BalanceBack(b: Books, s: Settlement): int
    requires s.account in b.accounts
  {
    var balance := b.accounts[s.account].balance;
    match s.direction
    case Inflow => balance - s.amount
    case Outflow => balance + s.amount
  }

  /** A proceeds account goes when giving the money back leaves at most a unit in it and nothing else was booked. */
  ghost predicate Closes(b: Books, x: int, s: Settlement)
    requires s.account in b.accounts
  {
    && s.autoCreated && b.accounts[s.account].platform == PROCEEDS_PLATFORM && BalanceBack(b, s) <= 1
    && forall e :: e in b.entries && e.account == s.account ==> e.kind == InitialBalance || e.transaction == Some(x)
  }

  /** Exactly the entry of the settlement goes, the account is moved back or closed, and nothing else changes. */
  ghost predicate TakenBack(b: Books, r: Books, x: int)
    requires x in b.settlements && b.settlements[x].account in b.accounts
  {
    var s := b.settlements[x];
    var a := s.account;
    && r.settlements.Keys == b.settlements.Keys - {x}
    && (forall y :: y in r.settlements ==> r.settlements[y] == b.settlements[y])
    && (if Closes(b, x, s) then r.accounts.Keys == b.accounts.Keys - {a}
        else r.accounts.Keys == b.accounts.Keys
             && r.accounts[a] == b.accounts[a].(balance := BalanceBack(b, s)))
    && (forall c :: c in r.accounts && c != a ==> r.accounts[c] == b.accounts[c])
    && (forall e :: e in r.entries <==>
          e in b.entries && e.transaction != Some(x) && (Closes(b, x, s) ==> e.account != a))
    && r.transfers == b.transfers && r.transactions == b.transactions && r.holdings == b.holdings
  }

  lemma LiftedAccounts(b: Books, x: int)
    requires Inv(b) && x in b.settlements && b.settlements[x].account in b.accounts
    ensures var r, a := Lifted(b, x), b.settlements[x].account;
      && r.accounts.Keys == b.accounts.Keys
      && r.accounts[a] == b.accounts[a].(balance := BalanceBack(b, b.settlements[x]))
      && forall c :: c in b.accounts && c != a ==> r.accounts[c] == b.accounts[c]
  {
    var s := b.settlements[x];
    var legs := Select(b.entries, OfTransaction(x));
    assert Linked(b, x);
    assert legs == [legs[0]] && legs[0].account == s.account;
    assert [] + [legs[0]] == legs;
    AppendMovesOneBalance([], legs[0]);
    forall c | c in b.accounts
      ensures Balance(Without(b.entries, OfTransaction(x)), c)
           == b.accounts[c].balance - (if c == s.account then legs[0].amount else 0)
    {
      BalanceWithout(b.entries, OfTransaction(x), c);
    }
  }

  lemma LiftedIsAbandoned(b: Books, x: int)
    requires Inv(b) && x in b.settlements && b.settlements[x].account in b.accounts
    ensures Abandoned(Lifted(b, x), b.settlements[x]) <==> Closes(b, x, b.settlements[x])
  {
    var a, q := b.settlements[x].account, OfTransaction(x);
    var es := Without(b.entries, q);
    LiftedAccounts(b, x);
    forall e ensures e in Select(es, NonInitialOf(a))
        <==> e in b.entries && e.account == a && e.kind != InitialBalance && e.transaction != Some(x)
    {
      InSelect(es, NonInitialOf(a), e);
      InWithout(b.entries, q, e);
    }
    if Select(es, NonInitialOf(a)) != [] {
      assert Select(es, NonInitialOf(a))[0] in Select(es, NonInitialOf(a));
    }
  }

  /** Reversing a trade takes back exactly what its settlement moved. */
  lemma ReversalTakesBack(b: Books, x: int)
    requires Inv(b)
    ensures x !in b.settlements ==> Unsettle(b, x) == b
    ensures x in b.settlements ==> b.settlements[x].account in b.accounts && TakenBack(b, Unsettle(b, x), x)
  {
    if x in b.settlements {
      SettlementAccountExists(b, x);
      LiftedAccounts(b, x);
      LiftedIsAbandoned(b, x);
      forall e ensures e in Unsettle(b, x).entries <==>
        e in b.entries && e.transaction != Some(x)
        && (Closes(b, x, b.settlements[x]) ==> e.account != b.settlements[x].account)
      {
        InWithout(b.entries, OfTransaction(x), e);
        InWithout(Without(b.entries, OfTransaction(x)), OfAccount(b.settlements[x].account), e);
      }
    }
  }
}
