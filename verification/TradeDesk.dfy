/** The trade and holding requests, step by step on a session. */
module TradeDesk {
  import opened Fixed
  import opened Wrappers
  import opened Trades
  import opened Lots
  import opened Projection
  import opened HoldingState
  import opened Tables
  import opened Bookkeeping
  import opened LedgerInvariant
  import opened TradeInvariant
  import opened CashLedger

  // ---- the holding projection ----

  /** Keeps the first holding row of the security, drops the others, and writes the projection of
      the log into it; without a projection the row goes, without a row one is added. */
  method SyncHolding(s: Session, env: Env, key: Key) returns (accepted: bool)
    modifies s`holdings, s`next
    ensures accepted <==> Materialise(old(s.Rows()), env, key).Ok?
    ensures accepted ==> s.Rows() == Materialise(old(s.Rows()), env, key).value
  {
    ghost var b := s.Rows();
    var rows := set h | h in s.holdings && s.holdings[h].key == key;
    assert rows == RowsOf(b, key);
    var log := LogOf(s.transactions, key);
    var projected := ProjectState(log);
    if rows != {} {
      s.holdings := s.holdings - (rows - {Least(rows)});
    }
    if projected.Rejected? {
      return false;
    }
    if projected.Empty? {
      if rows != {} {
        s.holdings := s.holdings - {Least(rows)};
      }
      assert s.holdings == b.holdings - rows;
      return true;
    }
    SortSorts(log);
    assert log[0] in multiset(Sort(log));
    if rows == {} {
      s.holdings := s.holdings[s.next.holding := Materialised(log, projected.lots, key, env.today)];
      s.next := s.next.(holding := s.next.holding + 1);
    } else {
      s.holdings := WritePrimary(s.holdings, key, Least(rows), log, projected.lots);
      PrimaryReplacesRows(b.holdings, rows, Least(rows), s.holdings[Least(rows)]);
    }
    return true;
  }

  /** Writes a projection into a row, field by field. */
  method WritePrimary(holdings: map<int, Holding>, key: Key, primary: int, log: seq<Transaction>, lots: seq<Lot>)
    returns (written: map<int, Holding>)
    requires primary in holdings && holdings[primary].key == key && Sort(log) != []
    ensures written == holdings[primary := Materialised(log, lots, key, holdings[primary].createdOn)]
  {
    var row := holdings[primary].(
      quantity := Quantity(lots), cost := CostBasis(lots),
      startedOn := StartedOn(lots), currency := LogCurrency(Sort(log)));
    written := holdings[primary := row];
  }

  /** Dropping the other rows and writing the primary one is dropping all rows and adding it. */
  lemma PrimaryReplacesRows(holdings: map<int, Holding>, rows: set<int>, primary: int, row: Holding)
    requires primary in rows
    ensures (holdings - (rows - {primary}))[primary := row] == (holdings - rows)[primary := row]
  {
  }

  method AddTransaction(s: Session, t: Transaction)
    requires t.id == s.next.transaction
    modifies s`transactions, s`next
    ensures s.Rows() == Logged(old(s.Rows()), t)
  {
    s.transactions := s.transactions + [t];
    s.next := s.next.(transaction := t.id + 1);
  }

  method PutBaseline(s: Session, env: Env, key: Key)
    modifies s`transactions, s`next
    ensures s.Rows() == EnsureBaseline(old(s.Rows()), env, key)
  {
    var rows := set h | h in s.holdings && s.holdings[h].key == key;
    assert rows == RowsOf(s.Rows(), key);
    if rows != {} && LogOf(s.transactions, key) == [] {
      AddTransaction(s, BaselineOf(s.next.transaction, s.holdings[Least(rows)], env.now));
    }
  }

  // ---- settling in cash ----

  /** Writes the entry of a settlement, recomputes the account and records the settlement. */
  method BookSettlement(s: Session, x: int, settlement: Settlement, on: int)
    requires Balanced(s.Rows()) && settlement.account in s.accounts
    modifies s`accounts, s`entries, s`settlements, s`next
    ensures s.Rows() == Booked(old(s.Rows()), x, settlement, on)
  {
    ghost var b := s.Rows();
    var inflow := settlement.direction.Inflow?;
    CreateEntry(s, settlement.account, if inflow then SellProceeds else BuyFunding,
                if inflow then settlement.amount else -settlement.amount, settlement.currency, on, Some(x), None);
    AppendMovesOneBalance(b.entries, s.entries[|b.entries|]);
    SyncBalance(s, settlement.account);
    s.settlements := s.settlements[x := settlement];
    RebalanceMeets(b.(entries := s.entries, settlements := s.settlements, next := s.next), s.Rows());
  }

  /** Opens an account with an empty opening balance. */
  method OpenEmptyAccount(s: Session, account: Account) returns (a: int)
    requires Inv(s.Rows())
    modifies s`accounts, s`entries, s`next
    ensures a == old(s.next).account
    ensures s.Rows() == Rebalance(WithAccount(old(s.Rows()), a, account, 0)) && Balanced(s.Rows())
  {
    ghost var b := s.Rows();
    a := s.next.account;
    forall e | e in b.entries ensures e.account != a { assert Placed(b, e); }
    NothingMatches(b.entries, InitialOf(a));
    BalanceElsewhere(b.entries, a);
    s.accounts := s.accounts[a := account];
    s.next := s.next.(account := a + 1);
    ReconcileOpening(s, a, 0);
  }

  lemma BookedAfterRebalance(b: Books, x: int, s: Settlement, on: int)
    ensures Booked(Rebalance(b), x, s, on) == Booked(b, x, s, on)
  {
    assert Booked(Rebalance(b), x, s, on).accounts == Booked(b, x, s, on).accounts;
  }

  /** Opens an account for the proceeds of a sale. */
  method OpenProceedsAccount(s: Session, env: Env, t: Transaction)
    requires Inv(s.Rows()) && t.price.Some?
    modifies s`accounts, s`entries, s`settlements, s`next
    ensures s.Rows() == Settle(old(s.Rows()), env, t, NewAccount).value
  {
    ghost var b := s.Rows();
    var a := OpenEmptyAccount(s, ProceedsAccount(env, t));
    var settlement := Settlement(a, CreateNewCash, Gross(t), t.currency, Gross(t), t.currency, Inflow, true);
    BookSettlement(s, t.id, settlement, t.tradedOn);
    BookedAfterRebalance(WithAccount(b, a, ProceedsAccount(env, t), 0), t.id, settlement, t.tradedOn);
  }

  /** Moves the cash of a trade on an existing account. */
  method MoveCash(s: Session, env: Env, t: Transaction, a: int, handling: Handling) returns (failure: Option<Failure>)
    requires Balanced(s.Rows()) && t.price.Some?
    requires handling.AddToExistingCash? || handling.DeductFromExistingCash?
    modifies s`accounts, s`entries, s`settlements, s`next
    ensures var plan := if handling.AddToExistingCash? then AddTo(a) else Deduct(a);
            match Settle(old(s.Rows()), env, t, plan)
            case Ok(b) => failure == None && s.Rows() == b
            case Err(f) => failure == Some(f)
  {
    if a !in s.accounts {
      return Some(NotFound);
    }
    var account := s.accounts[a];
    var converted := Convert(env, Gross(t), t.currency, account.currency);
    if converted.Err? {
      return Some(converted.error);
    }
    var inflow := handling.AddToExistingCash?;
    if !inflow && account.balance + EPSILON < converted.value {
      return Some(Unprocessable);
    }
    BookSettlement(s, t.id, Settlement(a, handling, converted.value, account.currency, Gross(t), t.currency,
                                       if inflow then Inflow else Outflow, false), t.tradedOn);
    return None;
  }

  method SettleTrade(s: Session, env: Env, t: Transaction, plan: Plan) returns (failure: Option<Failure>)
    requires Inv(s.Rows()) && t.price.Some?
    modifies s`accounts, s`entries, s`settlements, s`next
    ensures match Settle(old(s.Rows()), env, t, plan)
            case Ok(b) => failure == None && s.Rows() == b
            case Err(f) => failure == Some(f)
  {
    match plan {
      case NoCash => failure := None;
      case NewAccount =>
        OpenProceedsAccount(s, env, t);
        failure := None;
      case AddTo(a) => failure := MoveCash(s, env, t, a, AddToExistingCash);
      case Deduct(a) => failure := MoveCash(s, env, t, a, DeductFromExistingCash);
    }
  }

  /** The entries of a settled transaction lie on the settlement's account. */
  ghost predicate EntriesOnAccount(b: Books, x: int) {
    x in b.settlements ==>
      forall e :: e in b.entries && e.transaction == Some(x) ==> e.account == b.settlements[x].account
  }

  /** Takes back the cash side of a trade.  A settlement whose account is gone is just dropped. */
  method ReverseSettlement(s: Session, x: int)
    requires Balanced(s.Rows()) && IncreasingIds(s.entries) && EntriesOnAccount(s.Rows(), x)
    modifies s`accounts, s`entries, s`settlements
    ensures s.Rows() == Unsettle(old(s.Rows()), x)
  {
    ghost var b := s.Rows();
    if x !in s.settlements {
      return;
    }
    var settlement := s.settlements[x];
    var a := settlement.account;
    DeleteSelected(s, OfTransaction(x));
    forall c | c in s.accounts && c != a ensures Balance(s.entries, c) == Balance(b.entries, c) {
      SelectAfterWithout(b.entries, OfTransaction(x), OfAccount(c));
    }
    s.settlements := s.settlements - {x};
    if a in s.accounts {
      SyncBalance(s, a);
    }
    RebalanceMeets(b.(entries := s.entries, settlements := s.settlements), s.Rows());
    if a in s.accounts && settlement.autoCreated && s.accounts[a].platform == PROCEEDS_PLATFORM
       && s.accounts[a].balance <= EPSILON && Select(s.entries, NonInitialOf(a)) == []
    {
      DeleteSelected(s, OfAccount(a));
      s.accounts := s.accounts - {a};
    }
  }

  lemma SettledEntriesOnAccount(b: Books, x: int)
    requires Inv(b)
    ensures EntriesOnAccount(b, x)
  {
    if x in b.settlements {
      forall e | e in b.entries && e.transaction == Some(x) ensures e.account == b.settlements[x].account {
        CarriesSettlement(b, e);
      }
    }
  }

  // ---- transaction requests ----

  method CreateTransactionRequest(s: Session, env: Env, form: TradeForm) returns (failure: Option<Failure>)
    requires s.Ready()
    modifies s
    ensures Outcome(old(s.committed), s.committed, CreateTransaction(old(s.committed), env, form), failure)
  {
    ghost var b := s.Rows();
    if form.tradedOn > env.today || !PlanFitsSide(form.side, form.plan)
       || !QuantityFitsMarket(form.quantity, form.key.market) {
      return Some(Unprocessable);
    }
    PutBaseline(s, env, form.key);
    EnsureBaselineKeeps(b, env, form.key);
    ghost var based := s.Rows();
    var price, currency := PositivePrice(form.price), form.currency;
    if form.side.Sell? {
      var projected := ProjectState(LogOf(s.transactions, form.key));
      if projected.Rejected? {
        return Some(Unprocessable);
      }
      var available := if projected.Held? then Quantity(projected.lots) else 0;
      if available + EPSILON < form.quantity {
        return Some(Unprocessable);
      }
      var executed := ExecutionPrice(env, form);
      if executed.Err? {
        return Some(executed.error);
      }
      price, currency := Some(executed.value.0), executed.value.1;
    }
    assert TradeTerms(based, env, form) == Ok((price, currency));
    var t := Transaction(s.next.transaction, form.key, form.side, form.quantity, price, currency,
                         form.tradedOn, env.now);
    AddTransaction(s, t);
    var accepted := SyncHolding(s, env, form.key);
    if !accepted {
      return Some(Unprocessable);
    }
    if price.Some? {
      TradeKeeps(based, env, t, form.plan);
      failure := SettleTrade(s, env, t, form.plan);
      if failure.Some? {
        return failure;
      }
    }
    s.Commit();
    return None;
  }

  method DeleteTransactionRequest(s: Session, env: Env, id: int) returns (failure: Option<Failure>)
    requires s.Ready()
    modifies s
    ensures Outcome(old(s.committed), s.committed, DeleteTransaction(old(s.committed), env, id), failure)
  {
    ghost var b := s.Rows();
    var found := FindTransaction(s.transactions, id);
    if found.None? {
      return Some(NotFound);
    }
    SettledEntriesOnAccount(b, id);
    UnsettleKeeps(b, id);
    ReverseSettlement(s, id);
    s.transactions := RemoveTransaction(s.transactions, id);
    var accepted := SyncHolding(s, env, found.value.key);
    if !accepted {
      return Some(Unprocessable);
    }
    s.Commit();
    return None;
  }

  method UpdateTransactionRequest(s: Session, env: Env, id: int, patch: TradePatch)
    returns (failure: Option<Failure>)
    requires s.Ready()
    modifies s
    ensures Outcome(old(s.committed), s.committed, UpdateTransaction(old(s.committed), env, id, patch), failure)
  {
    ghost var b := s.Rows();
    var found := FindTransaction(s.transactions, id);
    if found.None? {
      return Some(NotFound);
    }
    var refused := CheckTradePatch(env, found.value, patch);
    if refused.Some? {
      return refused;
    }
    var original := if id in s.settlements then Some(s.settlements[id]) else None;
    SettledEntriesOnAccount(b, id);
    UnsettleKeeps(b, id);
    ReverseSettlement(s, id);
    var t := Patched(found.value, patch);
    s.transactions := ReplaceTransaction(s.transactions, t);
    ghost var edited := s.Rows();
    Found(b.transactions, id);
    ReplaceTransactionKeeps(Unsettle(b, id), t);
    var accepted := SyncHolding(s, env, t.key);
    if !accepted {
      return Some(Unprocessable);
    }
    MaterialiseKeeps(edited, env, t.key);
    var plan := UpdatePlan(t, patch, original);
    if plan.Err? {
      return Some(plan.error);
    }
    if t.price.Some? {
      failure := SettleTrade(s, env, t, plan.value);
      if failure.Some? {
        return failure;
      }
    }
    s.Commit();
    return None;
  }

  // ---- holding requests ----

  method CreateHoldingRequest(s: Session, env: Env, form: HoldingForm) returns (failure: Option<Failure>)
    requires s.Ready()
    modifies s
    ensures Outcome(old(s.committed), s.committed, CreateHolding(old(s.committed), env, form), failure)
  {
    if form.startedOn.Some? && form.startedOn.value > env.today {
      return Some(Unprocessable);
    }
    if !QuantityFitsMarket(form.quantity, form.key.market) {
      return Some(Unprocessable);
    }
    var row := EnteredRow(env, form);
    s.holdings := s.holdings[s.next.holding := row];
    s.next := s.next.(holding := s.next.holding + 1);
    s.settlements := s.settlements - TransactionsOf(s.transactions, form.key);
    s.transactions := RemoveLog(s.transactions, form.key);
    if row.quantity > EPSILON {
      AddTransaction(s, BaselineOf(s.next.transaction, row, env.now));
    }
    s.Commit();
    return None;
  }

  method UpdateHoldingRequest(s: Session, env: Env, h: int, patch: HoldingPatch) returns (failure: Option<Failure>)
    requires s.Ready()
    modifies s
    ensures Outcome(old(s.committed), s.committed, UpdateHolding(old(s.committed), env, h, patch), failure)
  {
    ghost var b := s.Rows();
    if h !in s.holdings {
      return Some(NotFound);
    }
    if !Corrects(patch) {
      return None;
    }
    var row := s.holdings[h];
    var started := CheckHoldingPatch(env, row, patch);
    if started.Err? {
      return Some(started.error);
    }
    var rows := set k | k in s.holdings && s.holdings[k].key == row.key;
    assert rows == RowsOf(b, row.key) && h in rows;
    var log := NewestFirst(LogOf(s.transactions, row.key));
    var quantity := ValueOr(patch.quantity, row.quantity);
    var cost := if patch.cost.Given? then patch.cost.value else row.cost;
    if log != [] && started.value <= log[|log| - 1].tradedOn {
      var t := log[|log| - 1].(side := Adjust, quantity := quantity, price := cost,
                               currency := row.currency, tradedOn := started.value);
      s.transactions := ReplaceTransaction(s.transactions, t);
    } else {
      AddTransaction(s, Transaction(s.next.transaction, row.key, Adjust, quantity, cost, row.currency,
                                    started.value, env.now));
    }
    assert s.Rows() == Corrected(b, env, row, patch, started.value);
    var accepted := SyncHolding(s, env, row.key);
    if !accepted {
      return Some(Unprocessable);
    }
    var projected := ProjectState(LogOf(s.transactions, row.key));
    if !projected.Held? {
      if h != Least(rows) {
        return Some(Internal);
      }
      s.holdings := s.holdings[h := row];
    }
    s.Commit();
    return None;
  }

  method DeleteHoldingRequest(s: Session, h: int) returns (failure: Option<Failure>)
    requires s.Ready()
    modifies s
    ensures Outcome(old(s.committed), s.committed, DeleteHolding(old(s.committed), h), failure)
  {
    ghost var b := s.Rows();
    if h !in s.holdings {
      return Some(NotFound);
    }
    var key := s.holdings[h].key;
    var log := NewestFirst(LogOf(s.transactions, key));
    assert log[0..] == log;
    for i := 0 to |log|
      invariant Inv(s.Rows())
      invariant s.Rows() == b.(accounts := s.accounts, entries := s.entries, settlements := s.settlements)
      invariant s.committed == b
      invariant UnsettleSales(s.Rows(), log[i..]) == UnsettleSales(b, log)
    {
      assert log[i..][1..] == log[i + 1..];
      if log[i].side.Sell? {
        SettledEntriesOnAccount(s.Rows(), log[i].id);
        UnsettleKeeps(s.Rows(), log[i].id);
        ReverseSettlement(s, log[i].id);
      }
    }
    assert log[|log|..] == [];
    s.settlements := s.settlements - TransactionsOf(s.transactions, key);
    s.transactions := RemoveLog(s.transactions, key);
    s.holdings := s.holdings - {h};
    s.Commit();
    return None;
  }
}
