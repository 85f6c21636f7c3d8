/** Trades and holdings keep the ledger invariant. */
module TradeInvariant {
  import opened Fixed
  import opened Wrappers
  import opened Trades
  import opened Projection
  import opened Tables
  import opened Bookkeeping
  import opened LedgerInvariant

  /** Changing the log, dropping settlements and editing holdings leaves the ledger in order as long
      as every settlement has its transaction and every other live transaction has no entry. */
  lemma ChangeLog(b: Books, r: Books)
    requires Inv(b)
    requires r.accounts == b.accounts && r.entries == b.entries && r.transfers == b.transfers
    requires r.next.account == b.next.account && r.next.entry == b.next.entry && r.next.transfer == b.next.transfer
    requires r.next.transaction >= b.next.transaction
    requires IncreasingLog(r.transactions)
    requires forall t :: t in r.transactions ==> t.id < r.next.transaction
    requires forall h :: h in r.holdings ==> h < r.next.holding
    requires r.settlements.Keys <= b.settlements.Keys
    requires forall x :: x in r.settlements ==> r.settlements[x] == b.settlements[x] && Live(r, x)
    requires forall t :: t in r.transactions ==>
               t.id in r.settlements || Select(b.entries, OfTransaction(t.id)) == []
    ensures Inv(r)
  {
    forall e | e in r.entries ensures Placed(r, e) { assert Placed(b, e); }
    KeepsSettlements(b, r);
  }

  // ---- the log ----

  lemma AddTransactionKeeps(b: Books, t: Transaction)
    requires Inv(b) && t.id == b.next.transaction
    ensures Inv(Logged(b, t))
  {
    var r := Logged(b, t);
    forall e | e in b.entries ensures e.transaction != Some(t.id) { assert Placed(b, e); }
    NothingMatches(b.entries, OfTransaction(t.id));
    forall x | x in r.settlements ensures Live(r, x) {
      assert Live(b, x);
      var u :| u in b.transactions && u.id == x;
      assert u in r.transactions;
    }
    ChangeLog(b, r);
  }

  lemma {:induction false} Found(log: seq<Transaction>, id: int)
    ensures FindTransaction(log, id).Some? ==>
              FindTransaction(log, id).value in log && FindTransaction(log, id).value.id == id
    ensures FindTransaction(log, id).None? ==> forall t :: t in log ==> t.id != id
  {
    if log == [] {
    } else {
      Found(log[1..], id);
    }
  }

  lemma {:induction false} Removed(log: seq<Transaction>, id: int)
    requires IncreasingLog(log)
    ensures IncreasingLog(RemoveTransaction(log, id))
    ensures forall t :: t in RemoveTransaction(log, id) <==> t in log && t.id != id
  {
    if log == [] {
    } else {
      Removed(log[1..], id);
      assert log == [log[0]] + log[1..];
      var rest := RemoveTransaction(log[1..], id);
      forall i | 0 <= i < |rest| ensures log[0].id < rest[i].id { assert rest[i] in log[1..]; }
    }
  }

  lemma {:induction false} Replaced(log: seq<Transaction>, t: Transaction)
    ensures |ReplaceTransaction(log, t)| == |log|
    ensures forall i :: 0 <= i < |log| ==>
              ReplaceTransaction(log, t)[i] == if log[i].id == t.id then t else log[i]
  {
    if log == [] {
    } else {
      Replaced(log[1..], t);
    }
  }

  lemma {:induction false} LogRemoved(log: seq<Transaction>, key: Key)
    requires IncreasingLog(log)
    ensures IncreasingLog(RemoveLog(log, key))
    ensures forall t :: t in RemoveLog(log, key) <==> t in log && t.key != key
  {
    if log == [] {
    } else {
      LogRemoved(log[1..], key);
      assert log == [log[0]] + log[1..];
      var rest := RemoveLog(log[1..], key);
      forall i | 0 <= i < |rest| ensures log[0].id < rest[i].id { assert rest[i] in log[1..]; }
    }
  }

  lemma ReplaceTransactionKeeps(b: Books, t: Transaction)
    requires Inv(b)
    ensures Inv(b.(transactions := ReplaceTransaction(b.transactions, t)))
  {
    var r := b.(transactions := ReplaceTransaction(b.transactions, t));
    SameIds(b.transactions, t);
    forall x | x in r.settlements ensures Live(r, x) {
      assert Live(b, x);
      var i :| 0 <= i < |b.transactions| && b.transactions[i].id == x;
      assert r.transactions[i] in r.transactions;
    }
    forall u | u in r.transactions
      ensures exists w :: w in b.transactions && w.id == u.id
    {
      var i :| 0 <= i < |r.transactions| && r.transactions[i] == u;
      assert b.transactions[i] in b.transactions;
    }
    assert IncreasingLog(r.transactions);
    ChangeLog(b, r);
  }

  lemma SameIds(log: seq<Transaction>, t: Transaction)
    ensures |ReplaceTransaction(log, t)| == |log|
    ensures forall i :: 0 <= i < |log| ==> ReplaceTransaction(log, t)[i].id == log[i].id
  {
    Replaced(log, t);
  }

  lemma RemoveTransactionKeeps(b: Books, id: int)
    requires Inv(b) && id !in b.settlements
    ensures Inv(b.(transactions := RemoveTransaction(b.transactions, id)))
  {
    var r := b.(transactions := RemoveTransaction(b.transactions, id));
    Removed(b.transactions, id);
    forall x | x in r.settlements ensures Live(r, x) {
      assert Live(b, x);
      var t :| t in b.transactions && t.id == x;
      assert t in r.transactions;
    }
    ChangeLog(b, r);
  }

  lemma InTransactionsOf(log: seq<Transaction>, key: Key, t: Transaction)
    requires IncreasingLog(log) && t in log
    ensures t.id in TransactionsOf(log, key) <==> t.key == key
  {
    var j :| 0 <= j < |log| && log[j] == t;
    if t.id in TransactionsOf(log, key) {
      var i :| 0 <= i < |log| && log[i].key == key && log[i].id == t.id;
      assert i == j;
    }
  }

  /** Dropping a security's log with its settlements; its entries may stay behind. */
  lemma RemoveLogKeeps(b: Books, key: Key, r: Books)
    requires Inv(b)
    requires r == b.(transactions := RemoveLog(b.transactions, key),
                     settlements := b.settlements - TransactionsOf(b.transactions, key),
                     holdings := r.holdings, next := b.next.(holding := r.next.holding))
    requires forall h :: h in r.holdings ==> h < r.next.holding
    ensures Inv(r)
  {
    LogRemoved(b.transactions, key);
    forall x | x in r.settlements ensures Live(r, x) {
      assert Live(b, x);
      var t :| t in b.transactions && t.id == x;
      var i :| 0 <= i < |b.transactions| && b.transactions[i] == t;
      assert b.transactions[i].key != key;
      assert t in r.transactions;
    }
    forall t | t in r.transactions
      ensures t.id in r.settlements || Select(b.entries, OfTransaction(t.id)) == []
    {
      InTransactionsOf(b.transactions, key, t);
    }
    ChangeLog(b, r);
  }

  lemma MaterialiseKeeps(b: Books, env: Env, key: Key)
    requires Inv(b) && Materialise(b, env, key).Ok?
    ensures var r := Materialise(b, env, key).value;
            Inv(r) && r == b.(holdings := r.holdings, next := b.next.(holding := r.next.holding))
  {
    var r := Materialise(b, env, key).value;
    assert r == b.(holdings := r.holdings, next := b.next.(holding := r.next.holding));
    assert RowsOf(b, key) <= b.holdings.Keys;
    forall h | h in r.holdings ensures h < r.next.holding {
      assert h in b.holdings || h == b.next.holding;
    }
    SameLedger(b, r);
  }

  lemma EnsureBaselineKeeps(b: Books, env: Env, key: Key)
    requires Inv(b)
    ensures Inv(EnsureBaseline(b, env, key))
    ensures var r := EnsureBaseline(b, env, key);
            r == b.(transactions := r.transactions, next := b.next.(transaction := r.next.transaction))
  {
    if RowsOf(b, key) != {} && LogOf(b.transactions, key) == [] {
      AddTransactionKeeps(b, BaselineOf(b.next.transaction, b.holdings[Least(RowsOf(b, key))], env.now));
    }
  }

  lemma {:induction false} BackfilledKeeps(b: Books, env: Env, keys: seq<Key>)
    requires Inv(b)
    ensures Inv(Backfilled(b, env, keys))
    ensures var r := Backfilled(b, env, keys);
            r == b.(transactions := r.transactions, next := b.next.(transaction := r.next.transaction))
  {
    if keys == [] {
    } else {
      var n := |keys| - 1;
      BackfilledKeeps(b, env, keys[..n]);
      EnsureBaselineKeeps(Backfilled(b, env, keys[..n]), env, keys[n]);
    }
  }

  // ---- settling ----

  function WithTrade(b: Books, x: int, s: Settlement, e: Entry): Books {
    b.(entries := b.entries + [e], settlements := b.settlements[x := s], next := b.next.(entry := b.next.entry + 1))
  }

  /** One trade entry together with the settlement row that links it. */
  lemma AppendTrade(b: Books, x: int, s: Settlement, e: Entry)
    requires InvButBalances(b) && Live(b, x) && x !in b.settlements
    requires s.account in b.accounts && s.currency == b.accounts[s.account].currency
    requires e == Entry(b.next.entry, s.account, if s.direction.Inflow? then SellProceeds else BuyFunding,
                        if s.direction.Inflow? then s.amount else -s.amount, s.currency, e.happenedOn, Some(x), None)
    ensures InvButBalances(WithTrade(b, x, s, e))
  {
    var r := WithTrade(b, x, s, e);
    AppendOne(b.entries, e);
    assert OneOpening(r);
    assert TransfersPaired(r);
    assert Select(b.entries, OfTransaction(x)) == [];
    forall y | y in r.settlements ensures Live(r, y) && Linked(r, y) {
      if y != x { assert Live(b, y) && Linked(b, y); }
    }
    assert EntriesPlaced(r) by {
      forall y | y in r.entries ensures Placed(r, y) { assert y == e || Placed(b, y); }
    }
    forall i | 0 <= i < |b.entries| ensures b.entries[i].id < e.id { assert Placed(b, b.entries[i]); }
    assert NoStrays(r);
  }

  lemma BookedKeeps(b: Books, x: int, s: Settlement, on: int)
    requires InvButBalances(b) && Live(b, x) && x !in b.settlements
    requires s.account in b.accounts && s.currency == b.accounts[s.account].currency
    ensures Inv(Booked(b, x, s, on))
  {
    var inflow := s.direction.Inflow?;
    var e := Entry(b.next.entry, s.account, if inflow then SellProceeds else BuyFunding,
                   if inflow then s.amount else -s.amount, s.currency, on, Some(x), None);
    AppendTrade(b, x, s, e);
    RebalanceGivesInv(WithTrade(b, x, s, e));
  }

  lemma SettleKeeps(b: Books, env: Env, t: Transaction, plan: Plan)
    requires Inv(b) && t.price.Some? && Live(b, t.id) && t.id !in b.settlements
    requires Settle(b, env, t, plan).Ok?
    ensures Inv(Settle(b, env, t, plan).value)
  {
    match plan
    case NoCash =>
    case NewAccount =>
      var a := b.next.account;
      var with := WithAccount(b, a, ProceedsAccount(env, t), 0);
      OpenAccount(b, a, ProceedsAccount(env, t), 0);
      assert Live(with, t.id);
      BookedKeeps(with, t.id,
        Settlement(a, CreateNewCash, Gross(t), t.currency, Gross(t), t.currency, Inflow, true), t.tradedOn);
    case AddTo(a) =>
      var currency := b.accounts[a].currency;
      var amount := Convert(env, Gross(t), t.currency, currency).value;
      BookedKeeps(b, t.id,
        Settlement(a, AddToExistingCash, amount, currency, Gross(t), t.currency, Inflow, false), t.tradedOn);
    case Deduct(a) =>
      var currency := b.accounts[a].currency;
      var amount := Convert(env, Gross(t), t.currency, currency).value;
      BookedKeeps(b, t.id,
        Settlement(a, DeductFromExistingCash, amount, currency, Gross(t), t.currency, Outflow, false), t.tradedOn);
  }

  /** The ledger after the entries of a settled trade are lifted, before an abandoned account goes. */
  function Lifted(b: Books, x: int): Books {
    Rebalance(b.(entries := Without(b.entries, OfTransaction(x)), settlements := b.settlements - {x}))
  }

  lemma LiftedKeeps(b: Books, x: int)
    requires Inv(b) && x in b.settlements
    ensures Inv(Lifted(b, x))
  {
    var r := b.(entries := Without(b.entries, OfTransaction(x)), settlements := b.settlements - {x});
    forall e | e in b.entries
      ensures Placed(b, e)
      ensures e.transfer.Some? ==> e.transaction.None?
    {
      assert Placed(b, e);
      if e.transfer.Some? { CarriesTransfer(b, e); }
    }
    DeleteEntries(b, OfTransaction(x), r);
    RebalanceGivesInv(r);
  }

  /** An account with nothing but its opening entry can go. */
  lemma RemoveBareAccount(b: Books, a: int)
    requires Inv(b) && a in b.accounts && Select(b.entries, NonInitialOf(a)) == []
    ensures Inv(b.(accounts := b.accounts - {a}, entries := Without(b.entries, OfAccount(a))))
  {
    var r := b.(accounts := b.accounts - {a}, entries := Without(b.entries, OfAccount(a)));
    forall e | e in b.entries
      ensures Placed(b, e)
      ensures e.account == a ==> e.kind.InitialBalance?
    {
      assert Placed(b, e);
      InSelect(b.entries, NonInitialOf(a), e);
    }
    DeleteEntries(b, OfAccount(a), r);
    forall c | c in r.accounts ensures r.accounts[c].balance == Balance(r.entries, c) {
      SelectAfterWithout(b.entries, OfAccount(a), OfAccount(c));
    }
  }

  lemma UnsettleKeeps(b: Books, x: int)
    requires Inv(b)
    ensures var r := Unsettle(b, x);
            && Inv(r) && x !in r.settlements
            && r == b.(accounts := r.accounts, entries := r.entries, settlements := b.settlements - {x})
  {
    if x in b.settlements {
      LiftedKeeps(b, x);
      var s := b.settlements[x];
      if Abandoned(Lifted(b, x), s) {
        RemoveBareAccount(Lifted(b, x), s.account);
      }
    } else {
      assert b.settlements - {x} == b.settlements;
    }
  }

  // ---- the requests ----

  /** Recording a new trade, bringing its holding in line and settling it. */
  lemma TradeKeeps(b: Books, env: Env, t: Transaction, plan: Plan)
    requires Inv(b) && t.id == b.next.transaction
    requires Materialise(Logged(b, t), env, t.key).Ok?
    ensures var synced := Materialise(Logged(b, t), env, t.key).value;
            && Inv(synced)
            && (t.price.Some? && Settle(synced, env, t, plan).Ok? ==> Inv(Settle(synced, env, t, plan).value))
  {
    AddTransactionKeeps(b, t);
    MaterialiseKeeps(Logged(b, t), env, t.key);
    var synced := Materialise(Logged(b, t), env, t.key).value;
    assert Live(synced, t.id) by { assert t in synced.transactions; }
    forall x | x in b.settlements ensures x < b.next.transaction { assert Live(b, x); }
    if t.price.Some? && Settle(synced, env, t, plan).Ok? { SettleKeeps(synced, env, t, plan); }
  }

  lemma CreateTransactionKeeps(b: Books, env: Env, form: TradeForm)
    requires Inv(b) && CreateTransaction(b, env, form).Ok?
    ensures Inv(CreateTransaction(b, env, form).value)
  {
    var based := EnsureBaseline(b, env, form.key);
    EnsureBaselineKeeps(b, env, form.key);
    var (price, currency) := TradeTerms(based, env, form).value;
    var t := Transaction(based.next.transaction, form.key, form.side, form.quantity, price, currency,
                         form.tradedOn, env.now);
    TradeKeeps(based, env, t, form.plan);
  }

  lemma DeleteTransactionKeeps(b: Books, env: Env, id: int)
    requires Inv(b) && DeleteTransaction(b, env, id).Ok?
    ensures Inv(DeleteTransaction(b, env, id).value)
  {
    var t := FindTransaction(b.transactions, id).value;
    UnsettleKeeps(b, id);
    RemoveTransactionKeeps(Unsettle(b, id), id);
    MaterialiseKeeps(Unsettle(b, id).(transactions := RemoveTransaction(b.transactions, id)), env, t.key);
  }

  lemma UpdateTransactionKeeps(b: Books, env: Env, id: int, patch: TradePatch)
    requires Inv(b) && UpdateTransaction(b, env, id, patch).Ok?
    ensures Inv(UpdateTransaction(b, env, id, patch).value)
  {
    Found(b.transactions, id);
    var was := FindTransaction(b.transactions, id).value;
    var t := Patched(was, patch);
    UnsettleKeeps(b, id);
    ReplaceTransactionKeeps(Unsettle(b, id), t);
    var edited := Unsettle(b, id).(transactions := ReplaceTransaction(b.transactions, t));
    MaterialiseKeeps(edited, env, t.key);
    var synced := Materialise(edited, env, t.key).value;
    assert Live(synced, id) by {
      Replaced(b.transactions, t);
      var i :| 0 <= i < |b.transactions| && b.transactions[i] == was;
      assert synced.transactions[i] in synced.transactions;
    }
    var original := if id in b.settlements then Some(b.settlements[id]) else None;
    if t.price.Some? {
      SettleKeeps(synced, env, t, UpdatePlan(t, patch, original).value);
    }
  }

  lemma CreateHoldingKeeps(b: Books, env: Env, form: HoldingForm)
    requires Inv(b) && CreateHolding(b, env, form).Ok?
    ensures Inv(CreateHolding(b, env, form).value)
  {
    var entered := Entered(b, env, form);
    forall h | h in entered.holdings ensures h < entered.next.holding {}
    RemoveLogKeeps(b, form.key, entered);
    if form.quantity > EPSILON {
      AddTransactionKeeps(entered, BaselineOf(b.next.transaction, EnteredRow(env, form), env.now));
    }
  }

  lemma CorrectedKeeps(b: Books, env: Env, row: Holding, patch: HoldingPatch, started: int)
    requires Inv(b)
    ensures Inv(Corrected(b, env, row, patch, started))
  {
    var r := Corrected(b, env, row, patch, started);
    if r.next == b.next {
      var log := NewestFirst(LogOf(b.transactions, row.key));
      var t := log[|log| - 1].(
        side := Adjust, quantity := ValueOr(patch.quantity, row.quantity),
        price := if patch.cost.Given? then patch.cost.value else row.cost,
        currency := row.currency, tradedOn := started);
      assert r == b.(transactions := ReplaceTransaction(b.transactions, t));
      ReplaceTransactionKeeps(b, t);
    } else {
      var t := r.transactions[|b.transactions|];
      assert r == Logged(b, t);
      AddTransactionKeeps(b, t);
    }
  }

  lemma UpdateHoldingKeeps(b: Books, env: Env, h: int, patch: HoldingPatch)
    requires Inv(b) && UpdateHolding(b, env, h, patch).Ok?
    ensures Inv(UpdateHolding(b, env, h, patch).value)
  {
    if Corrects(patch) {
      var row := b.holdings[h];
      var started := CheckHoldingPatch(env, row, patch).value;
      var corrected := Corrected(b, env, row, patch, started);
      CorrectedKeeps(b, env, row, patch, started);
      MaterialiseKeeps(corrected, env, row.key);
      var synced := Materialise(corrected, env, row.key).value;
      if !Project(LogOf(corrected.transactions, row.key)).Held? {
        SameLedger(synced, synced.(holdings := synced.holdings[h := row]));
      }
    }
  }

  lemma {:induction false} UnsettleSalesKeeps(b: Books, log: seq<Transaction>)
    requires Inv(b)
    ensures var r := UnsettleSales(b, log);
            && Inv(r) && r.settlements.Keys <= b.settlements.Keys
            && (forall x :: x in r.settlements ==> r.settlements[x] == b.settlements[x])
            && (forall x :: x in b.settlements && x !in r.settlements ==> exists t :: t in log && t.id == x)
            && r == b.(accounts := r.accounts, entries := r.entries, settlements := r.settlements)
    decreases log
  {
    if log == [] {
    } else {
      UnsettleKeeps(b, log[0].id);
      var next := if log[0].side.Sell? then Unsettle(b, log[0].id) else b;
      UnsettleSalesKeeps(next, log[1..]);
      var r := UnsettleSales(b, log);
      forall x | x in b.settlements && x !in r.settlements ensures exists t :: t in log && t.id == x {
        if x in next.settlements {
          var t :| t in log[1..] && t.id == x;
          assert t in log;
        } else {
          assert log[0] in log;
        }
      }
    }
  }

  lemma DeleteHoldingKeeps(b: Books, h: int)
    requires Inv(b) && DeleteHolding(b, h).Ok?
    ensures Inv(DeleteHolding(b, h).value)
  {
    var key := b.holdings[h].key;
    var log := NewestFirst(LogOf(b.transactions, key));
    UnsettleSalesKeeps(b, log);
    var reversed := UnsettleSales(b, log);
    RemoveLogKeeps(reversed, key, DeleteHolding(b, h).value);
  }
}
