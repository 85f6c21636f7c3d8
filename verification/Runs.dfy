/** Every reachable state: runs of requests from empty books, with a clock that does not go back. */
module Runs {
  import opened Wrappers
  import opened Trades
  import opened Lots
  import opened Projection
  import opened Tables
  import opened Bookkeeping
  import opened LedgerInvariant
  import opened TradeInvariant

  datatype Request =
    | AccountCreate(accountForm: AccountForm)
    | AccountUpdate(account: int, accountForm: AccountForm)
    | AccountDelete(account: int)
    | AdjustmentCreate(account: int, amount: int, day: int)
    | AdjustmentUpdate(entry: int, newAmount: Field<int>, newDay: Field<int>, note: bool)
    | AdjustmentDelete(entry: int)
    | TransferCreate(transferForm: TransferForm)
    | TransferUpdate(transfer: int, transferPatch: TransferPatch)
    | TransferDelete(transfer: int)
    | TradeCreate(tradeForm: TradeForm)
    | TradeUpdate(transaction: int, tradePatch: TradePatch)
    | TradeDelete(transaction: int)
    | HoldingCreate(holdingForm: HoldingForm)
    | HoldingUpdate(holding: int, holdingPatch: HoldingPatch)
    | HoldingDelete(holding: int)
    | LogsBackfill(securities: seq<Key>)

  function Handle(b: Books, env: Env, r: Request): Result<Books, Failure> {
    match r
    case AccountCreate(form) => CreateAccount(b, env, form)
    case AccountUpdate(a, form) => UpdateAccount(b, a, form)
    case AccountDelete(a) => DeleteAccount(b, a)
    case AdjustmentCreate(a, amount, on) => CreateAdjustment(b, env, a, amount, on)
    case AdjustmentUpdate(id, amount, on, note) => UpdateAdjustment(b, env, id, amount, on, note)
    case AdjustmentDelete(id) => DeleteAdjustment(b, id)
    case TransferCreate(form) => CreateTransfer(b, env, form)
    case TransferUpdate(id, patch) => UpdateTransfer(b, env, id, patch)
    case TransferDelete(id) => DeleteTransfer(b, id)
    case TradeCreate(form) => CreateTransaction(b, env, form)
    case TradeUpdate(id, patch) => UpdateTransaction(b, env, id, patch)
    case TradeDelete(id) => DeleteTransaction(b, env, id)
    case HoldingCreate(form) => CreateHolding(b, env, form)
    case HoldingUpdate(h, patch) => UpdateHolding(b, env, h, patch)
    case HoldingDelete(h) => DeleteHolding(b, h)
    case LogsBackfill(keys) => Ok(Backfilled(b, env, keys))
  }

  /** A failed request leaves the committed books as they were. */
  function After(b: Books, env: Env, r: Request): Books {
    match Handle(b, env, r) case Ok(next) => next case Err(_) => b
  }

  type History = seq<(Env, Request)>

  function Run(history: History): Books {
    if history == [] then EMPTY_BOOKS
    else
      var (env, r) := history[|history| - 1];
      After(Run(history[..|history| - 1]), env, r)
  }

  lemma HandleKeepsInv(b: Books, env: Env, r: Request)
    requires Inv(b)
    ensures Inv(After(b, env, r))
  {
    if Handle(b, env, r).Ok? {
      match r
      case AccountCreate(form) => CreateAccountKeeps(b, env, form);
      case AccountUpdate(a, form) => UpdateAccountKeeps(b, a, form);
      case AccountDelete(a) => DeleteAccountKeeps(b, a);
      case AdjustmentCreate(a, amount, on) => CreateAdjustmentKeeps(b, env, a, amount, on);
      case AdjustmentUpdate(id, amount, on, note) => UpdateAdjustmentKeeps(b, env, id, amount, on, note);
      case AdjustmentDelete(id) => DeleteAdjustmentKeeps(b, id);
      case TransferCreate(form) => CreateTransferKeeps(b, env, form);
      case TransferUpdate(id, patch) => UpdateTransferKeeps(b, env, id, patch);
      case TransferDelete(id) => DeleteTransferKeeps(b, id);
      case TradeCreate(form) => CreateTransactionKeeps(b, env, form);
      case TradeUpdate(id, patch) => UpdateTransactionKeeps(b, env, id, patch);
      case TradeDelete(id) => DeleteTransactionKeeps(b, env, id);
      case HoldingCreate(form) => CreateHoldingKeeps(b, env, form);
      case HoldingUpdate(h, patch) => UpdateHoldingKeeps(b, env, h, patch);
      case HoldingDelete(h) => DeleteHoldingKeeps(b, h);
      case LogsBackfill(keys) => BackfilledKeeps(b, env, keys);
    }
  }

  /** The ledger invariant holds after every run of requests. */
  lemma {:induction false} EveryRunKeepsInv(history: History)
    ensures Inv(Run(history))
  {
    if history != [] {
      EveryRunKeepsInv(history[..|history| - 1]);
      var (env, r) := history[|history| - 1];
      HandleKeepsInv(Run(history[..|history| - 1]), env, r);
    } else {
      EmptyInv();
    }
  }

  // ---- nothing but opening entries lies in the future ----

  ghost predicate EntryDated(e: Entry, today: int) {
    !e.kind.InitialBalance? ==> e.happenedOn <= today
  }

  ghost predicate HoldingDated(h: Holding, today: int) {
    h.createdOn <= today && (h.startedOn.Some? ==> h.startedOn.value <= today)
  }

  ghost predicate Dated(b: Books, today: int) {
    && (forall e :: e in b.entries ==> EntryDated(e, today))
    && (forall t :: t in b.transactions ==> t.tradedOn <= today)
    && (forall h :: h in b.holdings ==> HoldingDated(b.holdings[h], today))
  }

  lemma OpeningIsDated(b: Books, a: int, target: int, today: int)
    requires Dated(b, today) && IncreasingIds(b.entries) && a in b.accounts
    ensures Dated(Reconcile(b, a, target), today)
  {
    var r := WithOpening(b, a, target);
    var initials := Select(b.entries, InitialOf(a));
    if initials != [] {
      var others := Balance(b.entries, a) - initials[0].amount;
      RewriteIsDated(b, OpeningEntry(initials[0].id, a, b.accounts[a], target - others), today);
    }
  }

  lemma RewriteIsDated(b: Books, to: Entry, today: int)
    requires Dated(b, today) && IncreasingIds(b.entries) && EntryDated(to, today)
    ensures Dated(b.(entries := Rewrite(b.entries, to)), today)
  {
    RewriteKeepsIds(b.entries, to);
    forall e | e in Rewrite(b.entries, to) ensures EntryDated(e, today) {
      var i :| 0 <= i < |Rewrite(b.entries, to)| && Rewrite(b.entries, to)[i] == e;
      assert EntryDated(b.entries[i], today);
    }
  }

  /** Fewer entries, the same log and holdings. */
  lemma FewerIsDated(b: Books, r: Books, q: Query, today: int)
    requires Dated(b, today) && r.entries == Without(b.entries, q)
    requires r.transactions == b.transactions && r.holdings == b.holdings
    ensures Dated(r, today)
  {
    forall e | e in r.entries ensures EntryDated(e, today) { InWithout(b.entries, q, e); }
  }

  lemma CreateAccountIsDated(b: Books, env: Env, form: AccountForm)
    requires IncreasingIds(b.entries) && Dated(b, env.today)
    ensures Dated(CreateAccount(b, env, form).value, env.today)
  {
    var reserved := b.(accounts := b.accounts[b.next.account := NewAccountRow(env, form)],
                       next := b.next.(account := b.next.account + 1));
    OpeningIsDated(reserved, b.next.account, form.balance, env.today);
  }

  lemma AccountIsDated(b: Books, env: Env, r: Request)
    requires Inv(b) && Dated(b, env.today) && Handle(b, env, r).Ok?
    requires r.AccountCreate? || r.AccountUpdate? || r.AccountDelete?
    ensures Dated(Handle(b, env, r).value, env.today)
  {
    match r
    case AccountCreate(form) => CreateAccountIsDated(b, env, form);
    case AccountUpdate(a, form) =>
      OpeningIsDated(b.(accounts := b.accounts[a := EditedAccount(b.accounts[a], form)]), a, form.balance, env.today);
    case AccountDelete(a) => DeleteAccountIsDated(b, a, env.today);
  }

  lemma DeleteAccountIsDated(b: Books, a: int, today: int)
    requires Dated(b, today) && DeleteAccount(b, a).Ok?
    ensures Dated(DeleteAccount(b, a).value, today)
  {
    var q := Cascade(a, TransfersOf(b.transfers, a), SettledOn(b.settlements, a));
    FewerIsDated(b, DeleteAccount(b, a).value, q, today);
  }

  lemma AdjustmentIsDated(b: Books, env: Env, r: Request)
    requires Inv(b) && Dated(b, env.today) && Handle(b, env, r).Ok?
    requires r.AdjustmentCreate? || r.AdjustmentUpdate? || r.AdjustmentDelete?
    ensures Dated(Handle(b, env, r).value, env.today)
  {
    match r
    case AdjustmentCreate(a, amount, on) =>
    case AdjustmentUpdate(id, amount, on, note) =>
      FoundAdjustment(b, id);
      var e := FindAdjustment(b, id).value;
      if amount.Given? || on.Given? || note {
        RewriteIsDated(b, e.(amount := ValueOr(amount, e.amount), happenedOn := ValueOr(on, e.happenedOn),
                             currency := b.accounts[e.account].currency), env.today);
      }
    case AdjustmentDelete(id) => FewerIsDated(b, DeleteAdjustment(b, id).value, OfId(id), env.today);
  }

  lemma TransferIsDated(b: Books, env: Env, r: Request)
    requires Dated(b, env.today) && Handle(b, env, r).Ok?
    requires r.TransferCreate? || r.TransferUpdate? || r.TransferDelete?
    ensures Dated(Handle(b, env, r).value, env.today)
  {
    match r
    case TransferCreate(form) =>
    case TransferUpdate(id, patch) =>
      if !EmptyPatch(patch) { FewerIsDated(b, LiftTransfer(b, id), OfTransfer(id), env.today); }
    case TransferDelete(id) => FewerIsDated(b, DeleteTransfer(b, id).value, OfTransfer(id), env.today);
  }

  lemma {:induction false} StartIsALotDate(lots: seq<Lot>)
    ensures StartedOn(lots).Some? ==> exists lot :: lot in lots && lot.tradedOn == StartedOn(lots).value
  {
    if lots == [] {
    } else {
      StartIsALotDate(lots[1..]);
      assert lots[0] in lots;
      if StartedOn(lots) != Some(lots[0].tradedOn) {
        var lot :| lot in lots[1..] && lot.tradedOn == StartedOn(lots[1..]).value;
        assert lot in lots;
      }
    }
  }

  lemma {:induction false} InLog(log: seq<Transaction>, key: Key, t: Transaction)
    ensures t in LogOf(log, key) <==> t in log && t.key == key
  {
    if log == [] {
    } else {
      InLog(log[1..], key, t);
      assert log == [log[0]] + log[1..];
    }
  }

  /** A projected holding starts no later than the latest of its transactions. */
  lemma ProjectionIsDated(log: seq<Transaction>, today: int)
    requires Project(log).Held? && forall t :: t in log ==> t.tradedOn <= today
    ensures var start := StartedOn(Project(log).lots); start.Some? ==> start.value <= today
  {
    var lots := Project(log).lots;
    SortSorts(log);
    SortedReplay(Sort(log));
    StartIsALotDate(lots);
    if StartedOn(lots).Some? {
      var lot :| lot in lots && lot.tradedOn == StartedOn(lots).value;
      assert OpenedBySome(Sort(log), lot);
      var i :| Opened(Sort(log), i, lot);
      assert Sort(log)[i] in multiset(log);
    }
  }

  lemma MaterialiseIsDated(b: Books, env: Env, key: Key)
    requires Dated(b, env.today) && Materialise(b, env, key).Ok?
    ensures Dated(Materialise(b, env, key).value, env.today)
  {
    var log := LogOf(b.transactions, key);
    var r := Materialise(b, env, key).value;
    forall t | t in log ensures t.tradedOn <= env.today { InLog(b.transactions, key, t); }
    if Project(log).Held? { ProjectionIsDated(log, env.today); }
    forall h | h in r.holdings ensures HoldingDated(r.holdings[h], env.today) {
      if h in b.holdings { assert HoldingDated(b.holdings[h], env.today); }
    }
  }

  lemma UnsettleIsDated(b: Books, x: int, today: int)
    requires Dated(b, today)
    ensures Dated(Unsettle(b, x), today)
  {
    if x in b.settlements {
      FewerIsDated(b, Lifted(b, x), OfTransaction(x), today);
      FewerIsDated(Lifted(b, x), Lifted(b, x).(
        accounts := Lifted(b, x).accounts - {b.settlements[x].account},
        entries := Without(Lifted(b, x).entries, OfAccount(b.settlements[x].account))),
        OfAccount(b.settlements[x].account), today);
    }
  }

  lemma SettleIsDated(b: Books, env: Env, t: Transaction, plan: Plan)
    requires Dated(b, env.today) && t.price.Some? && t.tradedOn <= env.today && Settle(b, env, t, plan).Ok?
    ensures Dated(Settle(b, env, t, plan).value, env.today)
  {
  }

  lemma LoggedIsDated(b: Books, t: Transaction, today: int)
    requires Dated(b, today) && t.tradedOn <= today
    ensures Dated(Logged(b, t), today)
  {
  }

  lemma BaselineIsDated(b: Books, env: Env, key: Key)
    requires Dated(b, env.today)
    ensures Dated(EnsureBaseline(b, env, key), env.today)
  {
    if RowsOf(b, key) != {} {
      assert HoldingDated(b.holdings[Least(RowsOf(b, key))], env.today);
    }
  }

  lemma {:induction false} BackfilledIsDated(b: Books, env: Env, keys: seq<Key>)
    requires Dated(b, env.today)
    ensures Dated(Backfilled(b, env, keys), env.today)
  {
    if keys == [] {
    } else {
      var n := |keys| - 1;
      BackfilledIsDated(b, env, keys[..n]);
      BaselineIsDated(Backfilled(b, env, keys[..n]), env, keys[n]);
    }
  }

  lemma ReplaceIsDated(b: Books, t: Transaction, today: int)
    requires Dated(b, today) && t.tradedOn <= today
    ensures Dated(b.(transactions := ReplaceTransaction(b.transactions, t)), today)
  {
    Replaced(b.transactions, t);
    forall u | u in ReplaceTransaction(b.transactions, t) ensures u.tradedOn <= today {
      var i :| 0 <= i < |b.transactions| && ReplaceTransaction(b.transactions, t)[i] == u;
      assert b.transactions[i] in b.transactions;
    }
  }

  lemma TradeIsDated(b: Books, env: Env, r: Request)
    requires Inv(b) && Dated(b, env.today) && Handle(b, env, r).Ok?
    requires r.TradeCreate? || r.TradeUpdate? || r.TradeDelete?
    ensures Dated(Handle(b, env, r).value, env.today)
  {
    match r
    case TradeCreate(form) =>
      var based := EnsureBaseline(b, env, form.key);
      BaselineIsDated(b, env, form.key);
      var (price, currency) := TradeTerms(based, env, form).value;
      var t := Transaction(based.next.transaction, form.key, form.side, form.quantity, price, currency,
                           form.tradedOn, env.now);
      LoggedIsDated(based, t, env.today);
      MaterialiseIsDated(Logged(based, t), env, form.key);
      if price.Some? { SettleIsDated(Materialise(Logged(based, t), env, form.key).value, env, t, form.plan); }
    case TradeUpdate(id, patch) =>
      Found(b.transactions, id);
      var t := Patched(FindTransaction(b.transactions, id).value, patch);
      var original := if id in b.settlements then Some(b.settlements[id]) else None;
      UnsettleKeeps(b, id);
      UnsettleIsDated(b, id, env.today);
      ReplaceIsDated(Unsettle(b, id), t, env.today);
      var edited := Unsettle(b, id).(transactions := ReplaceTransaction(b.transactions, t));
      MaterialiseIsDated(edited, env, t.key);
      if t.price.Some? {
        SettleIsDated(Materialise(edited, env, t.key).value, env, t, UpdatePlan(t, patch, original).value);
      }
    case TradeDelete(id) =>
      var t := FindTransaction(b.transactions, id).value;
      UnsettleKeeps(b, id);
      UnsettleIsDated(b, id, env.today);
      Removed(b.transactions, id);
      MaterialiseIsDated(Unsettle(b, id).(transactions := RemoveTransaction(b.transactions, id)), env, t.key);
  }

  lemma {:induction false} UnsettleSalesIsDated(b: Books, log: seq<Transaction>, today: int)
    requires Dated(b, today)
    ensures Dated(UnsettleSales(b, log), today)
    decreases log
  {
    if log == [] {
    } else {
      UnsettleIsDated(b, log[0].id, today);
      UnsettleSalesIsDated(if log[0].side.Sell? then Unsettle(b, log[0].id) else b, log[1..], today);
    }
  }

  lemma HoldingIsDated(b: Books, env: Env, r: Request)
    requires Inv(b) && Dated(b, env.today) && Handle(b, env, r).Ok?
    requires r.HoldingCreate? || r.HoldingUpdate? || r.HoldingDelete?
    ensures Dated(Handle(b, env, r).value, env.today)
  {
    match r
    case HoldingCreate(form) =>
      LogRemoved(b.transactions, form.key);
      var entered := Entered(b, env, form);
      forall h | h in entered.holdings ensures HoldingDated(entered.holdings[h], env.today) {
        if h in b.holdings { assert HoldingDated(b.holdings[h], env.today); }
      }
      LoggedIsDated(entered, BaselineOf(b.next.transaction, EnteredRow(env, form), env.now), env.today);
    case HoldingUpdate(h, patch) =>
      if Corrects(patch) {
        var row := b.holdings[h];
        assert HoldingDated(row, env.today);
        var started := CheckHoldingPatch(env, row, patch).value;
        CorrectedIsDated(b, env, row, patch, started);
        MaterialiseIsDated(Corrected(b, env, row, patch, started), env, row.key);
      }
    case HoldingDelete(h) =>
      var key := b.holdings[h].key;
      UnsettleSalesIsDated(b, NewestFirst(LogOf(b.transactions, key)), env.today);
      UnsettleSalesKeeps(b, NewestFirst(LogOf(b.transactions, key)));
      LogRemoved(b.transactions, key);
  }

  lemma CorrectedIsDated(b: Books, env: Env, row: Holding, patch: HoldingPatch, started: int)
    requires Dated(b, env.today) && started <= env.today
    ensures Dated(Corrected(b, env, row, patch, started), env.today)
  {
    var log := NewestFirst(LogOf(b.transactions, row.key));
    if log != [] && started <= log[|log| - 1].tradedOn {
      var t := log[|log| - 1].(
        side := Adjust, quantity := ValueOr(patch.quantity, row.quantity),
        price := if patch.cost.Given? then patch.cost.value else row.cost,
        currency := row.currency, tradedOn := started);
      ReplaceIsDated(b, t, env.today);
    }
  }

  lemma HandleKeepsDates(b: Books, env: Env, r: Request)
    requires Inv(b) && Dated(b, env.today)
    ensures Dated(After(b, env, r), env.today)
  {
    if Handle(b, env, r).Ok? {
      match r
      case AccountCreate(_) => AccountIsDated(b, env, r);
      case AccountUpdate(_, _) => AccountIsDated(b, env, r);
      case AccountDelete(_) => AccountIsDated(b, env, r);
      case AdjustmentCreate(_, _, _) => AdjustmentIsDated(b, env, r);
      case AdjustmentUpdate(_, _, _, _) => AdjustmentIsDated(b, env, r);
      case AdjustmentDelete(_) => AdjustmentIsDated(b, env, r);
      case TransferCreate(_) => TransferIsDated(b, env, r);
      case TransferUpdate(_, _) => TransferIsDated(b, env, r);
      case TransferDelete(_) => TransferIsDated(b, env, r);
      case TradeCreate(_) => TradeIsDated(b, env, r);
      case TradeUpdate(_, _) => TradeIsDated(b, env, r);
      case TradeDelete(_) => TradeIsDated(b, env, r);
      case HoldingCreate(_) => HoldingIsDated(b, env, r);
      case HoldingUpdate(_, _) => HoldingIsDated(b, env, r);
      case HoldingDelete(_) => HoldingIsDated(b, env, r);
      case LogsBackfill(keys) => BackfilledIsDated(b, env, keys);
    }
  }

  /** The server's day never goes back along the run. */
  predicate ClockRuns(history: History) {
    forall i, j :: 0 <= i <= j < |history| ==> history[i].0.today <= history[j].0.today
  }

  /** After every run, only opening entries can be dated later than the last request's day. */
  lemma {:induction false} EveryRunIsDated(history: History, today: int)
    requires ClockRuns(history)
    requires history != [] ==> history[|history| - 1].0.today <= today
    ensures Dated(Run(history), today)
  {
    if history == [] {
    } else {
      var prefix := history[..|history| - 1];
      var (env, r) := history[|history| - 1];
      EveryRunIsDated(prefix, env.today);
      EveryRunKeepsInv(prefix);
      HandleKeepsDates(Run(prefix), env, r);
      LaterDay(Run(history), env.today, today);
    }
  }

  lemma LaterDay(b: Books, day: int, later: int)
    requires Dated(b, day) && day <= later
    ensures Dated(b, later)
  {
    forall e | e in b.entries ensures EntryDated(e, later) { assert EntryDated(e, day); }
    forall h | h in b.holdings ensures HoldingDated(b.holdings[h], later) { assert HoldingDated(b.holdings[h], day); }
  }
}
