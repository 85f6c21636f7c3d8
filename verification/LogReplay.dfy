/** Every log of every reachable state replays. */
module LogReplay {
  import opened Fixed
  import opened Wrappers
  import opened Trades
  import opened Lots
  import opened Projection
  import opened Bookkeeping
  import opened LedgerInvariant
  import opened TradeInvariant
  import opened Runs
  import opened HoldingView

  predicate Accepted(log: seq<Transaction>, key: Key) { !Project(LogOf(log, key)).Rejected? }

  ghost predicate Replays(b: Books) {
    forall key :: Accepted(b.transactions, key)
  }

  /** The logs of all other securities. */
  ghost predicate SameElsewhere(b: Books, r: Books, key: Key) {
    forall k :: k != key ==> LogOf(r.transactions, k) == LogOf(b.transactions, k)
  }

  lemma OneLogChanged(b: Books, r: Books, key: Key)
    requires Replays(b) && SameElsewhere(b, r, key) && Accepted(r.transactions, key)
    ensures Replays(r)
  {
    forall k ensures Accepted(r.transactions, k) { assert Accepted(b.transactions, k); }
  }

  lemma LoggedElsewhereSame(b: Books, t: Transaction)
    ensures SameElsewhere(b, Logged(b, t), t.key)
  {
    forall k | k != t.key ensures LogOf(Logged(b, t).transactions, k) == LogOf(b.transactions, k) {
      LogOfAppend(b.transactions, t, k);
    }
  }

  lemma CreateTransactionReplays(b: Books, env: Env, form: TradeForm)
    requires Inv(b) && Replays(b) && CreateTransaction(b, env, form).Ok?
    ensures Replays(CreateTransaction(b, env, form).value)
  {
    var r := CreateTransaction(b, env, form).value;
    CreateTransactionAgrees(b, env, form);
    assert Agrees(r, form.key);
    CreatedLog(b, env, form);
    OneLogChanged(b, r, form.key);
  }

  lemma CreatedLog(b: Books, env: Env, form: TradeForm)
    requires CreateTransaction(b, env, form).Ok?
    ensures SameElsewhere(b, CreateTransaction(b, env, form).value, form.key)
  {
    var based := EnsureBaseline(b, env, form.key);
    if RowsOf(b, form.key) == {} {
    } else {
      LoggedElsewhereSame(b, BaselineOf(b.next.transaction, b.holdings[Least(RowsOf(b, form.key))], env.now));
    }
    var (price, currency) := TradeTerms(based, env, form).value;
    var t := Transaction(based.next.transaction, form.key, form.side, form.quantity, price, currency,
                         form.tradedOn, env.now);
    LoggedElsewhereSame(based, t);
    var synced := Materialise(Logged(based, t), env, form.key).value;
    if price.Some? { SettleLeavesView(synced, env, t, form.plan); }
  }

  lemma UpdateTransactionReplays(b: Books, env: Env, id: int, patch: TradePatch)
    requires Inv(b) && Replays(b) && UpdateTransaction(b, env, id, patch).Ok?
    ensures Replays(UpdateTransaction(b, env, id, patch).value)
  {
    var was, r := FindTransaction(b.transactions, id).value, UpdateTransaction(b, env, id, patch).value;
    UpdateTransactionAgrees(b, env, id, patch);
    assert Agrees(r, was.key);
    UpdatedLog(b, env, id, patch);
    OneLogChanged(b, r, was.key);
  }

  lemma UpdatedLog(b: Books, env: Env, id: int, patch: TradePatch)
    requires Inv(b) && UpdateTransaction(b, env, id, patch).Ok?
    ensures SameElsewhere(b, UpdateTransaction(b, env, id, patch).value, FindTransaction(b.transactions, id).value.key)
  {
    Found(b.transactions, id);
    var was, r := FindTransaction(b.transactions, id).value, UpdateTransaction(b, env, id, patch).value;
    var t := Patched(was, patch);
    var edited := Unsettle(b, id).(transactions := ReplaceTransaction(b.transactions, t));
    var synced := Materialise(edited, env, t.key).value;
    var original := if id in b.settlements then Some(b.settlements[id]) else None;
    if t.price.Some? { SettleLeavesView(synced, env, t, UpdatePlan(t, patch, original).value); }
    forall k | k != was.key ensures LogOf(r.transactions, k) == LogOf(b.transactions, k) {
      LogOfReplace(b.transactions, was, t, k);
    }
  }

  lemma DeleteTransactionReplays(b: Books, env: Env, id: int)
    requires Inv(b) && Replays(b) && DeleteTransaction(b, env, id).Ok?
    ensures Replays(DeleteTransaction(b, env, id).value)
  {
    Found(b.transactions, id);
    var t, r := FindTransaction(b.transactions, id).value, DeleteTransaction(b, env, id).value;
    DeleteTransactionAgrees(b, env, id);
    assert Agrees(r, t.key);
    forall k | k != t.key ensures LogOf(r.transactions, k) == LogOf(b.transactions, k) {
      LogOfRemove(b.transactions, t, k);
    }
    OneLogChanged(b, r, t.key);
  }

  lemma CreateHoldingReplays(b: Books, env: Env, form: HoldingForm)
    requires Inv(b) && Replays(b) && CreateHolding(b, env, form).Ok?
    ensures Replays(CreateHolding(b, env, form).value)
  {
    var r, entered := CreateHolding(b, env, form).value, Entered(b, env, form);
    var t := BaselineOf(b.next.transaction, EnteredRow(env, form), env.now);
    forall k ensures LogOf(entered.transactions, k) == if k == form.key then [] else LogOf(b.transactions, k) {
      LogOfRemoveLog(b.transactions, form.key, k);
    }
    if form.quantity <= EPSILON {
    } else {
      LoggedElsewhereSame(entered, t);
      EnteredRowShows(b, env, form);
    }
    OneLogChanged(b, r, form.key);
  }

  lemma UpdateHoldingReplays(b: Books, env: Env, h: int, patch: HoldingPatch)
    requires Inv(b) && Replays(b) && UpdateHolding(b, env, h, patch).Ok?
    ensures Replays(UpdateHolding(b, env, h, patch).value)
  {
    if !Corrects(patch) {
    } else {
      var row := b.holdings[h];
      var started := CheckHoldingPatch(env, row, patch).value;
      var corrected := Corrected(b, env, row, patch, started);
      forall k | k != row.key ensures LogOf(corrected.transactions, k) == LogOf(b.transactions, k) {
        CorrectedElsewhere(b, env, row, patch, started, k);
      }
      OneLogChanged(b, corrected, row.key);
    }
  }

  lemma DeleteHoldingReplays(b: Books, h: int)
    requires Replays(b) && h in b.holdings
    ensures Replays(DeleteHolding(b, h).value)
  {
    var key, r := b.holdings[h].key, DeleteHolding(b, h).value;
    forall k ensures LogOf(r.transactions, k) == if k == key then [] else LogOf(b.transactions, k) {
      LogOfRemoveLog(b.transactions, key, k);
    }
    OneLogChanged(b, r, key);
  }

  /** The opening BUY of a holding without a log is accepted. */
  lemma BaselineIsAccepted(b: Books, env: Env, key: Key)
    requires Accepted(b.transactions, key)
    ensures Accepted(EnsureBaseline(b, env, key).transactions, key)
    ensures EnsureBaseline(EnsureBaseline(b, env, key), env, key) == EnsureBaseline(b, env, key)
  {
    var based := EnsureBaseline(b, env, key);
    if RowsOf(b, key) == {} || LogOf(b.transactions, key) != [] {
    } else {
      var row := b.holdings[Least(RowsOf(b, key))];
      var t := BaselineOf(b.next.transaction, row, env.now);
      assert Least(RowsOf(b, key)) in RowsOf(b, key);
      LogOfAppend(b.transactions, t, key);
      assert LogOf(based.transactions, key) == [t];
      if Effective(t) {
        OpeningProjects(t);
      } else {
        IdleTradeProjects(t);
      }
    }
  }

  lemma IdleTradeProjects(t: Transaction)
    requires !Effective(t)
    ensures !Project([t]).Rejected?
  {
    assert [t][1..] == [] && [t][..0] == [];
    assert Sort([t]) == [t];
    var empty: seq<Lot> := [];
    assert Replay([t][..0]) == Ok(empty) && Apply(empty, t) == Ok(empty);
    assert Replay([t]) == Ok(empty);
  }

  lemma BaselineElsewhere(b: Books, env: Env, key: Key)
    ensures SameElsewhere(b, EnsureBaseline(b, env, key), key)
  {
    if RowsOf(b, key) == {} {
    } else {
      LoggedElsewhereSame(b, BaselineOf(b.next.transaction, b.holdings[Least(RowsOf(b, key))], env.now));
    }
  }

  lemma {:induction false} BackfilledReplays(b: Books, env: Env, keys: seq<Key>)
    requires Replays(b)
    ensures Replays(Backfilled(b, env, keys))
  {
    if keys == [] {
    } else {
      var n := |keys| - 1;
      var before := Backfilled(b, env, keys[..n]);
      BackfilledReplays(b, env, keys[..n]);
      assert Accepted(before.transactions, keys[n]);
      BaselineIsAccepted(before, env, keys[n]);
      BaselineElsewhere(before, env, keys[n]);
      OneLogChanged(before, EnsureBaseline(before, env, keys[n]), keys[n]);
    }
  }

  lemma HandleKeepsReplays(b: Books, env: Env, r: Request)
    requires Inv(b) && Replays(b)
    ensures Replays(After(b, env, r))
  {
    if Handle(b, env, r).Err? {
    } else {
      match r
      case TradeCreate(form) => CreateTransactionReplays(b, env, form);
      case TradeUpdate(id, patch) => UpdateTransactionReplays(b, env, id, patch);
      case TradeDelete(id) => DeleteTransactionReplays(b, env, id);
      case HoldingCreate(form) => CreateHoldingReplays(b, env, form);
      case HoldingUpdate(h, patch) => UpdateHoldingReplays(b, env, h, patch);
      case HoldingDelete(h) => DeleteHoldingReplays(b, h);
      case LogsBackfill(keys) => BackfilledReplays(b, env, keys);
      case _ => LedgerRequestLeavesTrades(b, env, r);
    }
  }

  /** In every reachable state the log of every security replays: no request lets a sale exceed what is there. */
  lemma {:induction false} EveryLogReplays(history: History)
    ensures Replays(Run(history))
  {
    if history == [] {
    } else {
      var prefix := history[..|history| - 1];
      var (env, r) := history[|history| - 1];
      EveryLogReplays(prefix);
      EveryRunKeepsInv(prefix);
      HandleKeepsReplays(Run(prefix), env, r);
    }
  }
}
