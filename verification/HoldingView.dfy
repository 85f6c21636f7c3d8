/** The holding rows are a materialised view of the transaction logs. */
module HoldingView {
  import opened Fixed
  import opened Wrappers
  import opened Trades
  import opened Lots
  import opened Projection
  import opened Bookkeeping
  import opened LedgerInvariant
  import opened TradeInvariant
  import opened Runs

  /** The log of the security replays; it has exactly one holding row when it projects to lots, which
      shows their quantity, cost basis, start and currency, and none otherwise. */
  ghost predicate Agrees(b: Books, key: Key) {
    var log := LogOf(b.transactions, key);
    match Project(log)
    case Rejected => false
    case Empty => RowsOf(b, key) == {}
    case Held(lots) => exists h :: RowsOf(b, key) == {h} && Shows(b.holdings[h], log, lots, key)
  }

  ghost predicate Shows(row: Holding, log: seq<Transaction>, lots: seq<Lot>, key: Key) {
    Sort(log) != [] && row == Materialised(log, lots, key, row.createdOn)
  }

  ghost predicate AllAgree(b: Books) {
    forall key :: Agrees(b, key)
  }

  /** Agreement about one security depends on its own rows and log only. */
  lemma SameView(b: Books, r: Books, key: Key)
    requires LogOf(r.transactions, key) == LogOf(b.transactions, key) && RowsOf(r, key) == RowsOf(b, key)
    requires forall h :: h in RowsOf(b, key) ==> r.holdings[h] == b.holdings[h]
    ensures Agrees(r, key) <==> Agrees(b, key)
  {
    forall h | RowsOf(b, key) == {h} ensures r.holdings[h] == b.holdings[h] {
      assert h in RowsOf(b, key);
    }
  }

  /** A row that shows the queue of a log: its units, the day of the first, their mean price if all have one, and the
      currency of the last effective transaction. */
  ghost predicate ShowsQueue(row: Holding, units: seq<Share>, sorted: seq<Transaction>) {
    && row.quantity == |units| > 0 && row.startedOn == Some(units[0].tradedOn)
    && (row.cost.Some? <==> UnitsPriced(units))
    && (row.cost.Some? ==> IsNearest(UnitCosts(units), |units|, row.cost.value))
    && exists i :: LastEffective(sorted, i) && row.currency == sorted[i].currency
  }

  predicate LastEffective(sorted: seq<Transaction>, i: int) {
    0 <= i < |sorted| && sorted[i].quantity > 1 && forall j :: i < j < |sorted| ==> sorted[j].quantity <= 1
  }

  lemma {:induction false} CurrencyIsLast(sorted: seq<Transaction>)
    requires Replay(sorted).Ok? && Replay(sorted).value != []
    ensures sorted != [] && exists i :: LastEffective(sorted, i) && LogCurrency(sorted) == sorted[i].currency
  {
    var n := |sorted| - 1;
    if sorted[n].quantity > 1 {
      assert LastEffective(sorted, n);
    } else {
      var rest := sorted[..n];
      assert Replay(rest) == Replay(sorted);
      CurrencyIsLast(rest);
      var i :| LastEffective(rest, i) && LogCurrency(rest) == rest[i].currency;
      assert LastEffective(sorted, i);
    }
  }

  /** In agreement, a row shows the queue its log leaves. */
  lemma AgreeingRowShowsQueue(b: Books, key: Key, h: int)
    requires Agrees(b, key) && h in RowsOf(b, key)
    ensures var sorted := Sort(LogOf(b.transactions, key));
      Replay(sorted).Ok? && ShowsQueue(b.holdings[h], Queue(Replay(sorted).value), sorted)
  {
    var log := LogOf(b.transactions, key);
    var lots := Project(log).lots;
    SortSorts(log);
    SortedReplay(Sort(log));
    QueueLength(lots);
    StartIsHead(lots);
    CostBasisIsMean(lots);
    CurrencyIsLast(Sort(log));
    PricedUnitsCost(Sort(log));
    assert Queue(lots)[0] == Share(lots[0].tradedOn, lots[0].cost);
  }

  /** The log replays; an empty queue has no row, and any other has one row, which shows it. */
  ghost predicate ShownByRow(b: Books, key: Key) {
    var sorted := Sort(LogOf(b.transactions, key));
    && Replay(sorted).Ok?
    && var units := Queue(Replay(sorted).value);
       if units == [] then forall h :: h in b.holdings ==> b.holdings[h].key != key
       else exists h :: RowsOf(b, key) == {h} && ShowsQueue(b.holdings[h], units, sorted)
  }

  lemma AgreementShowsQueue(b: Books, key: Key)
    requires Agrees(b, key)
    ensures ShownByRow(b, key)
  {
    var log := LogOf(b.transactions, key);
    SortSorts(log);
    if Project(log).Held? {
      var h :| RowsOf(b, key) == {h} && Shows(b.holdings[h], log, Project(log).lots, key);
      assert h in RowsOf(b, key);
      AgreeingRowShowsQueue(b, key, h);
    } else {
      NothingHeldIsEmpty(log);
      forall h | h in b.holdings ensures b.holdings[h].key != key { assert h !in RowsOf(b, key); }
    }
  }

  lemma NothingHeldIsEmpty(log: seq<Transaction>)
    requires Project(log).Empty?
    ensures Replay(Sort(log)) == Ok([])
  {
    SortSorts(log);
    SortedReplay(Sort(log));
    QueueLength(Replay(Sort(log)).value);
  }

  /** Prices in a queue are positive. */
  lemma PricedUnitsCost(sorted: seq<Transaction>)
    requires Sorted(sorted) && Replay(sorted).Ok? && Replay(sorted).value != []
    ensures UnitsPriced(Queue(Replay(sorted).value)) ==> UnitCosts(Queue(Replay(sorted).value)) > 0
  {
    var lots := Replay(sorted).value;
    SortedReplay(sorted);
    TotalCostOfUnits(lots);
    if AllPriced(lots) {
      forall i | 0 <= i < |lots| ensures lots[i].cost.value > 0 {
        assert OpenedBySome(sorted, lots[i]);
        var j :| Opened(sorted, j, lots[i]);
      }
      PositiveCosts(lots);
    }
  }

  lemma {:induction false} PositiveCosts(lots: seq<Lot>)
    requires AboveEpsilon(lots) && AllPriced(lots) && forall i :: 0 <= i < |lots| ==> lots[i].cost.value > 0
    ensures TotalCost(lots) >= |lots|
  {
    if lots == [] {
    } else {
      PositiveCosts(lots[1..]);
      PositiveMultiple(lots[0].quantity, lots[0].cost.value);
    }
  }

  lemma OneRow(b: Books, key: Key, h: int)
    requires forall k :: k in b.holdings ==> (b.holdings[k].key == key <==> k == h)
    requires h in b.holdings
    ensures RowsOf(b, key) == {h}
    ensures forall k :: RowsOf(b, key) == {k} ==> k == h
  {
    forall k ensures k in RowsOf(b, key) <==> k in {h} {}
    forall k | RowsOf(b, key) == {k} ensures k == h { assert k in RowsOf(b, key); }
  }

  /** Materialising brings one security into agreement, whatever rows it had, and leaves the rows of
      every other security alone. */
  lemma MaterialiseAgrees(b: Books, env: Env, key: Key)
    requires Inv(b) && Materialise(b, env, key).Ok?
    ensures Agrees(Materialise(b, env, key).value, key)
    ensures forall k :: k != key ==> (Agrees(Materialise(b, env, key).value, k) <==> Agrees(b, k))
  {
    var r := Materialise(b, env, key).value;
    var log := LogOf(b.transactions, key);
    if Project(log).Held? {
      var h := if RowsOf(b, key) == {} then b.next.holding else Least(RowsOf(b, key));
      forall k | k in r.holdings ensures r.holdings[k].key == key <==> k == h {
        assert k in b.holdings && b.holdings[k].key == key ==> k in RowsOf(b, key);
      }
      OneRow(r, key, h);
      assert Shows(r.holdings[h], log, Project(log).lots, key);
    } else {
      assert RowsOf(r, key) == {};
    }
    forall k | k != key ensures Agrees(r, k) <==> Agrees(b, k) {
      OtherRows(b, env, key, k);
      SameView(b, r, k);
    }
  }

  lemma OtherRows(b: Books, env: Env, key: Key, k: Key)
    requires b.next.holding !in b.holdings && Materialise(b, env, key).Ok? && k != key
    ensures var r := Materialise(b, env, key).value;
            && r.transactions == b.transactions && RowsOf(r, k) == RowsOf(b, k)
            && (forall h :: h in RowsOf(b, k) ==> r.holdings[h] == b.holdings[h])
  {
    var r := Materialise(b, env, key).value;
    forall h ensures h in RowsOf(r, k) <==> h in RowsOf(b, k) {
      if h in RowsOf(b, k) { assert h !in RowsOf(b, key) && h != b.next.holding; }
    }
  }

  /** Whatever rows a security had, the row that materialising writes shows the queue its log leaves. */
  lemma WrittenRowShowsQueue(b: Books, env: Env, key: Key, h: int)
    requires Inv(b) && Materialise(b, env, key).Ok? && h in RowsOf(Materialise(b, env, key).value, key)
    ensures var sorted := Sort(LogOf(b.transactions, key));
      && RowsOf(Materialise(b, env, key).value, key) == {h}
      && Replay(sorted).Ok?
      && ShowsQueue(Materialise(b, env, key).value.holdings[h], Queue(Replay(sorted).value), sorted)
  {
    MaterialiseAgrees(b, env, key);
    var r := Materialise(b, env, key).value;
    assert r.transactions == b.transactions;
    AgreeingRowShowsQueue(r, key, h);
  }

  // ---- how the log changes ----

  lemma {:induction false} LogOfRemoveLog(log: seq<Transaction>, key: Key, k: Key)
    ensures LogOf(RemoveLog(log, key), k) == if k == key then [] else LogOf(log, k)
  {
    if log == [] {
    } else {
      LogOfRemoveLog(log[1..], key, k);
      if log[0].key != key { assert RemoveLog(log, key)[1..] == RemoveLog(log[1..], key); }
    }
  }

  lemma {:induction false} LogOfRemove(log: seq<Transaction>, t: Transaction, k: Key)
    requires IncreasingLog(log) && t in log && k != t.key
    ensures LogOf(RemoveTransaction(log, t.id), k) == LogOf(log, k)
  {
    if log[0].id == t.id {
      assert log[0] == t;
      NotThere(log[1..], t);
    } else {
      assert t in log[1..];
      LogOfRemove(log[1..], t, k);
      assert RemoveTransaction(log, t.id)[1..] == RemoveTransaction(log[1..], t.id);
    }
  }

  lemma {:induction false} NotThere(log: seq<Transaction>, t: Transaction)
    requires forall u :: u in log ==> u.id != t.id
    ensures RemoveTransaction(log, t.id) == log && ReplaceTransaction(log, t) == log
  {
    if log == [] {
    } else {
      NotThere(log[1..], t);
    }
  }

  lemma {:induction false} LogOfReplace(log: seq<Transaction>, was: Transaction, t: Transaction, k: Key)
    requires IncreasingLog(log) && was in log && t.id == was.id && t.key == was.key && k != t.key
    ensures LogOf(ReplaceTransaction(log, t), k) == LogOf(log, k)
  {
    assert ReplaceTransaction(log, t)[1..] == ReplaceTransaction(log[1..], t);
    if log[0].id == t.id {
      assert log[0] == was;
      NotThere(log[1..], t);
    } else {
      assert was in log[1..];
      LogOfReplace(log[1..], was, t, k);
    }
  }

  lemma {:induction false} NewestFirstIsFrom(log: seq<Transaction>, t: Transaction)
    ensures t in NewestFirst(log) <==> t in log
  {
    if log == [] {
    } else {
      NewestFirstIsFrom(log[1..], t);
      InsertNewestIsFrom(log[0], NewestFirst(log[1..]), t);
    }
  }

  lemma {:induction false} InsertNewestIsFrom(x: Transaction, log: seq<Transaction>, t: Transaction)
    ensures t in InsertNewest(x, log) <==> t == x || t in log
  {
    if log == [] || !Newer(log[0], x) {
    } else {
      InsertNewestIsFrom(x, log[1..], t);
    }
  }

  // ---- what each request does to the view ----

  /** Rows and log unchanged, ledger changed. */
  lemma LedgerOnly(b: Books, r: Books)
    requires r.transactions == b.transactions && r.holdings == b.holdings
    ensures forall key :: Agrees(r, key) <==> Agrees(b, key)
  {
    forall key ensures Agrees(r, key) <==> Agrees(b, key) {
      assert RowsOf(r, key) == RowsOf(b, key);
      SameView(b, r, key);
    }
  }

  /** The log of one security changed. */
  lemma LogChanged(b: Books, r: Books, key: Key)
    requires r.holdings == b.holdings
    requires forall k :: k != key ==> LogOf(r.transactions, k) == LogOf(b.transactions, k)
    ensures forall k :: k != key ==> (Agrees(r, k) <==> Agrees(b, k))
  {
    forall k | k != key ensures Agrees(r, k) <==> Agrees(b, k) {
      assert RowsOf(r, k) == RowsOf(b, k);
      SameView(b, r, k);
    }
  }

  lemma LoggedElsewhere(b: Books, t: Transaction)
    ensures forall k :: k != t.key ==> (Agrees(Logged(b, t), k) <==> Agrees(b, k))
  {
    forall k | k != t.key ensures LogOf(Logged(b, t).transactions, k) == LogOf(b.transactions, k) {
      LogOfAppend(b.transactions, t, k);
    }
    LogChanged(b, Logged(b, t), t.key);
  }

  lemma SettleLeavesView(b: Books, env: Env, t: Transaction, plan: Plan)
    requires t.price.Some? && Settle(b, env, t, plan).Ok?
    ensures var r := Settle(b, env, t, plan).value;
            r.transactions == b.transactions && r.holdings == b.holdings && r.transfers == b.transfers
            && r.next.transaction == b.next.transaction
  {
  }

  /** Creating a transaction brings its security into agreement. */
  lemma CreateTransactionAgrees(b: Books, env: Env, form: TradeForm)
    requires Inv(b) && CreateTransaction(b, env, form).Ok?
    ensures var r := CreateTransaction(b, env, form).value;
            Agrees(r, form.key) && forall k :: k != form.key ==> (Agrees(r, k) <==> Agrees(b, k))
  {
    var based := EnsureBaseline(b, env, form.key);
    EnsureBaselineKeeps(b, env, form.key);
    if RowsOf(b, form.key) != {} {
      LoggedElsewhere(b, BaselineOf(b.next.transaction, b.holdings[Least(RowsOf(b, form.key))], env.now));
    }
    var (price, currency) := TradeTerms(based, env, form).value;
    var t := Transaction(based.next.transaction, form.key, form.side, form.quantity, price, currency,
                         form.tradedOn, env.now);
    AddTransactionKeeps(based, t);
    LoggedElsewhere(based, t);
    MaterialiseAgrees(Logged(based, t), env, form.key);
    var synced := Materialise(Logged(based, t), env, form.key).value;
    if price.Some? {
      SettleLeavesView(synced, env, t, form.plan);
      LedgerOnly(synced, CreateTransaction(b, env, form).value);
    }
  }

  lemma DeleteTransactionAgrees(b: Books, env: Env, id: int)
    requires Inv(b) && DeleteTransaction(b, env, id).Ok?
    ensures var key := FindTransaction(b.transactions, id).value.key;
            var r := DeleteTransaction(b, env, id).value;
            Agrees(r, key) && forall k :: k != key ==> (Agrees(r, k) <==> Agrees(b, k))
  {
    var t := FindTransaction(b.transactions, id).value;
    Found(b.transactions, id);
    UnsettleKeeps(b, id);
    RemoveTransactionKeeps(Unsettle(b, id), id);
    var removed := Unsettle(b, id).(transactions := RemoveTransaction(b.transactions, id));
    forall k | k != t.key ensures LogOf(removed.transactions, k) == LogOf(b.transactions, k) {
      LogOfRemove(b.transactions, t, k);
    }
    LogChanged(b, removed, t.key);
    MaterialiseAgrees(removed, env, t.key);
  }

  lemma UpdateTransactionAgrees(b: Books, env: Env, id: int, patch: TradePatch)
    requires Inv(b) && UpdateTransaction(b, env, id, patch).Ok?
    ensures var key := FindTransaction(b.transactions, id).value.key;
            var r := UpdateTransaction(b, env, id, patch).value;
            Agrees(r, key) && forall k :: k != key ==> (Agrees(r, k) <==> Agrees(b, k))
  {
    Found(b.transactions, id);
    var was := FindTransaction(b.transactions, id).value;
    var t := Patched(was, patch);
    UnsettleKeeps(b, id);
    ReplaceTransactionKeeps(Unsettle(b, id), t);
    var edited := Unsettle(b, id).(transactions := ReplaceTransaction(b.transactions, t));
    forall k | k != t.key ensures LogOf(edited.transactions, k) == LogOf(b.transactions, k) {
      LogOfReplace(b.transactions, was, t, k);
    }
    LogChanged(b, edited, t.key);
    MaterialiseAgrees(edited, env, t.key);
    var synced := Materialise(edited, env, t.key).value;
    var original := if id in b.settlements then Some(b.settlements[id]) else None;
    if t.price.Some? {
      SettleLeavesView(synced, env, t, UpdatePlan(t, patch, original).value);
    }
    LedgerOnly(synced, UpdateTransaction(b, env, id, patch).value);
  }

  /** Deleting a holding leaves its security in agreement exactly when it was its only row. */
  lemma DeleteHoldingAgrees(b: Books, h: int)
    requires Inv(b) && h in b.holdings
    ensures var key := b.holdings[h].key;
            var r := DeleteHolding(b, h).value;
            && (Agrees(r, key) <==> RowsOf(b, key) == {h})
            && forall k :: k != key ==> (Agrees(r, k) <==> Agrees(b, k))
  {
    var key := b.holdings[h].key;
    var r := DeleteHolding(b, h).value;
    LogOfRemoveLog(b.transactions, key, key);
    assert RowsOf(r, key) == RowsOf(b, key) - {h};
    assert h in RowsOf(b, key);
    forall k | k != key ensures Agrees(r, k) <==> Agrees(b, k) {
      LogOfRemoveLog(b.transactions, key, k);
      assert RowsOf(r, k) == RowsOf(b, k);
      SameView(b, r, k);
    }
  }

  /** A single opening BUY projects to one lot with the entered quantity, cost and date. */
  lemma OpeningProjects(t: Transaction)
    requires Effective(t) && t.side.Buy?
    ensures Sort([t]) == [t]
    ensures Project([t]) == Held([Lot(t.quantity, t.tradedOn, PositivePrice(t.price))])
    ensures var lots := [Lot(t.quantity, t.tradedOn, PositivePrice(t.price))];
            && Quantity(lots) == t.quantity && StartedOn(lots) == Some(t.tradedOn)
            && CostBasis(lots) == PositivePrice(t.price)
  {
    assert [t][1..] == [] && [t][..0] == [];
    var lot := Lot(t.quantity, t.tradedOn, PositivePrice(t.price));
    assert [lot][1..] == [] && [] + [lot] == [lot];
    assert Replay([t][..0]) == Ok([]) && Apply([], t) == Ok([lot]);
    assert Replay([t]) == Ok([lot]);
    assert Total([lot]) == t.quantity;
    if lot.cost.Some? {
      assert TotalCost([lot]) == lot.quantity * lot.cost.value;
      PositiveMultiple(lot.quantity, lot.cost.value);
      RoundDivExact(lot.cost.value, lot.quantity);
    }
  }

  /** Entering a holding by hand leaves the view right exactly when the security had no row, and the
      entered row says what its opening BUY will say. */
  ghost predicate EntersCleanly(b: Books, form: HoldingForm) {
    && RowsOf(b, form.key) == {} && form.quantity > EPSILON
    && form.startedOn.Some? && PositivePrice(form.cost) == form.cost
  }

  lemma EnteredRowShows(b: Books, env: Env, form: HoldingForm)
    requires Inv(b) && CreateHolding(b, env, form).Ok? && form.quantity > EPSILON
    ensures var r := CreateHolding(b, env, form).value;
            var t := BaselineOf(b.next.transaction, EnteredRow(env, form), env.now);
            && LogOf(r.transactions, form.key) == [t] && Project([t]).Held?
            && (Shows(EnteredRow(env, form), [t], Project([t]).lots, form.key)
                <==> form.startedOn.Some? && PositivePrice(form.cost) == form.cost)
  {
    var t := BaselineOf(b.next.transaction, EnteredRow(env, form), env.now);
    LogOfRemoveLog(b.transactions, form.key, form.key);
    LogOfAppend(Entered(b, env, form).transactions, t, form.key);
    OpeningProjects(t);
    assert LogCurrency([t]) == form.currency;
  }

  lemma EnteredAgrees(b: Books, env: Env, form: HoldingForm)
    requires Inv(b) && CreateHolding(b, env, form).Ok?
    ensures Agrees(CreateHolding(b, env, form).value, form.key) <==> EntersCleanly(b, form)
  {
    var r, h := CreateHolding(b, env, form).value, b.next.holding;
    assert RowsOf(r, form.key) == RowsOf(b, form.key) + {h};
    assert h !in RowsOf(b, form.key) && h in RowsOf(r, form.key);
    if form.quantity <= EPSILON {
      LogOfRemoveLog(b.transactions, form.key, form.key);
    } else {
      var t := BaselineOf(b.next.transaction, EnteredRow(env, form), env.now);
      EnteredRowShows(b, env, form);
      OpeningProjects(t);
      if RowsOf(b, form.key) == {} {
        assert RowsOf(r, form.key) == {h} && r.holdings[h] == EnteredRow(env, form);
        forall k | RowsOf(r, form.key) == {k} ensures k == h { assert k in {h}; }
      } else {
        var other := Member(RowsOf(b, form.key));
        assert other in RowsOf(r, form.key) && other != h;
      }
    }
  }

  lemma EnteredElsewhere(b: Books, env: Env, form: HoldingForm, k: Key)
    requires Inv(b) && CreateHolding(b, env, form).Ok? && k != form.key
    ensures Agrees(CreateHolding(b, env, form).value, k) <==> Agrees(b, k)
  {
    var r := CreateHolding(b, env, form).value;
    LogOfRemoveLog(b.transactions, form.key, k);
    LogOfAppend(Entered(b, env, form).transactions,
                BaselineOf(b.next.transaction, EnteredRow(env, form), env.now), k);
    assert RowsOf(r, k) == RowsOf(b, k);
    SameView(b, r, k);
  }

  lemma CreateHoldingAgrees(b: Books, env: Env, form: HoldingForm)
    requires Inv(b) && CreateHolding(b, env, form).Ok?
    ensures var r := CreateHolding(b, env, form).value;
            && (Agrees(r, form.key) <==> EntersCleanly(b, form))
            && forall k :: k != form.key ==> (Agrees(r, k) <==> Agrees(b, k))
  {
    EnteredAgrees(b, env, form);
    forall k | k != form.key ensures Agrees(CreateHolding(b, env, form).value, k) <==> Agrees(b, k) {
      EnteredElsewhere(b, env, form, k);
    }
  }

  lemma CorrectedElsewhere(b: Books, env: Env, row: Holding, patch: HoldingPatch, started: int, k: Key)
    requires Inv(b) && k != row.key
    ensures LogOf(Corrected(b, env, row, patch, started).transactions, k) == LogOf(b.transactions, k)
  {
    var r := Corrected(b, env, row, patch, started);
    var log := NewestFirst(LogOf(b.transactions, row.key));
    if r.next == b.next {
      var was := log[|log| - 1];
      NewestFirstIsFrom(LogOf(b.transactions, row.key), was);
      InLog(b.transactions, row.key, was);
      var t := was.(
        side := Adjust, quantity := ValueOr(patch.quantity, row.quantity),
        price := if patch.cost.Given? then patch.cost.value else row.cost,
        currency := row.currency, tradedOn := started);
      assert r.transactions == ReplaceTransaction(b.transactions, t);
      LogOfReplace(b.transactions, was, t, k);
    } else {
      var t := r.transactions[|b.transactions|];
      assert r == Logged(b, t);
      LogOfAppend(b.transactions, t, k);
    }
  }

  lemma CorrectedView(b: Books, env: Env, row: Holding, patch: HoldingPatch, started: int)
    requires Inv(b)
    ensures forall k :: k != row.key ==> (Agrees(Corrected(b, env, row, patch, started), k) <==> Agrees(b, k))
  {
    forall k | k != row.key
      ensures LogOf(Corrected(b, env, row, patch, started).transactions, k) == LogOf(b.transactions, k)
    {
      CorrectedElsewhere(b, env, row, patch, started, k);
    }
    LogChanged(b, Corrected(b, env, row, patch, started), row.key);
  }

  /** The log with the correction in it projects to something.  Known before the request from the log, the row
      and the patch. */
  predicate StaysHeld(b: Books, env: Env, row: Holding, patch: HoldingPatch) {
    var check := CheckHoldingPatch(env, row, patch);
    check.Ok? ==> Project(LogOf(Corrected(b, env, row, patch, check.value).transactions, row.key)).Held?
  }

  /** A correction leaves its security in agreement exactly when the log with the correction in it still projects
      to something: otherwise a stale row stays behind. */
  lemma UpdateHoldingAgrees(b: Books, env: Env, h: int, patch: HoldingPatch)
    requires Inv(b) && UpdateHolding(b, env, h, patch).Ok? && Corrects(patch)
    ensures var row := b.holdings[h];
            var r := UpdateHolding(b, env, h, patch).value;
            && (Agrees(r, row.key) <==> StaysHeld(b, env, row, patch))
            && forall k :: k != row.key ==> (Agrees(r, k) <==> Agrees(b, k))
  {
    var row := b.holdings[h];
    var started := CheckHoldingPatch(env, row, patch).value;
    var corrected := Corrected(b, env, row, patch, started);
    CorrectedKeeps(b, env, row, patch, started);
    CorrectedView(b, env, row, patch, started);
    MaterialiseKeeps(corrected, env, row.key);
    MaterialiseAgrees(corrected, env, row.key);
    var synced := Materialise(corrected, env, row.key).value;
    if !Project(LogOf(corrected.transactions, row.key)).Held? {
      PutBack(synced, h, row);
    }
  }

  /** Putting a row back for a security whose log projects to nothing breaks that security only. */
  lemma PutBack(b: Books, h: int, row: Holding)
    requires Agrees(b, row.key) && !Project(LogOf(b.transactions, row.key)).Held?
    requires h in b.holdings ==> b.holdings[h].key == row.key
    ensures var r := b.(holdings := b.holdings[h := row]);
            && !Agrees(r, row.key)
            && forall k :: k != row.key ==> (Agrees(r, k) <==> Agrees(b, k))
  {
    var r := b.(holdings := b.holdings[h := row]);
    assert h in RowsOf(r, row.key);
    forall k | k != row.key ensures Agrees(r, k) <==> Agrees(b, k) {
      assert RowsOf(r, k) == RowsOf(b, k);
      SameView(b, r, k);
    }
  }

  // ---- runs ----

  /** The two requests that can break the view, and when they do not. */
  ghost predicate KeepsView(b: Books, env: Env, r: Request) {
    match r
    case HoldingCreate(form) => EntersCleanly(b, form)
    case HoldingUpdate(h, patch) => Corrects(patch) && h in b.holdings ==> StaysHeld(b, env, b.holdings[h], patch)
    case _ => true
  }

  lemma HoldingRequestKeepsView(b: Books, env: Env, r: Request)
    requires Inv(b) && AllAgree(b) && Handle(b, env, r).Ok?
    requires r.HoldingCreate? || r.HoldingUpdate? || r.HoldingDelete?
    ensures AllAgree(After(b, env, r)) <==> KeepsView(b, env, r)
  {
    var next := After(b, env, r);
    match r
    case HoldingCreate(form) =>
      CreateHoldingAgrees(b, env, form);
      OneDecides(b, next, form.key);
    case HoldingUpdate(h, patch) =>
      if Corrects(patch) {
        UpdateHoldingAgrees(b, env, h, patch);
        OneDecides(b, next, b.holdings[h].key);
      }
    case HoldingDelete(h) =>
      assert Agrees(b, b.holdings[h].key);
      assert h in RowsOf(b, b.holdings[h].key);
      DeleteHoldingAgrees(b, h);
  }

  /** In books in agreement every holding has its log. */
  lemma {:induction false} NothingToBackfill(b: Books, env: Env, keys: seq<Key>)
    requires AllAgree(b)
    ensures Backfilled(b, env, keys) == b
  {
    if keys == [] {
    } else {
      var n := |keys| - 1;
      NothingToBackfill(b, env, keys[..n]);
      assert Agrees(b, keys[n]);
    }
  }

  lemma OneDecides(b: Books, r: Books, key: Key)
    requires AllAgree(b) && forall k :: k != key ==> (Agrees(r, k) <==> Agrees(b, k))
    ensures AllAgree(r) <==> Agrees(r, key)
  {
  }

  /** From books in agreement, a request that succeeds keeps the view if and only if it is not one of
      the two exceptions. */
  lemma HandleKeepsView(b: Books, env: Env, r: Request)
    requires Inv(b) && AllAgree(b) && Handle(b, env, r).Ok?
    ensures AllAgree(After(b, env, r)) <==> KeepsView(b, env, r)
  {
    match r
    case TradeCreate(form) => CreateTransactionAgrees(b, env, form);
    case TradeUpdate(id, patch) => UpdateTransactionAgrees(b, env, id, patch);
    case TradeDelete(id) => DeleteTransactionAgrees(b, env, id);
    case HoldingCreate(_) => HoldingRequestKeepsView(b, env, r);
    case HoldingUpdate(_, _) => HoldingRequestKeepsView(b, env, r);
    case HoldingDelete(_) => HoldingRequestKeepsView(b, env, r);
    case LogsBackfill(keys) => NothingToBackfill(b, env, keys);
    case _ =>
      LedgerRequestLeavesTrades(b, env, r);
      LedgerOnly(b, After(b, env, r));
  }

  predicate ChangesLedgerOnly(r: Request) {
    && !r.TradeCreate? && !r.TradeUpdate? && !r.TradeDelete?
    && !r.HoldingCreate? && !r.HoldingUpdate? && !r.HoldingDelete? && !r.LogsBackfill?
  }

  lemma LedgerRequestLeavesTrades(b: Books, env: Env, r: Request)
    requires Handle(b, env, r).Ok? && ChangesLedgerOnly(r)
    ensures After(b, env, r).transactions == b.transactions && After(b, env, r).holdings == b.holdings
  {
  }

  ghost predicate RunKeepsView(history: History) {
    forall i :: 0 <= i < |history| ==>
      (Handle(Run(history[..i]), history[i].0, history[i].1).Ok? ==>
         KeepsView(Run(history[..i]), history[i].0, history[i].1))
  }

  /** After every run without those exceptions each security has at most one row, it has one exactly
      when its log projects to something, and the row equals the projection. */
  lemma {:induction false} EveryRunAgrees(history: History)
    requires RunKeepsView(history)
    ensures AllAgree(Run(history))
  {
    if history == [] {
      forall key ensures Agrees(EMPTY_BOOKS, key) {
        assert LogOf(EMPTY_BOOKS.transactions, key) == [];
        assert RowsOf(EMPTY_BOOKS, key) == {};
      }
    } else {
      var n := |history| - 1;
      var prefix := history[..n];
      forall i | 0 <= i < n ensures prefix[..i] == history[..i] && prefix[i] == history[i] {}
      EveryRunAgrees(prefix);
      EveryRunKeepsInv(prefix);
      var (env, r) := history[n];
      if Handle(Run(prefix), env, r).Ok? {
        HandleKeepsView(Run(prefix), env, r);
      }
    }
  }
}
