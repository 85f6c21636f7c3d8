/** What the trade and holding requests leave in the log and in the rows: when each is accepted, the recorded
    transaction field by field, and what becomes of everything else. */
module LogResults {
  import opened Wrappers
  import opened Trades
  import opened Lots
  import opened Projection
  import opened Tables
  import opened Bookkeeping
  import opened LedgerInvariant
  import opened TradeInvariant
  import opened Runs
  import opened HoldingView
  import opened LedgerResults
  import opened TradeResults

  /** The log of one security was rewritten: its rows follow, the other rows and the ledger stay. */
  ghost predicate Relogged(b: Books, r: Books, log: seq<Transaction>, key: Key) {
    && r.transactions == log && ShownByRow(r, key)
    && r.accounts == b.accounts && r.entries == b.entries
    && r.transfers == b.transfers && r.settlements == b.settlements
    && (forall h :: h in r.holdings && r.holdings[h].key != key ==> h in b.holdings)
    && (forall h :: h in b.holdings && b.holdings[h].key != key ==> h in r.holdings && r.holdings[h] == b.holdings[h])
  }

  /** The log of a security replays in sorted order. */
  ghost predicate LogReplays(log: seq<Transaction>, key: Key) { Replay(Sort(LogOf(log, key))).Ok? }

  lemma MaterialiseRelogs(b: Books, env: Env, key: Key)
    requires Inv(b)
    ensures Materialise(b, env, key).Ok? <==> LogReplays(b.transactions, key)
    ensures Materialise(b, env, key).Ok? ==> Relogged(b, Materialise(b, env, key).value, b.transactions, key)
  {
    if Materialise(b, env, key).Ok? {
      var r := Materialise(b, env, key).value;
      MaterialiseKeeps(b, env, key);
      MaterialiseAgrees(b, env, key);
      AgreementShowsQueue(r, key);
      forall h | h in r.holdings && r.holdings[h].key != key ensures h in b.holdings {
        OtherRows(b, env, key, r.holdings[h].key);
        assert h in RowsOf(r, r.holdings[h].key);
      }
      forall h | h in b.holdings && b.holdings[h].key != key ensures h in r.holdings && r.holdings[h] == b.holdings[h] {
        OtherRows(b, env, key, b.holdings[h].key);
        assert h in RowsOf(b, b.holdings[h].key);
      }
    }
  }

  // ---- the opening BUY ----

  /** The opening BUY of a row: its units, its positive cost or no price, its currency, on its start day or else the day
      it was made. */
  ghost predicate OpeningBuy(t: Transaction, row: Holding, now: int) {
    && t.key == row.key && t.side == Buy && t.currency == row.currency && t.createdAt == now
    && t.quantity == (if row.quantity >= 0 then row.quantity else 0)
    && t.price == (match row.cost case Some(c) => if c >= 1 then Some(c) else None case None => None)
    && t.tradedOn == (match row.startedOn case Some(d) => d case None => row.createdOn)
  }

  /** The oldest row of a security, which has no log yet. */
  ghost predicate Unlogged(b: Books, key: Key, h: int) {
    && h in b.holdings && b.holdings[h].key == key
    && (forall k :: k in b.holdings && b.holdings[k].key == key ==> h <= k)
    && forall t :: t in b.transactions ==> t.key != key
  }

  /** A security with a row and no log gets the opening BUY of its oldest row; otherwise nothing happens. */
  lemma BaselineIsOpeningBuy(b: Books, env: Env, key: Key)
    requires Inv(b)
    ensures var r := EnsureBaseline(b, env, key);
      && (forall h :: Unlogged(b, key, h) ==>
            |r.transactions| == |b.transactions| + 1 && r.transactions[..|b.transactions|] == b.transactions
            && OpeningBuy(r.transactions[|b.transactions|], b.holdings[h], env.now)
            && r == b.(transactions := r.transactions, next := r.next))
      && ((forall h :: !Unlogged(b, key, h)) ==> r == b)
  {
    NoneInLog(b.transactions, key);
    forall h ensures h in RowsOf(b, key) <==> h in b.holdings && b.holdings[h].key == key {}
    if RowsOf(b, key) != {} && LogOf(b.transactions, key) == [] {
      assert Unlogged(b, key, Least(RowsOf(b, key)));
    }
  }

  lemma NoneInLog(log: seq<Transaction>, key: Key)
    ensures LogOf(log, key) == [] <==> forall t :: t in log ==> t.key != key
  {
    forall t ensures t in LogOf(log, key) <==> t in log && t.key == key { InLog(log, key, t); }
    if LogOf(log, key) != [] {
      assert LogOf(log, key)[0] in LogOf(log, key);
    }
  }

  // ---- created trades ----

  /** Stocks are traded in whole shares. */
  predicate WholeShares(quantity: int, market: Market) {
    market in {CN, HK, US, OTHER} ==> quantity % 100_000_000 == 0
  }

  /** A purchase may be funded from an account, the proceeds of a sale go to one, old or new; ADJUST is not offered. */
  predicate Offered(form: TradeForm) {
    && !form.side.Adjust?
    && (form.plan.Deduct? ==> form.side == Buy)
    && (form.plan.AddTo? || form.plan.NewAccount? ==> form.side == Sell)
  }

  predicate Positive(price: Option<int>) { price.Some? && price.value >= 1 }

  /** A purchase carries the positive price it is given, or none; a sale the positive price it is given, or else the
      quote, in the quote's currency if it has one. */
  ghost predicate Executed(env: Env, form: TradeForm, price: Option<int>, currency: Currency) {
    if Positive(form.price) then price == form.price && currency == form.currency
    else if form.side == Buy then price == None && currency == form.currency
    else
      && form.key in env.quotes && Positive(price) && price.value == env.quotes[form.key].price
      && (match env.quotes[form.key].currency
          case Some(c) => currency == c
          case None => currency == form.currency)
  }

  /** The units a log leaves cover a sale, up to one unit. */
  ghost predicate Covered(log: seq<Transaction>, form: TradeForm) {
    form.side == Sell ==>
      (LogReplays(log, form.key) && |Queue(Replay(Sort(LogOf(log, form.key))).value)| + 1 >= form.quantity)
  }

  /** The transaction a form asks for. */
  ghost predicate AskedFor(b: Books, env: Env, form: TradeForm, t: Transaction) {
    && t.id == b.next.transaction && t.key == form.key && t.side == form.side && t.quantity == form.quantity
    && t.tradedOn == form.tradedOn && t.createdAt == env.now && Executed(env, form, t.price, t.currency)
  }

  ghost predicate Tradeable(based: Books, env: Env, form: TradeForm, t: Transaction) {
    && form.tradedOn <= env.today && Offered(form) && WholeShares(form.quantity, form.key.market)
    && Covered(based.transactions, form) && AskedFor(based, env, form, t)
  }

  lemma HeldUnits(log: seq<Transaction>, key: Key)
    ensures Project(LogOf(log, key)).Rejected? <==> !LogReplays(log, key)
    ensures LogReplays(log, key) ==>
              |Queue(Replay(Sort(LogOf(log, key))).value)|
              == (match Project(LogOf(log, key)) case Held(lots) => Quantity(lots) case _ => 0)
  {
    SortSorts(LogOf(log, key));
    if LogReplays(log, key) {
      SortedReplay(Sort(LogOf(log, key)));
      QueueLength(Replay(Sort(LogOf(log, key))).value);
    }
  }

  /** Before the log is changed, exactly the offered, whole, covered and priced trades pass. */
  lemma TermsAreAskedFor(based: Books, env: Env, form: TradeForm, t: Transaction)
    requires form.tradedOn <= env.today && PlanFitsSide(form.side, form.plan)
    requires QuantityFitsMarket(form.quantity, form.key.market)
    ensures Tradeable(based, env, form, t) <==>
              && TradeTerms(based, env, form).Ok?
              && t == Transaction(based.next.transaction, form.key, form.side, form.quantity,
                                  TradeTerms(based, env, form).value.0, TradeTerms(based, env, form).value.1,
                                  form.tradedOn, env.now)
  {
    HeldUnits(based.transactions, form.key);
  }

  /** The log becomes the given one, the rows of the trade's security follow, and the trade's cash is settled. */
  ghost predicate Records(b: Books, r: Books, env: Env, log: seq<Transaction>, t: Transaction, plan: Plan) {
    exists synced :: RecordsVia(b, synced, r, env, log, t, plan)
  }

  ghost predicate RecordsVia(
    b: Books, synced: Books, r: Books, env: Env, log: seq<Transaction>, t: Transaction, plan: Plan)
  {
    Relogged(b, synced, log, t.key) && if t.price.None? then r == synced else Settled(synced, r, env, t, plan)
  }

  /** A trade is accepted exactly when it can be offered, its log replays with it, and its cash can be settled. */
  ghost predicate Creatable(based: Books, env: Env, form: TradeForm, t: Transaction) {
    && Tradeable(based, env, form, t) && LogReplays(based.transactions + [t], form.key)
    && (t.price.Some? ==> CanSettle(based, env, t, form.plan))
  }

  lemma SyncedTrade(based: Books, env: Env, t: Transaction, plan: Plan)
    requires Inv(based) && t.id == based.next.transaction
    ensures Materialise(Logged(based, t), env, t.key).Ok? <==> LogReplays(based.transactions + [t], t.key)
    ensures Materialise(Logged(based, t), env, t.key).Ok? ==>
      var synced := Materialise(Logged(based, t), env, t.key).value;
      && Relogged(based, synced, based.transactions + [t], t.key)
      && (t.price.Some? ==>
            (Settle(synced, env, t, plan).Ok? <==> CanSettle(based, env, t, plan))
            && (Settle(synced, env, t, plan).Ok? ==> Settled(synced, Settle(synced, env, t, plan).value, env, t, plan)))
  {
    AddTransactionKeeps(based, t);
    MaterialiseRelogs(Logged(based, t), env, t.key);
    if Materialise(Logged(based, t), env, t.key).Ok? && t.price.Some? {
      var synced := Materialise(Logged(based, t), env, t.key).value;
      MaterialiseKeeps(Logged(based, t), env, t.key);
      assert t in synced.transactions;
      FreshIsUnsettled(based, t);
      SettlementMovesWorth(synced, env, t, plan);
      SameAccountsSettle(based, synced, env, t, plan);
    }
  }

  lemma FreshIsUnsettled(b: Books, t: Transaction)
    requires Inv(b) && t.id == b.next.transaction
    ensures t.id !in b.settlements
  {
    forall x | x in b.settlements ensures x < b.next.transaction { assert Live(b, x); }
  }

  lemma SameAccountsSettle(b: Books, r: Books, env: Env, t: Transaction, plan: Plan)
    requires r.accounts == b.accounts
    ensures CanSettle(r, env, t, plan) <==> CanSettle(b, env, t, plan)
  {
  }

  /** Creating a trade, over the log with its opening BUY: accepted exactly when some transaction can be created from
      the form, and then that transaction is the one new row of the log, and its cash is settled. */
  lemma CreatedTrade(b: Books, env: Env, form: TradeForm)
    requires Inv(b)
    ensures var based := EnsureBaseline(b, env, form.key);
      && (CreateTransaction(b, env, form).Ok? <==> exists t :: Creatable(based, env, form, t))
      && (forall t :: CreateTransaction(b, env, form).Ok? && Creatable(based, env, form, t) ==>
            Records(based, CreateTransaction(b, env, form).value, env, based.transactions + [t], t, form.plan))
  {
    var based := EnsureBaseline(b, env, form.key);
    EnsureBaselineKeeps(b, env, form.key);
    forall t ensures Creatable(based, env, form, t) ==>
      && CreateTransaction(b, env, form).Ok?
      && Records(based, CreateTransaction(b, env, form).value, env, based.transactions + [t], t, form.plan)
    {
      if Creatable(based, env, form, t) {
        TermsAreAskedFor(based, env, form, t);
        SyncedTrade(based, env, t, form.plan);
        assert RecordsVia(based, Materialise(Logged(based, t), env, t.key).value,
                          CreateTransaction(b, env, form).value, env, based.transactions + [t], t, form.plan);
      }
    }
    if CreateTransaction(b, env, form).Ok? {
      var (price, currency) := TradeTerms(based, env, form).value;
      var t := Transaction(based.next.transaction, form.key, form.side, form.quantity, price, currency,
                           form.tradedOn, env.now);
      TermsAreAskedFor(based, env, form, t);
      SyncedTrade(based, env, t, form.plan);
      assert Creatable(based, env, form, t);
    }
  }

  // ---- updated trades ----

  /** A patch asks for no day ahead, for whole shares of a stock, and for cash options of the trade's own side only. */
  predicate Editable(env: Env, was: Transaction, patch: TradePatch) {
    && (patch.tradedOn.Some? ==> patch.tradedOn.value <= env.today)
    && (patch.quantity.Some? ==> WholeShares(patch.quantity.value, was.key.market))
    && (was.side != Sell ==> patch.sellHandling == None && !NamesAccount(patch.sellAccount))
    && (was.side != Buy ==> patch.buyHandling == None && !NamesAccount(patch.buyAccount))
  }

  predicate NamesAccount(f: Field<int>) { f.Given? && f.value.Some? }

  /** Every field the patch names is taken, the price possibly as none, and every other field is kept. */
  ghost predicate TradeEdited(patch: TradePatch, was: Transaction, now: Transaction) {
    && now.id == was.id && now.key == was.key && now.side == was.side && now.createdAt == was.createdAt
    && now.quantity == (match patch.quantity case Some(q) => q case None => was.quantity)
    && now.price == (match patch.price case Given(p) => p case Unset => was.price)
    && now.currency == (match patch.currency case Some(c) => c case None => was.currency)
    && now.tradedOn == (match patch.tradedOn case Some(d) => d case None => was.tradedOn)
  }

  /** The account a patch names, or else the one settled on. */
  ghost predicate KeepsAccount(f: Field<int>, original: Option<Settlement>, a: int) {
    f == Given(Some(a)) || (f.Unset? && original.Some? && original.value.account == a)
  }

  /** The way the proceeds are handled: the one named, or else as before, or else not at all. */
  ghost predicate SaleHandled(patch: TradePatch, original: Option<Settlement>, handling: Handling) {
    match (patch.sellHandling, original)
    case (Some(named), _) => handling == named
    case (None, Some(s)) => handling == s.handling
    case (None, None) => handling == Discard
  }

  /** An edited sale has its proceeds left out, added to an account that is named or was not opened by the sale, or put
      into a new account. */
  ghost predicate RedoesSale(patch: TradePatch, original: Option<Settlement>, plan: Plan) {
    match plan
    case NoCash => SaleHandled(patch, original, Discard)
    case AddTo(a) =>
      && SaleHandled(patch, original, AddToExistingCash) && KeepsAccount(patch.sellAccount, original, a)
      && (patch.sellAccount.Unset? ==> !original.value.autoCreated)
    case NewAccount =>
      SaleHandled(patch, original, CreateNewCash) || SaleHandled(patch, original, DeductFromExistingCash)
    case Deduct(_) => false
  }

  ghost predicate Funded(original: Option<Settlement>) { original.Some? && original.value.direction == Outflow }

  /** An edited purchase is funded from the account that is named or was used before, and needs a price for that;
      without any of them it is not funded. */
  ghost predicate RedoesPurchase(patch: TradePatch, original: Option<Settlement>, now: Transaction, plan: Plan) {
    match plan
    case NoCash => patch.buyHandling == None && !NamesAccount(patch.buyAccount) && !Funded(original)
    case Deduct(a) =>
      && Positive(now.price) && KeepsAccount(patch.buyAccount, original, a)
      && (patch.buyAccount.Unset? ==> Funded(original))
      && (patch.buyHandling == Some(DeductFromExistingCash)
          || (patch.buyHandling == None && (Funded(original) ==> original.value.handling == DeductFromExistingCash)))
    case _ => false
  }

  ghost predicate Redoes(patch: TradePatch, original: Option<Settlement>, now: Transaction, plan: Plan) {
    match now.side
    case Buy => RedoesPurchase(patch, original, now, plan)
    case Sell => Positive(now.price) && RedoesSale(patch, original, plan)
    case Adjust => plan == NoCash
  }

  lemma PlanRedoes(patch: TradePatch, original: Option<Settlement>, now: Transaction, plan: Plan)
    ensures UpdatePlan(now, patch, original) == Ok(plan) <==> Redoes(patch, original, now, plan)
  {
  }

  function SettledAs(b: Books, x: int): Option<Settlement> {
    if x in b.settlements then Some(b.settlements[x]) else None
  }

  /** The edited trade can take the place of the i-th one, and be settled as the plan says once the old cash is back. */
  ghost predicate Updatable(b: Books, env: Env, patch: TradePatch, i: nat, now: Transaction, plan: Plan)
    requires i < |b.transactions|
  {
    var was := b.transactions[i];
    && Editable(env, was, patch) && TradeEdited(patch, was, now)
    && LogReplays(b.transactions[i := now], was.key) && Redoes(patch, SettledAs(b, was.id), now, plan)
    && (now.price.Some? ==> CanSettle(Unsettle(b, was.id), env, now, plan))
  }

  /** The old cash is taken back, the edited trade takes the place of the i-th one, and the new cash is settled. */
  ghost predicate TakesPlace(b: Books, r: Books, env: Env, i: nat, now: Transaction, plan: Plan)
    requires i < |b.transactions|
  {
    Records(Unsettle(b, b.transactions[i].id), r, env, b.transactions[i := now], now, plan)
  }

  /** What finding and replacing a transaction by id means for its place in the log. */
  lemma FoundAt(log: seq<Transaction>, i: nat)
    requires IncreasingLog(log) && i < |log|
    ensures FindTransaction(log, log[i].id) == Some(log[i])
    ensures forall t: Transaction :: t.id == log[i].id ==> ReplaceTransaction(log, t) == log[i := t]
  {
    FoundInPlace(log, i);
    forall t: Transaction | t.id == log[i].id { ReplacedInPlace(log, i, t); }
  }

  lemma FoundInPlace(log: seq<Transaction>, i: nat)
    requires IncreasingLog(log) && i < |log|
    ensures FindTransaction(log, log[i].id) == Some(log[i])
  {
    Found(log, log[i].id);
    var j :| 0 <= j < |log| && log[j] == FindTransaction(log, log[i].id).value;
    assert i == j;
  }

  lemma ReplacedInPlace(log: seq<Transaction>, i: nat, t: Transaction)
    requires IncreasingLog(log) && i < |log| && t.id == log[i].id
    ensures ReplaceTransaction(log, t) == log[i := t]
  {
    Replaced(log, t);
  }

  /** Refusals of a patch, and the one transaction it asks for. */
  lemma PatchIsEdited(env: Env, was: Transaction, patch: TradePatch)
    ensures CheckTradePatch(env, was, patch).None? <==> Editable(env, was, patch)
    ensures forall now :: TradeEdited(patch, was, now) <==> now == Patched(was, patch)
  {
  }

  lemma SyncedUpdate(b: Books, env: Env, i: nat, now: Transaction, plan: Plan)
    requires Inv(b) && i < |b.transactions| && now.id == b.transactions[i].id && now.key == b.transactions[i].key
    ensures var edited := Unsettle(b, now.id).(transactions := b.transactions[i := now]);
      && (Materialise(edited, env, now.key).Ok? <==> LogReplays(b.transactions[i := now], now.key))
      && (Materialise(edited, env, now.key).Ok? ==>
            var synced := Materialise(edited, env, now.key).value;
            && Relogged(Unsettle(b, now.id), synced, b.transactions[i := now], now.key)
            && (now.price.Some? ==>
                  (Settle(synced, env, now, plan).Ok? <==> CanSettle(Unsettle(b, now.id), env, now, plan))
                  && (Settle(synced, env, now, plan).Ok? ==>
                        Settled(synced, Settle(synced, env, now, plan).value, env, now, plan))))
  {
    var reversed := Unsettle(b, now.id);
    var edited := reversed.(transactions := b.transactions[i := now]);
    FoundAt(b.transactions, i);
    UnsettleKeeps(b, now.id);
    ReplaceTransactionKeeps(reversed, now);
    MaterialiseRelogs(edited, env, now.key);
    if Materialise(edited, env, now.key).Ok? && now.price.Some? {
      var synced := Materialise(edited, env, now.key).value;
      MaterialiseKeeps(edited, env, now.key);
      assert synced.transactions[i] in synced.transactions;
      SettlementMovesWorth(synced, env, now, plan);
      SameAccountsSettle(reversed, synced, env, now, plan);
    }
  }

  lemma EditGoesThrough(b: Books, env: Env, patch: TradePatch, i: nat, now: Transaction, plan: Plan)
    requires Inv(b) && i < |b.transactions| && Updatable(b, env, patch, i, now, plan)
    ensures UpdateTransaction(b, env, now.id, patch).Ok?
    ensures TakesPlace(b, UpdateTransaction(b, env, now.id, patch).value, env, i, now, plan)
  {
    FoundAt(b.transactions, i);
    PatchIsEdited(env, b.transactions[i], patch);
    PlanRedoes(patch, SettledAs(b, now.id), now, plan);
    SyncedUpdate(b, env, i, now, plan);
    var edited := Unsettle(b, now.id).(transactions := b.transactions[i := now]);
    var synced := Materialise(edited, env, now.key).value;
    assert UpdateTransaction(b, env, now.id, patch)
        == if now.price.None? then Ok(synced) else Settle(synced, env, now, plan);
    var r := UpdateTransaction(b, env, now.id, patch).value;
    assert RecordsVia(Unsettle(b, b.transactions[i].id), synced, r, env, b.transactions[i := now], now, plan);
  }

  lemma UpdateOfFound(b: Books, env: Env, patch: TradePatch, i: nat)
    requires Inv(b) && i < |b.transactions|
    ensures UpdateTransaction(b, env, b.transactions[i].id, patch).Ok? <==>
      exists now, plan :: Updatable(b, env, patch, i, now, plan)
    ensures forall now, plan :: Updatable(b, env, patch, i, now, plan) ==>
              UpdateTransaction(b, env, b.transactions[i].id, patch).Ok?
              && TakesPlace(b, UpdateTransaction(b, env, b.transactions[i].id, patch).value, env, i, now, plan)
  {
    var was := b.transactions[i];
    FoundAt(b.transactions, i);
    PatchIsEdited(env, was, patch);
    forall now, plan ensures Updatable(b, env, patch, i, now, plan) ==>
      UpdateTransaction(b, env, was.id, patch).Ok?
      && TakesPlace(b, UpdateTransaction(b, env, was.id, patch).value, env, i, now, plan)
    {
      if Updatable(b, env, patch, i, now, plan) {
        EditGoesThrough(b, env, patch, i, now, plan);
      }
    }
    if UpdateTransaction(b, env, was.id, patch).Ok? {
      var now := Patched(was, patch);
      var plan := UpdatePlan(now, patch, SettledAs(b, was.id)).value;
      PlanRedoes(patch, SettledAs(b, was.id), now, plan);
      SyncedUpdate(b, env, i, now, plan);
      assert Updatable(b, env, patch, i, now, plan);
    }
  }

  /** Updating a trade: accepted exactly when its id is in the log and some edit of it is possible, and then that edit
      takes its place in the log, the old cash is taken back, and the new one is settled. */
  lemma UpdatedTrade(b: Books, env: Env, id: int, patch: TradePatch)
    requires Inv(b)
    ensures UpdateTransaction(b, env, id, patch).Ok? <==>
      exists i: nat, now, plan :: i < |b.transactions| && b.transactions[i].id == id
                               && Updatable(b, env, patch, i, now, plan)
    ensures forall i: nat, now, plan ::
      i < |b.transactions| && b.transactions[i].id == id && Updatable(b, env, patch, i, now, plan) ==>
        UpdateTransaction(b, env, id, patch).Ok?
        && TakesPlace(b, UpdateTransaction(b, env, id, patch).value, env, i, now, plan)
  {
    forall i: nat | i < |b.transactions| && b.transactions[i].id == id
      ensures UpdateTransaction(b, env, id, patch).Ok? <==> exists now, plan :: Updatable(b, env, patch, i, now, plan)
      ensures forall now, plan :: Updatable(b, env, patch, i, now, plan) ==>
                UpdateTransaction(b, env, id, patch).Ok?
                && TakesPlace(b, UpdateTransaction(b, env, id, patch).value, env, i, now, plan)
    {
      UpdateOfFound(b, env, patch, i);
    }
    if UpdateTransaction(b, env, id, patch).Ok? {
      Found(b.transactions, id);
      var i: nat :| i < |b.transactions| && b.transactions[i] == FindTransaction(b.transactions, id).value;
      var now, plan :| Updatable(b, env, patch, i, now, plan);
      assert b.transactions[i].id == id;
    }
  }

  // ---- deleted trades ----

  /** Deleting a trade of the log: accepted exactly when the log replays without it; its cash is taken back and its row
      taken out. */
  lemma DeletedTrade(b: Books, env: Env, i: nat)
    requires Inv(b) && i < |b.transactions|
    ensures var was, rest := b.transactions[i], b.transactions[..i] + b.transactions[i + 1..];
      && (DeleteTransaction(b, env, was.id).Ok? <==> LogReplays(rest, was.key))
      && (DeleteTransaction(b, env, was.id).Ok? ==>
            Relogged(Unsettle(b, was.id), DeleteTransaction(b, env, was.id).value, rest, was.key))
  {
    var was := b.transactions[i];
    FoundAt(b.transactions, i);
    RemovedAt(b.transactions, i);
    UnsettleKeeps(b, was.id);
    RemoveTransactionKeeps(Unsettle(b, was.id), was.id);
    MaterialiseRelogs(Unsettle(b, was.id).(transactions := RemoveTransaction(b.transactions, was.id)), env, was.key);
  }

  lemma {:induction false} RemovedAt(log: seq<Transaction>, i: nat)
    requires IncreasingLog(log) && i < |log|
    ensures RemoveTransaction(log, log[i].id) == log[..i] + log[i + 1..]
  {
    if i == 0 {
      NotThere(log[1..], log[0]);
    } else {
      RemovedAt(log[1..], i - 1);
      assert log[..i] + log[i + 1..] == [log[0]] + (log[1..][..i - 1] + log[1..][i..]);
    }
  }

  // ---- holdings entered by hand ----

  lemma EnteredLog(b: Books, env: Env, form: HoldingForm)
    requires Inv(b) && CreateHolding(b, env, form).Ok?
    ensures var r, h := CreateHolding(b, env, form).value, b.next.holding;
      && h in r.holdings
      && (form.quantity <= 1 ==> LogOf(r.transactions, form.key) == [])
      && (form.quantity > 1 ==>
            |LogOf(r.transactions, form.key)| == 1
            && OpeningBuy(LogOf(r.transactions, form.key)[0], r.holdings[h], env.now))
      && forall k :: k != form.key ==> LogOf(r.transactions, k) == LogOf(b.transactions, k)
  {
    forall k ensures LogOf(Entered(b, env, form).transactions, k)
                  == if k == form.key then [] else LogOf(b.transactions, k)
    {
      LogOfRemoveLog(b.transactions, form.key, k);
    }
    if form.quantity > 1 {
      var t := BaselineOf(b.next.transaction, EnteredRow(env, form), env.now);
      forall k { LogOfAppend(Entered(b, env, form).transactions, t, k); }
    }
  }

  ghost predicate SettlesOneOf(b: Books, x: int, key: Key) {
    exists t :: t in b.transactions && t.id == x && t.key == key
  }

  lemma OwnSettlements(b: Books, key: Key)
    ensures forall x :: x in TransactionsOf(b.transactions, key) <==> SettlesOneOf(b, x, key)
  {
    forall x ensures x in TransactionsOf(b.transactions, key) <==> SettlesOneOf(b, x, key) {
      if SettlesOneOf(b, x, key) {
        var t :| t in b.transactions && t.id == x && t.key == key;
        var i :| 0 <= i < |b.transactions| && b.transactions[i] == t;
        assert b.transactions[i].id in TransactionsOf(b.transactions, key);
      }
    }
  }

  /** Entering a holding is refused exactly for a day ahead or partial shares.  It adds a row with the fields of the
      form, puts one opening BUY in place of the log, and drops the settlements of that log; the ledger stays. */
  lemma EnteredHolding(b: Books, env: Env, form: HoldingForm)
    requires Inv(b)
    ensures CreateHolding(b, env, form).Ok? <==>
      (form.startedOn.Some? ==> form.startedOn.value <= env.today) && WholeShares(form.quantity, form.key.market)
    ensures CreateHolding(b, env, form).Ok? ==>
      var r, h := CreateHolding(b, env, form).value, b.next.holding;
      && h !in b.holdings
      && r.holdings
         == b.holdings[h := Holding(form.key, form.quantity, form.cost, form.startedOn, form.currency, env.today)]
      && (form.quantity <= 1 ==> LogOf(r.transactions, form.key) == [])
      && (form.quantity > 1 ==>
            |LogOf(r.transactions, form.key)| == 1
            && OpeningBuy(LogOf(r.transactions, form.key)[0], r.holdings[h], env.now))
      && (forall k :: k != form.key ==> LogOf(r.transactions, k) == LogOf(b.transactions, k))
      && (forall x :: x in r.settlements <==> x in b.settlements && !SettlesOneOf(b, x, form.key))
      && (forall x :: x in r.settlements ==> r.settlements[x] == b.settlements[x])
      && r.accounts == b.accounts && r.entries == b.entries && r.transfers == b.transfers
  {
    OwnSettlements(b, form.key);
    if CreateHolding(b, env, form).Ok? {
      EnteredLog(b, env, form);
    }
  }

  // ---- holdings corrected by hand ----

  /** The start day of the correction: the day that is named, or else the row's. */
  ghost predicate StartsOn(patch: HoldingPatch, row: Holding, started: int) {
    match patch.startedOn
    case Given(Some(day)) => started == day
    case _ => row.startedOn == Some(started)
  }

  /** A correction names no day ahead and no partial shares. */
  predicate Correctable(env: Env, row: Holding, patch: HoldingPatch) {
    && (patch.startedOn.Given? && patch.startedOn.value.Some? ==> patch.startedOn.value.value <= env.today)
    && (patch.quantity.Given? && patch.quantity.value.Some? ==>
          WholeShares(patch.quantity.value.value, row.key.market))
  }

  lemma CorrectionIsChecked(env: Env, row: Holding, patch: HoldingPatch, started: int)
    ensures CheckHoldingPatch(env, row, patch) == Ok(started)
            <==> Correctable(env, row, patch) && StartsOn(patch, row, started)
  {
  }

  predicate NoLater(a: Transaction, b: Transaction) {
    if a.tradedOn != b.tradedOn then a.tradedOn < b.tradedOn
    else if a.createdAt != b.createdAt then a.createdAt < b.createdAt
    else a.id <= b.id
  }

  /** The first transaction of a security by day, clock and id. */
  ghost predicate Earliest(log: seq<Transaction>, key: Key, i: int) {
    && 0 <= i < |log| && log[i].key == key
    && forall j :: 0 <= j < |log| && log[j].key == key ==> NoLater(log[i], log[j])
  }

  /** The correction: an ADJUST to the quantity that is named or shown, at the cost that is named, possibly none, or
      shown. */
  ghost predicate Correction(row: Holding, patch: HoldingPatch, started: int, t: Transaction) {
    && t.key == row.key && t.side == Adjust && t.currency == row.currency && t.tradedOn == started
    && Takes(patch.quantity, row.quantity, t.quantity)
    && t.price == (match patch.cost case Given(c) => c case Unset => row.cost)
  }

  /** It takes over the earliest transaction when that is not before the start day, and is added otherwise. */
  ghost predicate CorrectsLog(
    b: Books, env: Env, row: Holding, patch: HoldingPatch, started: int, t: Transaction, log: seq<Transaction>)
  {
    && Correction(row, patch, started, t)
    && ((exists i :: Earliest(b.transactions, row.key, i) && TakesOver(b.transactions, i, started, t, log))
        || ((forall i :: Earliest(b.transactions, row.key, i) ==> b.transactions[i].tradedOn < started)
            && t.id == b.next.transaction && t.createdAt == env.now && log == b.transactions + [t]))
  }

  ghost predicate TakesOver(was: seq<Transaction>, i: int, started: int, t: Transaction, log: seq<Transaction>)
    requires 0 <= i < |was|
  {
    started <= was[i].tradedOn && t.id == was[i].id && t.createdAt == was[i].createdAt && log == was[i := t]
  }

  ghost predicate Descends(log: seq<Transaction>) {
    forall i, j :: 0 <= i <= j < |log| ==> NoLater(log[j], log[i])
  }

  lemma {:induction false} NewestFirstDescends(log: seq<Transaction>)
    ensures Descends(NewestFirst(log))
  {
    if log == [] {
    } else {
      NewestFirstDescends(log[1..]);
      InsertNewestDescends(log[0], NewestFirst(log[1..]));
    }
  }

  lemma {:induction false} InsertNewestDescends(t: Transaction, log: seq<Transaction>)
    requires Descends(log)
    ensures Descends(InsertNewest(t, log))
  {
    if log == [] || !Newer(log[0], t) {
    } else {
      InsertNewestDescends(t, log[1..]);
      var rest := InsertNewest(t, log[1..]);
      forall j | 0 <= j < |rest| ensures NoLater(rest[j], log[0]) {
        InsertNewestIsFrom(t, log[1..], rest[j]);
      }
    }
  }

  /** In a newest-first arrangement of a security's transactions the last one is the earliest. */
  lemma LastIsEarliest(log: seq<Transaction>, key: Key, newest: seq<Transaction>)
    requires Descends(newest) && newest != [] && forall t :: t in newest <==> t in log && t.key == key
    ensures exists i :: Earliest(log, key, i) && log[i] == newest[|newest| - 1]
  {
    var last := newest[|newest| - 1];
    assert last in newest;
    var i :| 0 <= i < |log| && log[i] == last;
    forall j | 0 <= j < |log| && log[j].key == key ensures NoLater(log[i], log[j]) {
      assert log[j] in newest;
    }
    assert Earliest(log, key, i);
  }

  lemma NewestFirstOfLog(log: seq<Transaction>, key: Key)
    ensures Descends(NewestFirst(LogOf(log, key)))
    ensures forall t :: t in NewestFirst(LogOf(log, key)) <==> t in log && t.key == key
    ensures NewestFirst(LogOf(log, key)) == [] <==> LogOf(log, key) == []
  {
    NewestFirstDescends(LogOf(log, key));
    forall t ensures t in NewestFirst(LogOf(log, key)) <==> t in log && t.key == key {
      NewestFirstIsFrom(LogOf(log, key), t);
      InLog(log, key, t);
    }
    if LogOf(log, key) != [] {
      NewestFirstIsFrom(LogOf(log, key), LogOf(log, key)[0]);
    }
  }

  lemma OnlyOneEarliest(log: seq<Transaction>, key: Key, i: int, j: int)
    requires IncreasingLog(log) && Earliest(log, key, i) && Earliest(log, key, j)
    ensures i == j
  {
    assert NoLater(log[i], log[j]) && NoLater(log[j], log[i]);
  }

  lemma TakesOverEarliest(b: Books, env: Env, row: Holding, patch: HoldingPatch, started: int, i: int)
    requires IncreasingLog(b.transactions) && Earliest(b.transactions, row.key, i)
    requires var newest := NewestFirst(LogOf(b.transactions, row.key));
             newest != [] && newest[|newest| - 1] == b.transactions[i]
    ensures var log := Corrected(b, env, row, patch, started).transactions;
            exists t :: CorrectsLog(b, env, row, patch, started, t, log)
  {
    if started <= b.transactions[i].tradedOn {
      EarliestRewritten(b, env, row, patch, started, i);
    } else {
      CorrectionAdded(b, env, row, patch, started, i);
    }
  }

  lemma EarliestRewritten(b: Books, env: Env, row: Holding, patch: HoldingPatch, started: int, i: int)
    requires IncreasingLog(b.transactions) && Earliest(b.transactions, row.key, i)
    requires started <= b.transactions[i].tradedOn
    requires var newest := NewestFirst(LogOf(b.transactions, row.key));
             newest != [] && newest[|newest| - 1] == b.transactions[i]
    ensures var log := Corrected(b, env, row, patch, started).transactions;
            |log| == |b.transactions| && CorrectsLog(b, env, row, patch, started, log[i], log)
  {
    FoundAt(b.transactions, i);
    var log := Corrected(b, env, row, patch, started).transactions;
    assert log == b.transactions[i := log[i]];
    assert TakesOver(b.transactions, i, started, log[i], log);
  }

  lemma CorrectionAdded(b: Books, env: Env, row: Holding, patch: HoldingPatch, started: int, i: int)
    requires IncreasingLog(b.transactions) && Earliest(b.transactions, row.key, i)
    requires started > b.transactions[i].tradedOn
    requires var newest := NewestFirst(LogOf(b.transactions, row.key));
             newest != [] && newest[|newest| - 1] == b.transactions[i]
    ensures var log := Corrected(b, env, row, patch, started).transactions;
            |log| == |b.transactions| + 1 && CorrectsLog(b, env, row, patch, started, log[|b.transactions|], log)
  {
    forall j | Earliest(b.transactions, row.key, j) ensures j == i { OnlyOneEarliest(b.transactions, row.key, i, j); }
  }

  lemma CorrectedIsCorrection(b: Books, env: Env, row: Holding, patch: HoldingPatch, started: int)
    requires Inv(b)
    ensures var log := Corrected(b, env, row, patch, started).transactions;
            exists t :: CorrectsLog(b, env, row, patch, started, t, log)
  {
    var newest := NewestFirst(LogOf(b.transactions, row.key));
    var log := Corrected(b, env, row, patch, started).transactions;
    NewestFirstOfLog(b.transactions, row.key);
    if newest == [] {
      NoneInLog(b.transactions, row.key);
      assert CorrectsLog(b, env, row, patch, started, log[|b.transactions|], log);
    } else {
      LastIsEarliest(b.transactions, row.key, newest);
      var i :| Earliest(b.transactions, row.key, i) && b.transactions[i] == newest[|newest| - 1];
      TakesOverEarliest(b, env, row, patch, started, i);
    }
  }

  lemma CorrectionIsUnique(b: Books, env: Env, row: Holding, patch: HoldingPatch, started: int)
    requires Inv(b)
    ensures forall t, u, log, other ::
      CorrectsLog(b, env, row, patch, started, t, log) && CorrectsLog(b, env, row, patch, started, u, other)
      ==> log == other
  {
    forall i, j | Earliest(b.transactions, row.key, i) && Earliest(b.transactions, row.key, j) ensures i == j {
      OnlyOneEarliest(b.transactions, row.key, i, j);
    }
  }

  ghost predicate Oldest(b: Books, h: int) {
    h in b.holdings && forall k :: k in b.holdings && b.holdings[k].key == b.holdings[h].key ==> h <= k
  }

  /** The units the corrected log of a security leaves. */
  ghost function UnitsOf(log: seq<Transaction>, key: Key): seq<Share>
    requires LogReplays(log, key)
  {
    Queue(Replay(Sort(LogOf(log, key))).value)
  }

  /** When nothing is left, the corrected row is the only one of its security and stays as it was. */
  ghost predicate PutsBack(b: Books, r: Books, h: int, log: seq<Transaction>)
    requires h in b.holdings
  {
    && r.transactions == log && h in r.holdings && r.holdings[h] == b.holdings[h]
    && (forall k :: k in r.holdings && k != h ==> r.holdings[k].key != b.holdings[h].key)
    && (forall k :: k in r.holdings && k != h ==> k in b.holdings && r.holdings[k] == b.holdings[k])
    && (forall k :: k in b.holdings && b.holdings[k].key != b.holdings[h].key ==> k in r.holdings)
    && r.accounts == b.accounts && r.entries == b.entries
    && r.transfers == b.transfers && r.settlements == b.settlements
  }

  ghost predicate NamesNothing(patch: HoldingPatch) {
    patch.quantity.Unset? && patch.cost.Unset? && patch.startedOn.Unset?
  }

  /** The correction is checked, its log replays, and a row is there to show it or to be put back. */
  ghost predicate CorrectsTo(b: Books, env: Env, h: int, patch: HoldingPatch, log: seq<Transaction>)
    requires h in b.holdings
  {
    var row := b.holdings[h];
    && Correctable(env, row, patch) && LogReplays(log, row.key)
    && (UnitsOf(log, row.key) == [] ==> Oldest(b, h))
    && exists started, t :: StartsOn(patch, row, started) && CorrectsLog(b, env, row, patch, started, t, log)
  }

  lemma HeldIsUnits(log: seq<Transaction>, key: Key)
    ensures LogReplays(log, key) ==> (Project(LogOf(log, key)).Held? <==> UnitsOf(log, key) != [])
  {
    HeldUnits(log, key);
  }

  lemma OldestIsLeast(b: Books, h: int)
    requires h in b.holdings
    ensures h in RowsOf(b, b.holdings[h].key)
    ensures h == Least(RowsOf(b, b.holdings[h].key)) <==> Oldest(b, h)
  {
    var rows := RowsOf(b, b.holdings[h].key);
    assert h in rows;
    forall k ensures k in rows <==> k in b.holdings && b.holdings[k].key == b.holdings[h].key {}
  }

  lemma CorrectedRows(b: Books, env: Env, h: int, patch: HoldingPatch, started: int)
    requires Inv(b) && h in b.holdings && CheckHoldingPatch(env, b.holdings[h], patch) == Ok(started) && Corrects(patch)
    ensures var row := b.holdings[h];
            var log := Corrected(b, env, row, patch, started).transactions;
      && (UpdateHolding(b, env, h, patch).Ok? <==>
            LogReplays(log, row.key) && (UnitsOf(log, row.key) == [] ==> Oldest(b, h)))
      && (UpdateHolding(b, env, h, patch).Ok? ==>
            var r := UpdateHolding(b, env, h, patch).value;
            if UnitsOf(log, row.key) == [] then PutsBack(b, r, h, log) else Relogged(b, r, log, row.key))
  {
    var row := b.holdings[h];
    var corrected := Corrected(b, env, row, patch, started);
    CorrectedKeeps(b, env, row, patch, started);
    MaterialiseRelogs(corrected, env, row.key);
    HeldIsUnits(corrected.transactions, row.key);
    OldestIsLeast(b, h);
  }

  /** The log a checked patch corrects to is the one the request writes. */
  lemma CorrectsToOne(b: Books, env: Env, h: int, patch: HoldingPatch, log: seq<Transaction>)
    requires Inv(b) && h in b.holdings
    ensures CorrectsTo(b, env, h, patch, log) <==>
      && CheckHoldingPatch(env, b.holdings[h], patch).Ok?
      && log == Corrected(b, env, b.holdings[h], patch, CheckHoldingPatch(env, b.holdings[h], patch).value).transactions
      && LogReplays(log, b.holdings[h].key) && (UnitsOf(log, b.holdings[h].key) == [] ==> Oldest(b, h))
  {
    var row := b.holdings[h];
    forall started ensures CheckHoldingPatch(env, row, patch) == Ok(started)
                       <==> Correctable(env, row, patch) && StartsOn(patch, row, started)
    {
      CorrectionIsChecked(env, row, patch, started);
    }
    if CheckHoldingPatch(env, row, patch).Ok? {
      var started := CheckHoldingPatch(env, row, patch).value;
      CorrectedIsCorrection(b, env, row, patch, started);
      CorrectionIsUnique(b, env, row, patch, started);
    }
  }

  /** Correcting a holding: a patch that names something is accepted exactly when some log can be corrected to; the rows
      then show that log, or the row stays as it was when nothing is left of it. */
  lemma CorrectedHolding(b: Books, env: Env, h: int, patch: HoldingPatch)
    requires Inv(b)
    ensures UpdateHolding(b, env, h, patch).Ok? <==>
      h in b.holdings && (NamesNothing(patch) || exists log :: CorrectsTo(b, env, h, patch, log))
    ensures h in b.holdings && NamesNothing(patch) ==> UpdateHolding(b, env, h, patch) == Ok(b)
    ensures h in b.holdings && !NamesNothing(patch) ==>
      forall log :: CorrectsTo(b, env, h, patch, log) ==>
        var r := UpdateHolding(b, env, h, patch).value;
        if UnitsOf(log, b.holdings[h].key) == [] then PutsBack(b, r, h, log) else Relogged(b, r, log, b.holdings[h].key)
  {
    if h in b.holdings && Corrects(patch) {
      forall log { CorrectsToOne(b, env, h, patch, log); }
      if CheckHoldingPatch(env, b.holdings[h], patch).Ok? {
        CorrectedRows(b, env, h, patch, CheckHoldingPatch(env, b.holdings[h], patch).value);
      }
    }
  }

  // ---- deleted holdings ----

  /** The transaction is a sale of the log that was settled in an account of its own. */
  ghost predicate OpenedAccount(b: Books, t: Transaction, a: int) {
    t.side == Sell && t.id in b.settlements && b.settlements[t.id].account == a && b.settlements[t.id].autoCreated
  }

  ghost predicate OfSale(e: Entry, log: seq<Transaction>) {
    exists t :: t in log && t.side == Sell && e.transaction == Some(t.id)
  }

  ghost predicate OpenedBySale(b: Books, log: seq<Transaction>, a: int) {
    exists t :: t in log && OpenedAccount(b, t, a)
  }

  /** Only entries of the sales and of closed accounts are gone, and only accounts that a sale opened are closed. */
  ghost predicate SalesReversed(b: Books, r: Books, log: seq<Transaction>) {
    && (forall e :: e in r.entries ==> e in b.entries)
    && (forall e :: e in b.entries && e !in r.entries ==> e.account !in r.accounts || OfSale(e, log))
    && (forall a :: a in r.accounts ==>
          a in b.accounts && r.accounts[a] == b.accounts[a].(balance := r.accounts[a].balance))
    && (forall a :: a in b.accounts && a !in r.accounts ==> OpenedBySale(b, log, a))
  }

  lemma OneSaleReversed(b: Books, t: Transaction)
    requires Inv(b)
    ensures SalesReversed(b, if t.side.Sell? then Unsettle(b, t.id) else b, [t])
  {
    ReversalTakesBack(b, t.id);
    assert t in [t];
  }

  lemma {:induction false} SalesAreReversed(b: Books, log: seq<Transaction>)
    requires Inv(b)
    ensures SalesReversed(b, UnsettleSales(b, log), log)
    decreases log
  {
    if log == [] {
    } else {
      var next := if log[0].side.Sell? then Unsettle(b, log[0].id) else b;
      UnsettleKeeps(b, log[0].id);
      SalesAreReversed(next, log[1..]);
      OneSaleReversed(b, log[0]);
      AndTheFirst(b, next, UnsettleSales(next, log[1..]), log);
    }
  }

  lemma AndTheFirst(b: Books, next: Books, r: Books, log: seq<Transaction>)
    requires log != [] && SalesReversed(next, r, log[1..]) && SalesReversed(b, next, [log[0]])
    requires forall x :: x in next.settlements ==> x in b.settlements && next.settlements[x] == b.settlements[x]
    ensures SalesReversed(b, r, log)
  {
    forall e | e in b.entries && e !in r.entries ensures e.account !in r.accounts || OfSale(e, log) {
      if e in next.entries && OfSale(e, log[1..]) {
        var t :| t in log[1..] && t.side == Sell && e.transaction == Some(t.id);
        assert t in log;
      }
    }
    forall a | a in b.accounts && a !in r.accounts ensures OpenedBySale(b, log, a) {
      if a in next.accounts {
        var t :| t in log[1..] && OpenedAccount(next, t, a);
        assert t in log && OpenedAccount(b, t, a);
      } else {
        assert log[0] in log && OpenedAccount(b, log[0], a);
      }
    }
  }

  /** Deleting a holding takes out its row, its log and the settlements of that log; it reverses the sales, and leaves
      every other row, log and settlement alone. */
  lemma DeletedHolding(b: Books, h: int)
    requires Inv(b) && h in b.holdings
    ensures DeleteHolding(b, h).Ok?
    ensures var r, key := DeleteHolding(b, h).value, b.holdings[h].key;
      && r.holdings == b.holdings - {h} && LogOf(r.transactions, key) == []
      && (forall k :: k != key ==> LogOf(r.transactions, k) == LogOf(b.transactions, k))
      && (forall x :: x in r.settlements <==> x in b.settlements && !SettlesOneOf(b, x, key))
      && (forall x :: x in r.settlements ==> r.settlements[x] == b.settlements[x])
      && SalesReversed(b, r, LogOf(b.transactions, key)) && r.transfers == b.transfers
  {
    var key := b.holdings[h].key;
    forall k ensures LogOf(RemoveLog(b.transactions, key), k) == if k == key then [] else LogOf(b.transactions, k) {
      LogOfRemoveLog(b.transactions, key, k);
    }
    SalesOfHoldingReversed(b, h);
    SettlementsOfLogGo(b, h);
  }

  lemma SalesOfHoldingReversed(b: Books, h: int)
    requires Inv(b) && h in b.holdings
    ensures var r := DeleteHolding(b, h).value;
            SalesReversed(b, r, LogOf(b.transactions, b.holdings[h].key)) && r.transfers == b.transfers
  {
    var log := LogOf(b.transactions, b.holdings[h].key);
    var newest := NewestFirst(log);
    forall t ensures t in log <==> t in newest { NewestFirstIsFrom(log, t); }
    UnsettleSalesKeeps(b, newest);
    SalesAreReversed(b, newest);
    SameSales(b, UnsettleSales(b, newest), newest, log);
  }

  lemma SameSales(b: Books, r: Books, newest: seq<Transaction>, log: seq<Transaction>)
    requires SalesReversed(b, r, newest) && forall t :: t in newest ==> t in log
    ensures SalesReversed(b, r, log)
  {
    forall e | OfSale(e, newest) ensures OfSale(e, log) {
      var t :| t in newest && t.side == Sell && e.transaction == Some(t.id);
      assert t in log;
    }
    forall a | OpenedBySale(b, newest, a) ensures OpenedBySale(b, log, a) {
      var t :| t in newest && OpenedAccount(b, t, a);
      assert t in log;
    }
  }

  lemma SettlementsOfLogGo(b: Books, h: int)
    requires Inv(b) && h in b.holdings
    ensures var r, key := DeleteHolding(b, h).value, b.holdings[h].key;
      && (forall x :: x in r.settlements <==> x in b.settlements && !SettlesOneOf(b, x, key))
      && (forall x :: x in r.settlements ==> r.settlements[x] == b.settlements[x])
  {
    var key := b.holdings[h].key;
    var newest := NewestFirst(LogOf(b.transactions, key));
    UnsettleSalesKeeps(b, newest);
    NewestFirstOfLog(b.transactions, key);
    OwnSettlements(b, key);
    forall x | x in b.settlements && x !in UnsettleSales(b, newest).settlements ensures SettlesOneOf(b, x, key) {
      var t :| t in newest && t.id == x;
    }
  }
}
