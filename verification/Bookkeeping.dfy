/** One user's rows, and what each request does to them when it succeeds.

    The requests are stated on the whole book: change the linked rows, then let every account's
    balance be the sum of its entries.  The services recompute only the accounts they touch;
    that this comes to the same thing is proved with them. */
module Bookkeeping {
  import opened Fixed
  import opened Wrappers
  import opened Trades
  import opened Lots
  import opened Projection
  import opened Tables

  datatype Failure = NotFound | Conflict | Unprocessable | Internal

  /** A payload field: left out, or given (possibly as null). */
  datatype Field<+T> = Unset | Given(value: Option<T>)

  function ValueOr<T>(f: Field<T>, current: T): T {
    if f.Given? && f.value.Some? then f.value.value else current
  }

  datatype Account = Account(
    currency: Currency, balance: int, platform: string, startedOn: Option<int>, createdOn: int)

  datatype Transfer = Transfer(
    source: int, target: int, sourceAmount: int, targetAmount: int,
    sourceCurrency: Currency, targetCurrency: Currency, on: int)

  datatype Direction = Inflow | Outflow

  datatype Handling = Discard | AddToExistingCash | CreateNewCash | DeductFromExistingCash

  datatype Settlement = Settlement(
    account: int, handling: Handling, amount: int, currency: Currency,
    sourceAmount: int, sourceCurrency: Currency, direction: Direction, autoCreated: bool)

  datatype Holding = Holding(
    key: Key, quantity: int, cost: Option<int>, startedOn: Option<int>,
    currency: Currency, createdOn: int)

  /** The next primary key of each table. */
  datatype Next = Next(account: int, entry: int, transfer: int, transaction: int, holding: int)

  datatype Books = Books(
    accounts: map<int, Account>,
    entries: seq<Entry>,
    transfers: map<int, Transfer>,
    settlements: map<int, Settlement>,
    transactions: seq<Transaction>,
    holdings: map<int, Holding>,
    next: Next)

  datatype Quote = Quote(price: int, currency: Option<Currency>)

  /** What a request reads from outside: the server's day, the UTC day, a clock, rates, quotes. */
  datatype Env = Env(
    today: int, utcToday: int, now: int,
    rates: map<(Currency, Currency), int>, quotes: map<Key, Quote>)

  const EMPTY_BOOKS := Books(map[], [], map[], map[], [], map[], Next(1, 1, 1, 1, 1))

  /** The platform name that marks accounts opened by a sale. */
  const PROCEEDS_PLATFORM := "交易回款"

  // ---- the cash ledger ----

  /** Every balance is the sum of the account's entries. */
  function Rebalance(b: Books): Books {
    b.(accounts := map a | a in b.accounts :: b.accounts[a].(balance := Balance(b.entries, a)))
  }

  function Convert(env: Env, amount: int, from: Currency, to: Currency): Result<int, Failure> {
    if from == to then Ok(amount)
    else if (from, to) in env.rates then Ok(RoundDiv(amount * env.rates[(from, to)], SCALE))
    else Err(Unprocessable)
  }

  /** What an amount is worth in another currency: itself, or the unit nearest to amount times rate. */
  predicate IsWorth(env: Env, amount: int, source: Currency, target: Currency, worth: int) {
    if source == target then worth == amount
    else (source, target) in env.rates && IsNearest(amount * env.rates[(source, target)], SCALE, worth)
  }

  /** Converting finds it, and there is only one. */
  lemma ConvertedIsWorth(env: Env, amount: int, source: Currency, target: Currency)
    ensures forall worth :: IsWorth(env, amount, source, target, worth)
              <==> Convert(env, amount, source, target) == Ok(worth)
    ensures Convert(env, amount, source, target).Err? ==>
              Convert(env, amount, source, target) == Err(Unprocessable)
  {
    forall worth
      ensures IsWorth(env, amount, source, target, worth) <==> Convert(env, amount, source, target) == Ok(worth)
    {
      if source != target && (source, target) in env.rates {
        NearestIsUnique(amount * env.rates[(source, target)], SCALE, worth);
      }
    }
  }

  function OpeningDay(account: Account): int {
    if account.startedOn.Some? then account.startedOn.value else account.createdOn
  }

  function OpeningEntry(id: int, a: int, account: Account, amount: int): Entry {
    Entry(id, a, InitialBalance, amount, account.currency, OpeningDay(account), None, None)
  }

  /** Moves the account's opening entry, adding one if there is none, so that its entries sum to
      the target. */
  function WithOpening(b: Books, a: int, target: int): Books
    requires a in b.accounts
  {
    var initials := Select(b.entries, InitialOf(a));
    if initials == [] then
      var opening := OpeningEntry(b.next.entry, a, b.accounts[a], target - Balance(b.entries, a));
      b.(entries := b.entries + [opening], next := b.next.(entry := b.next.entry + 1))
    else
      var others := Balance(b.entries, a) - initials[0].amount;
      var opening := OpeningEntry(initials[0].id, a, b.accounts[a], target - others);
      b.(entries := Rewrite(b.entries, opening))
  }

  function Reconcile(b: Books, a: int, target: int): Books
    requires a in b.accounts
  {
    Rebalance(WithOpening(b, a, target))
  }

  // ---- accounts ----

  datatype AccountForm = AccountForm(
    currency: Currency, balance: int, platform: string, startedOn: Field<int>)

  function NewAccountRow(env: Env, form: AccountForm): Account {
    Account(form.currency, 0, form.platform,
            if form.startedOn.Given? then form.startedOn.value else None, env.utcToday)
  }

  function EditedAccount(was: Account, form: AccountForm): Account {
    was.(currency := form.currency, platform := form.platform,
         startedOn := if form.startedOn.Given? then form.startedOn.value else was.startedOn)
  }

  function CreateAccount(b: Books, env: Env, form: AccountForm): Result<Books, Failure> {
    var a := b.next.account;
    var reserved := b.(accounts := b.accounts[a := NewAccountRow(env, form)], next := b.next.(account := a + 1));
    Ok(Reconcile(reserved, a, form.balance))
  }

  function UpdateAccount(b: Books, a: int, form: AccountForm): Result<Books, Failure> {
    if a !in b.accounts then Err(NotFound)
    else if Select(b.entries, NonInitialOf(a)) != [] && form.currency != b.accounts[a].currency then Err(Conflict)
    else Ok(Reconcile(b.(accounts := b.accounts[a := EditedAccount(b.accounts[a], form)]), a, form.balance))
  }

  function TransfersOf(transfers: map<int, Transfer>, a: int): set<int> {
    set t | t in transfers && (transfers[t].source == a || transfers[t].target == a)
  }

  function SettledOn(settlements: map<int, Settlement>, a: int): set<int> {
    set x | x in settlements && settlements[x].account == a
  }

  /** Deleting an account takes its transfers, its settlements and all their entries with it. */
  function DeleteAccount(b: Books, a: int): Result<Books, Failure> {
    if a !in b.accounts then Err(NotFound)
    else
      var (ts, xs) := (TransfersOf(b.transfers, a), SettledOn(b.settlements, a));
      Ok(Rebalance(b.(
        accounts := b.accounts - {a},
        entries := Without(b.entries, Cascade(a, ts, xs)),
        transfers := b.transfers - ts,
        settlements := b.settlements - xs)))
  }

  // ---- manual adjustments ----

  function CreateAdjustment(b: Books, env: Env, a: int, amount: int, on: int): Result<Books, Failure> {
    if a !in b.accounts then Err(NotFound)
    else if on > env.today then Err(Unprocessable)
    else
      var e := Entry(b.next.entry, a, ManualAdjustment, amount, b.accounts[a].currency, on, None, None);
      Ok(Rebalance(b.(entries := b.entries + [e], next := b.next.(entry := b.next.entry + 1))))
  }

  function FindAdjustment(b: Books, id: int): Result<Entry, Failure> {
    var found := Select(b.entries, OfId(id));
    if found == [] then Err(NotFound)
    else if !found[0].kind.ManualAdjustment? then Err(Unprocessable)
    else if found[0].transaction.Some? || found[0].transfer.Some? then Err(Unprocessable)
    else if found[0].account !in b.accounts then Err(NotFound)
    else Ok(found[0])
  }

  function UpdateAdjustment(b: Books, env: Env, id: int, amount: Field<int>, on: Field<int>, note: bool)
    : Result<Books, Failure>
  {
    match FindAdjustment(b, id)
    case Err(f) => Err(f)
    case Ok(e) =>
      if amount.Unset? && on.Unset? && !note then Ok(b)
      else if on.Given? && on.value.Some? && on.value.value > env.today then Err(Unprocessable)
      else
        var edited := e.(amount := ValueOr(amount, e.amount), happenedOn := ValueOr(on, e.happenedOn),
                         currency := b.accounts[e.account].currency);
        Ok(Rebalance(b.(entries := Rewrite(b.entries, edited))))
  }

  function DeleteAdjustment(b: Books, id: int): Result<Books, Failure> {
    match FindAdjustment(b, id)
    case Err(f) => Err(f)
    case Ok(e) => Ok(Rebalance(b.(entries := Without(b.entries, OfId(id)))))
  }

  // ---- transfers ----

  datatype TransferForm = TransferForm(
    source: int, target: int, sourceAmount: int, targetAmount: Option<int>, on: int)

  /** The two signed legs of a transfer. */
  function Legs(id: int, t: Transfer, firstEntry: int): seq<Entry> {
    [Entry(firstEntry, t.source, TransferOut, -t.sourceAmount, t.sourceCurrency, t.on, None, Some(id)),
     Entry(firstEntry + 1, t.target, TransferIn, t.targetAmount, t.targetCurrency, t.on, None, Some(id))]
  }

  /** Accepts or refuses a transfer against the current balances. */
  function CheckTransfer(b: Books, env: Env, form: TransferForm): Result<Transfer, Failure> {
    if form.on > env.today then Err(Unprocessable)
    else if form.source !in b.accounts || form.target !in b.accounts then Err(NotFound)
    else if form.source == form.target then Err(Unprocessable)
    else if b.accounts[form.target].currency != CNY then Err(Unprocessable)
    else if b.accounts[form.source].balance + EPSILON < form.sourceAmount then Err(Unprocessable)
    else
      var (source, target) := (b.accounts[form.source].currency, b.accounts[form.target].currency);
      match Convert(env, form.sourceAmount, source, target)
      case Err(f) => Err(f)
      case Ok(expected) =>
        var amount := if form.targetAmount.Some? then form.targetAmount.value else expected;
        if Abs(amount - expected) > EPSILON then Err(Unprocessable)
        else Ok(Transfer(form.source, form.target, form.sourceAmount, amount, source, target, form.on))
  }

  function PlaceTransfer(b: Books, id: int, t: Transfer): Books {
    Rebalance(b.(
      transfers := b.transfers[id := t],
      entries := b.entries + Legs(id, t, b.next.entry),
      next := b.next.(entry := b.next.entry + 2)))
  }

  function LiftTransfer(b: Books, id: int): Books {
    Rebalance(b.(entries := Without(b.entries, OfTransfer(id))))
  }

  function CreateTransfer(b: Books, env: Env, form: TransferForm): Result<Books, Failure> {
    match CheckTransfer(b, env, form)
    case Err(f) => Err(f)
    case Ok(t) =>
      var id := b.next.transfer;
      Ok(PlaceTransfer(b.(next := b.next.(transfer := id + 1)), id, t))
  }

  function DeleteTransfer(b: Books, id: int): Result<Books, Failure> {
    if id !in b.transfers then Err(NotFound)
    else Ok(LiftTransfer(b, id).(transfers := b.transfers - {id}))
  }

  datatype TransferPatch = TransferPatch(
    source: Field<int>, target: Field<int>, sourceAmount: Field<int>, targetAmount: Field<int>,
    on: Field<int>, note: bool)

  /** The transfer a patch asks for: an amount once converted is asked for again only when neither
      account nor source amount is mentioned. */
  function Merged(t: Transfer, patch: TransferPatch): TransferForm {
    var targetAmount :=
      if patch.targetAmount.Given? then patch.targetAmount.value
      else if patch.source.Given? || patch.target.Given? || patch.sourceAmount.Given? then None
      else Some(t.targetAmount);
    TransferForm(ValueOr(patch.source, t.source), ValueOr(patch.target, t.target),
                 ValueOr(patch.sourceAmount, t.sourceAmount), targetAmount, ValueOr(patch.on, t.on))
  }

  predicate EmptyPatch(patch: TransferPatch) {
    && patch.source.Unset? && patch.target.Unset? && patch.sourceAmount.Unset?
    && patch.targetAmount.Unset? && patch.on.Unset? && !patch.note
  }

  /** The refusals of an update, in the order the service makes them. */
  function CheckTransferUpdate(b: Books, env: Env, form: TransferForm): Result<Transfer, Failure> {
    if form.source == form.target then Err(Unprocessable)
    else if form.source !in b.accounts || form.target !in b.accounts then Err(NotFound)
    else if b.accounts[form.target].currency != CNY then Err(Unprocessable)
    else CheckTransfer(b, env, form)
  }

  function UpdateTransfer(b: Books, env: Env, id: int, patch: TransferPatch): Result<Books, Failure> {
    if id !in b.transfers then Err(NotFound)
    else
      var was := b.transfers[id];
      if was.source !in b.accounts || was.target !in b.accounts then Err(NotFound)
      else if EmptyPatch(patch) then Ok(b)
      else
        var lifted := LiftTransfer(b, id);
        match CheckTransferUpdate(lifted, env, Merged(was, patch))
        case Err(f) => Err(f)
        case Ok(t) => Ok(PlaceTransfer(lifted, id, t))
  }

  // ---- the materialised holding ----

  /** The transactions of one security, in table order. */
  function LogOf(log: seq<Transaction>, key: Key): seq<Transaction> {
    if log == [] then []
    else if log[0].key == key then [log[0]] + LogOf(log[1..], key)
    else LogOf(log[1..], key)
  }

  lemma {:induction false} LogOfAppend(log: seq<Transaction>, t: Transaction, key: Key)
    ensures LogOf(log + [t], key) == LogOf(log, key) + (if t.key == key then [t] else [])
  {
    if log == [] {
      assert log + [t] == [t];
    } else {
      LogOfAppend(log[1..], t, key);
      assert (log + [t])[1..] == log[1..] + [t];
    }
  }

  function RowsOf(b: Books, key: Key): set<int> {
    set h | h in b.holdings && b.holdings[h].key == key
  }

  ghost predicate IsLeast(m: int, ids: set<int>) {
    m in ids && forall i :: i in ids ==> m <= i
  }

  lemma {:induction false} LeastExists(ids: set<int>)
    requires ids != {}
    ensures exists m :: IsLeast(m, ids)
    decreases ids
  {
    var x := Member(ids);
    if ids == {x} {
      assert IsLeast(x, ids);
    } else {
      assert ids - {x} != {};
      LeastExists(ids - {x});
      var m :| IsLeast(m, ids - {x});
      var least := if x < m then x else m;
      forall i | i in ids ensures least <= i {
        assert i == x || i in ids - {x};
      }
      assert IsLeast(least, ids);
    }
  }

  /** The first row in id order. */
  function Least(ids: set<int>): (m: int)
    requires ids != {}
    ensures IsLeast(m, ids)
  {
    LeastExists(ids);
    var m :| m in ids && forall i :: i in ids ==> m <= i;
    m
  }

  /** The currency carried by the last effective transaction, or else by the first one. */
  function LogCurrency(sorted: seq<Transaction>): Currency
    requires sorted != []
  {
    var t := sorted[|sorted| - 1];
    if Effective(t) || |sorted| == 1 then t.currency else LogCurrency(sorted[..|sorted| - 1])
  }

  function Materialised(log: seq<Transaction>, lots: seq<Lot>, key: Key, createdOn: int): Holding
    requires Sort(log) != []
  {
    Holding(key, Quantity(lots), CostBasis(lots), StartedOn(lots), LogCurrency(Sort(log)), createdOn)
  }

  /** Brings the holding row of one security in line with its log. */
  function Materialise(b: Books, env: Env, key: Key): Result<Books, Failure> {
    var rows := RowsOf(b, key);
    var log := LogOf(b.transactions, key);
    match Project(log)
    case Rejected => Err(Unprocessable)
    case Empty => Ok(b.(holdings := b.holdings - rows))
    case Held(lots) =>
      SortSorts(log);
      assert Sort(log) == [] ==> multiset(log) == multiset{} by { assert log[0] in multiset(log); }
      if rows == {} then
        var row := Materialised(log, lots, key, env.today);
        Ok(b.(holdings := b.holdings[b.next.holding := row],
              next := b.next.(holding := b.next.holding + 1)))
      else
        var primary := Least(rows);
        var row := Materialised(log, lots, key, b.holdings[primary].createdOn);
        Ok(b.(holdings := (b.holdings - rows)[primary := row]))
  }

  /** One more row in the transaction log. */
  function Logged(b: Books, t: Transaction): Books {
    b.(transactions := b.transactions + [t], next := b.next.(transaction := t.id + 1))
  }

  function BaselineOf(id: int, h: Holding, now: int): Transaction {
    Transaction(id, h.key, Buy, Max(h.quantity, 0), PositivePrice(h.cost), h.currency,
                if h.startedOn.Some? then h.startedOn.value else h.createdOn, now)
  }

  /** A holding without a log gets its snapshot as an opening BUY. */
  function EnsureBaseline(b: Books, env: Env, key: Key): Books {
    var rows := RowsOf(b, key);
    if rows == {} || LogOf(b.transactions, key) != [] then b
    else Logged(b, BaselineOf(b.next.transaction, b.holdings[Least(rows)], env.now))
  }

  /** A history rebuild first gives every holding without a log its opening BUY, security by security. */
  function Backfilled(b: Books, env: Env, keys: seq<Key>): Books {
    if keys == [] then b
    else EnsureBaseline(Backfilled(b, env, keys[..|keys| - 1]), env, keys[|keys| - 1])
  }

  // ---- settling a trade in cash ----

  datatype Plan = NoCash | Deduct(account: int) | AddTo(account: int) | NewAccount

  function Gross(t: Transaction): int
    requires t.price.Some?
  {
    RoundDiv(t.quantity * t.price.value, SCALE)
  }

  /** One signed entry, and the settlement row that links it to its transaction. */
  function Booked(b: Books, x: int, s: Settlement, on: int): Books {
    var inflow := s.direction.Inflow?;
    var e := Entry(b.next.entry, s.account, if inflow then SellProceeds else BuyFunding,
                   if inflow then s.amount else -s.amount, s.currency, on, Some(x), None);
    Rebalance(b.(entries := b.entries + [e], settlements := b.settlements[x := s],
                 next := b.next.(entry := b.next.entry + 1)))
  }

  /** A new account with its opening entry. */
  function WithAccount(b: Books, a: int, account: Account, amount: int): Books {
    b.(accounts := b.accounts[a := account],
       entries := b.entries + [OpeningEntry(b.next.entry, a, account, amount)],
       next := b.next.(account := a + 1, entry := b.next.entry + 1))
  }

  function ProceedsAccount(env: Env, t: Transaction): Account {
    Account(t.currency, 0, PROCEEDS_PLATFORM, Some(t.tradedOn), env.utcToday)
  }

  /** Books the cash side of a trade. */
  function Settle(b: Books, env: Env, t: Transaction, plan: Plan): Result<Books, Failure>
    requires t.price.Some?
  {
    match plan
    case NoCash => Ok(b)
    case NewAccount =>
      var a := b.next.account;
      var s := Settlement(a, CreateNewCash, Gross(t), t.currency, Gross(t), t.currency, Inflow, true);
      Ok(Booked(WithAccount(b, a, ProceedsAccount(env, t), 0), t.id, s, t.tradedOn))
    case AddTo(a) =>
      if a !in b.accounts then Err(NotFound)
      else
        var currency := b.accounts[a].currency;
        (match Convert(env, Gross(t), t.currency, currency)
         case Err(f) => Err(f)
         case Ok(amount) =>
           var s := Settlement(a, AddToExistingCash, amount, currency, Gross(t), t.currency, Inflow, false);
           Ok(Booked(b, t.id, s, t.tradedOn)))
    case Deduct(a) =>
      if a !in b.accounts then Err(NotFound)
      else
        var currency := b.accounts[a].currency;
        (match Convert(env, Gross(t), t.currency, currency)
         case Err(f) => Err(f)
         case Ok(amount) =>
           if b.accounts[a].balance + EPSILON < amount then Err(Unprocessable)
           else
             var s := Settlement(a, DeductFromExistingCash, amount, currency, Gross(t), t.currency, Outflow, false);
             Ok(Booked(b, t.id, s, t.tradedOn)))
  }

  /** An account opened by a sale goes when nothing but its opening entry is left and it holds
      no money. */
  predicate Abandoned(b: Books, s: Settlement) {
    && s.account in b.accounts
    && s.autoCreated
    && b.accounts[s.account].platform == PROCEEDS_PLATFORM
    && b.accounts[s.account].balance <= EPSILON
    && Select(b.entries, NonInitialOf(s.account)) == []
  }

  /** Takes back the cash side of a trade, if it had one. */
  function Unsettle(b: Books, x: int): Books {
    if x !in b.settlements then b
    else
      var s := b.settlements[x];
      var lifted := Rebalance(b.(
        entries := Without(b.entries, OfTransaction(x)), settlements := b.settlements - {x}));
      if Abandoned(lifted, s) then
        lifted.(accounts := lifted.accounts - {s.account},
                entries := Without(lifted.entries, OfAccount(s.account)))
      else lifted
  }

  // ---- transactions ----

  datatype TradeForm = TradeForm(
    key: Key, side: Side, quantity: int, price: Option<int>, currency: Currency, tradedOn: int, plan: Plan)

  predicate PlanFitsSide(side: Side, plan: Plan) {
    match side
    case Buy => plan.NoCash? || plan.Deduct?
    case Sell => !plan.Deduct?
    case Adjust => false
  }

  /** The price and currency a sale is executed at: the given price, or else the quote. */
  function ExecutionPrice(env: Env, form: TradeForm): Result<(int, Currency), Failure> {
    if form.price.Some? && form.price.value > 0 then Ok((form.price.value, form.currency))
    else if form.key in env.quotes && env.quotes[form.key].price > 0 then
      var quote := env.quotes[form.key];
      Ok((quote.price, if quote.currency.Some? then quote.currency.value else form.currency))
    else Err(Unprocessable)
  }

  /** Refusals and execution terms decided before a trade is recorded. */
  function TradeTerms(b: Books, env: Env, form: TradeForm): Result<(Option<int>, Currency), Failure> {
    if form.side.Buy? then Ok((PositivePrice(form.price), form.currency))
    else
      var projected := Project(LogOf(b.transactions, form.key));
      if projected.Rejected? then Err(Unprocessable)
      else
        var available := if projected.Held? then Quantity(projected.lots) else 0;
        if available + EPSILON < form.quantity then Err(Unprocessable)
        else
          match ExecutionPrice(env, form)
          case Err(f) => Err(f)
          case Ok((price, currency)) => Ok((Some(price), currency))
  }

  function CreateTransaction(b: Books, env: Env, form: TradeForm): Result<Books, Failure> {
    if form.tradedOn > env.today || !PlanFitsSide(form.side, form.plan)
       || !QuantityFitsMarket(form.quantity, form.key.market) then Err(Unprocessable)
    else
      var based := EnsureBaseline(b, env, form.key);
      match TradeTerms(based, env, form)
      case Err(f) => Err(f)
      case Ok((price, currency)) =>
        var t := Transaction(based.next.transaction, form.key, form.side, form.quantity, price, currency,
                             form.tradedOn, env.now);
        match Materialise(Logged(based, t), env, form.key)
        case Err(f) => Err(f)
        case Ok(synced) => if price.None? then Ok(synced) else Settle(synced, env, t, form.plan)
  }

  function FindTransaction(log: seq<Transaction>, id: int): Option<Transaction> {
    if log == [] then None else if log[0].id == id then Some(log[0]) else FindTransaction(log[1..], id)
  }

  function RemoveTransaction(log: seq<Transaction>, id: int): seq<Transaction> {
    if log == [] then []
    else if log[0].id == id then RemoveTransaction(log[1..], id)
    else [log[0]] + RemoveTransaction(log[1..], id)
  }

  function ReplaceTransaction(log: seq<Transaction>, t: Transaction): seq<Transaction> {
    if log == [] then []
    else [if log[0].id == t.id then t else log[0]] + ReplaceTransaction(log[1..], t)
  }

  function DeleteTransaction(b: Books, env: Env, id: int): Result<Books, Failure> {
    match FindTransaction(b.transactions, id)
    case None => Err(NotFound)
    case Some(t) =>
      var reversed := Unsettle(b, id);
      Materialise(reversed.(transactions := RemoveTransaction(b.transactions, id)), env, t.key)
  }

  datatype TradePatch = TradePatch(
    quantity: Option<int>, price: Field<int>, currency: Option<Currency>, tradedOn: Option<int>,
    sellHandling: Option<Handling>, sellAccount: Field<int>,
    buyHandling: Option<Handling>, buyAccount: Field<int>)

  function Patched(t: Transaction, patch: TradePatch): Transaction {
    t.(quantity := if patch.quantity.Some? then patch.quantity.value else t.quantity,
       price := if patch.price.Given? then patch.price.value else t.price,
       currency := if patch.currency.Some? then patch.currency.value else t.currency,
       tradedOn := if patch.tradedOn.Some? then patch.tradedOn.value else t.tradedOn)
  }

  /** Refusals made before anything is changed. */
  function CheckTradePatch(env: Env, t: Transaction, patch: TradePatch): Option<Failure> {
    if patch.tradedOn.Some? && patch.tradedOn.value > env.today then Some(Unprocessable)
    else if patch.quantity.Some? && !QuantityFitsMarket(patch.quantity.value, t.key.market) then Some(Unprocessable)
    else if !t.side.Sell? && (patch.sellHandling.Some? || (patch.sellAccount.Given? && patch.sellAccount.value.Some?))
      then Some(Unprocessable)
    else if !t.side.Buy? && (patch.buyHandling.Some? || (patch.buyAccount.Given? && patch.buyAccount.value.Some?))
      then Some(Unprocessable)
    else None
  }

  /** How the cash side of an edited sale is redone. */
  function SellPlan(patch: TradePatch, original: Option<Settlement>): Result<Plan, Failure> {
    var handling :=
      if patch.sellHandling.Some? then patch.sellHandling.value
      else if original.Some? then original.value.handling else Discard;
    var account :=
      if patch.sellAccount.Given? then patch.sellAccount.value
      else if original.Some? && !original.value.autoCreated then Some(original.value.account) else None;
    match handling
    case Discard => Ok(NoCash)
    case AddToExistingCash => if account.None? then Err(Unprocessable) else Ok(AddTo(account.value))
    case _ => Ok(NewAccount)
  }

  /** How the cash side of an edited purchase is redone. */
  function BuyPlan(t: Transaction, patch: TradePatch, original: Option<Settlement>): Result<Plan, Failure> {
    var outflow := original.Some? && original.value.direction.Outflow?;
    var handling :=
      if patch.buyHandling.Some? then patch.buyHandling
      else if outflow then Some(original.value.handling)
      else if patch.buyAccount.Given? && patch.buyAccount.value.Some? then Some(DeductFromExistingCash)
      else None;
    var account :=
      if patch.buyAccount.Given? then patch.buyAccount.value
      else if outflow then Some(original.value.account) else None;
    if PositivePrice(t.price).None? then (if handling.Some? then Err(Unprocessable) else Ok(NoCash))
    else if handling.None? && account.None? then Ok(NoCash)
    else if handling.Some? && !handling.value.DeductFromExistingCash? then Err(Unprocessable)
    else if account.None? then Err(Unprocessable)
    else Ok(Deduct(account.value))
  }

  function UpdatePlan(t: Transaction, patch: TradePatch, original: Option<Settlement>): Result<Plan, Failure> {
    match t.side
    case Buy => BuyPlan(t, patch, original)
    case Adjust => Ok(NoCash)
    case Sell =>
      match SellPlan(patch, original)
      case Err(f) => Err(f)
      case Ok(plan) => if PositivePrice(t.price).None? then Err(Unprocessable) else Ok(plan)
  }

  function UpdateTransaction(b: Books, env: Env, id: int, patch: TradePatch): Result<Books, Failure> {
    match FindTransaction(b.transactions, id)
    case None => Err(NotFound)
    case Some(was) =>
      if CheckTradePatch(env, was, patch).Some? then Err(CheckTradePatch(env, was, patch).value)
      else
        var original := if id in b.settlements then Some(b.settlements[id]) else None;
        var t := Patched(was, patch);
        var edited := Unsettle(b, id).(transactions := ReplaceTransaction(b.transactions, t));
        match Materialise(edited, env, t.key)
        case Err(f) => Err(f)
        case Ok(synced) =>
          match UpdatePlan(t, patch, original)
          case Err(f) => Err(f)
          case Ok(plan) => if t.price.None? then Ok(synced) else Settle(synced, env, t, plan)
  }

  // ---- holdings edited directly ----

  function TransactionsOf(log: seq<Transaction>, key: Key): set<int> {
    set i | 0 <= i < |log| && log[i].key == key :: log[i].id
  }

  function RemoveLog(log: seq<Transaction>, key: Key): seq<Transaction> {
    if log == [] then []
    else if log[0].key == key then RemoveLog(log[1..], key)
    else [log[0]] + RemoveLog(log[1..], key)
  }

  datatype HoldingForm = HoldingForm(
    key: Key, quantity: int, currency: Currency, cost: Option<int>, startedOn: Option<int>)

  function EnteredRow(env: Env, form: HoldingForm): Holding {
    Holding(form.key, form.quantity, form.cost, form.startedOn, form.currency, env.today)
  }

  /** The new row, with the log of its security and the settlements of that log gone. */
  function Entered(b: Books, env: Env, form: HoldingForm): Books {
    b.(holdings := b.holdings[b.next.holding := EnteredRow(env, form)],
       settlements := b.settlements - TransactionsOf(b.transactions, form.key),
       transactions := RemoveLog(b.transactions, form.key),
       next := b.next.(holding := b.next.holding + 1))
  }

  /** A holding entered by hand replaces the log of its security by one opening BUY. */
  function CreateHolding(b: Books, env: Env, form: HoldingForm): Result<Books, Failure> {
    if form.startedOn.Some? && form.startedOn.value > env.today then Err(Unprocessable)
    else if !QuantityFitsMarket(form.quantity, form.key.market) then Err(Unprocessable)
    else if form.quantity <= EPSILON then Ok(Entered(b, env, form))
    else Ok(Logged(Entered(b, env, form), BaselineOf(b.next.transaction, EnteredRow(env, form), env.now)))
  }

  /** Order of the table scans: (traded_on, created_at, id). */
  predicate Newer(a: Transaction, b: Transaction) {
    || a.tradedOn > b.tradedOn
    || (a.tradedOn == b.tradedOn
        && (a.createdAt > b.createdAt || (a.createdAt == b.createdAt && a.id > b.id)))
  }

  function InsertNewest(t: Transaction, log: seq<Transaction>): seq<Transaction> {
    if log == [] || !Newer(log[0], t) then [t] + log else [log[0]] + InsertNewest(t, log[1..])
  }

  function NewestFirst(log: seq<Transaction>): seq<Transaction> {
    if log == [] then [] else InsertNewest(log[0], NewestFirst(log[1..]))
  }

  datatype HoldingPatch = HoldingPatch(quantity: Field<int>, cost: Field<int>, startedOn: Field<int>)

  predicate Corrects(patch: HoldingPatch) {
    patch.quantity.Given? || patch.cost.Given? || patch.startedOn.Given?
  }

  /** The correction is an ADJUST: it takes over the earliest transaction when it is dated no later
      than that, and is added to the log otherwise. */
  function Corrected(b: Books, env: Env, row: Holding, patch: HoldingPatch, started: int): Books {
    var log := NewestFirst(LogOf(b.transactions, row.key));
    var quantity := ValueOr(patch.quantity, row.quantity);
    var cost := if patch.cost.Given? then patch.cost.value else row.cost;
    if log != [] && started <= log[|log| - 1].tradedOn then
      var t := log[|log| - 1].(side := Adjust, quantity := quantity, price := cost,
                               currency := row.currency, tradedOn := started);
      b.(transactions := ReplaceTransaction(b.transactions, t))
    else
      Logged(b, Transaction(b.next.transaction, row.key, Adjust, quantity, cost, row.currency, started, env.now))
  }

  function CheckHoldingPatch(env: Env, row: Holding, patch: HoldingPatch): Result<int, Failure> {
    if patch.startedOn.Given? && patch.startedOn.value.Some? && patch.startedOn.value.value > env.today
      then Err(Unprocessable)
    else
      var started :=
        if patch.startedOn.Given? && patch.startedOn.value.Some? then patch.startedOn.value else row.startedOn;
      if started.None? then Err(Unprocessable)
      else if patch.quantity.Given? && patch.quantity.value.Some?
              && !QuantityFitsMarket(patch.quantity.value.value, row.key.market) then Err(Unprocessable)
      else Ok(started.value)
  }

  /** When the corrected log projects to nothing, the row that was just deleted is put back as it
      was; it cannot be if an older duplicate of it was the primary row. */
  function UpdateHolding(b: Books, env: Env, h: int, patch: HoldingPatch): Result<Books, Failure> {
    if h !in b.holdings then Err(NotFound)
    else if !Corrects(patch) then Ok(b)
    else
      var row := b.holdings[h];
      match CheckHoldingPatch(env, row, patch)
      case Err(f) => Err(f)
      case Ok(started) =>
        var corrected := Corrected(b, env, row, patch, started);
        match Materialise(corrected, env, row.key)
        case Err(f) => Err(f)
        case Ok(synced) =>
          if Project(LogOf(corrected.transactions, row.key)).Held? then Ok(synced)
          else
          assert h in RowsOf(b, row.key);
          if h != Least(RowsOf(b, row.key)) then Err(Internal)
          else Ok(synced.(holdings := synced.holdings[h := row]))
  }

  /** Takes back the cash side of the sales of a log, in the given order. */
  function UnsettleSales(b: Books, log: seq<Transaction>): Books
    decreases log
  {
    if log == [] then b
    else UnsettleSales(if log[0].side.Sell? then Unsettle(b, log[0].id) else b, log[1..])
  }

  /** Deleting a holding takes back its sales; the funding of its purchases stays in the ledger. */
  function DeleteHolding(b: Books, h: int): Result<Books, Failure> {
    if h !in b.holdings then Err(NotFound)
    else
      var key := b.holdings[h].key;
      var reversed := UnsettleSales(b, NewestFirst(LogOf(b.transactions, key)));
      Ok(reversed.(
        settlements := reversed.settlements - TransactionsOf(b.transactions, key),
        transactions := RemoveLog(b.transactions, key),
        holdings := b.holdings - {h}))
  }
}
