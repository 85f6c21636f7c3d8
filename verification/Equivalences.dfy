/** Requests that undo or replace one another. */
module Equivalences {
  import opened Fixed
  import opened Wrappers
  import opened Trades
  import opened Projection
  import opened Tables
  import opened Bookkeeping
  import opened LedgerInvariant
  import opened TradeInvariant
  import opened Runs
  import opened HoldingView
  import opened LogReplay

  // ---- updating a transfer is deleting it and creating the merged one ----

  function Relink(es: seq<Entry>, from: int, to: int): seq<Entry> {
    if es == [] then []
    else [if es[0].transfer == Some(from) then es[0].(transfer := Some(to)) else es[0]] + Relink(es[1..], from, to)
  }

  /** The same books with a transfer under another id. */
  function Renamed(b: Books, from: int, to: int): Books
    requires from in b.transfers
  {
    b.(transfers := (b.transfers - {from})[to := b.transfers[from]],
       entries := Relink(b.entries, from, to),
       next := b.next.(transfer := to + 1))
  }

  lemma {:induction false} RelinkNone(es: seq<Entry>, from: int, to: int)
    requires forall e :: e in es ==> e.transfer != Some(from)
    ensures Relink(es, from, to) == es
  {
    if es == [] {
    } else {
      RelinkNone(es[1..], from, to);
    }
  }

  lemma {:induction false} RelinkAppend(a: seq<Entry>, b: seq<Entry>, from: int, to: int)
    ensures Relink(a + b, from, to) == Relink(a, from, to) + Relink(b, from, to)
  {
    if a == [] {
      assert a + b == b;
    } else {
      RelinkAppend(a[1..], b, from, to);
      assert (a + b)[1..] == a[1..] + b;
    }
  }

  lemma {:induction false} RelinkKeepsBalance(es: seq<Entry>, from: int, to: int, a: int)
    ensures Balance(Relink(es, from, to), a) == Balance(es, a)
  {
    if es == [] {
    } else {
      RelinkKeepsBalance(es[1..], from, to, a);
      assert Relink(es, from, to)[1..] == Relink(es[1..], from, to);
    }
  }

  lemma RelinkLegs(id: int, t: Transfer, first: int, to: int)
    ensures Relink(Legs(id, t, first), id, to) == Legs(to, t, first)
  {
    var legs := Legs(id, t, first);
    assert legs[1..] == [legs[1]] && [legs[1]][1..] == [];
    assert Relink([legs[1]], id, to) == [legs[1].(transfer := Some(to))];
  }

  /** Placing the same transfer under another id gives the same accounts and the same legs. */
  lemma PlacedUnder(b: Books, id: int, t: Transfer, to: int)
    requires forall e :: e in b.entries ==> e.transfer != Some(id)
    ensures var r, deleted := PlaceTransfer(b, id, t), b.(transfers := b.transfers - {id});
            PlaceTransfer(deleted.(next := deleted.next.(transfer := to + 1)), to, t) == Renamed(r, id, to)
  {
    var deleted := b.(transfers := b.transfers - {id}, next := b.next.(transfer := to + 1));
    var r, other := PlaceTransfer(b, id, t), PlaceTransfer(deleted, to, t);
    RelinkNone(b.entries, id, to);
    RelinkLegs(id, t, b.next.entry, to);
    RelinkAppend(b.entries, Legs(id, t, b.next.entry), id, to);
    assert other.entries == Renamed(r, id, to).entries;
    forall a ensures Balance(other.entries, a) == Balance(r.entries, a) {
      RelinkKeepsBalance(r.entries, id, to, a);
    }
    assert other.accounts == r.accounts;
    assert other.transfers == Renamed(r, id, to).transfers;
  }

  /** Updating a transfer with any field accepts or refuses exactly as deleting it and then creating the
      merged transfer would, and on success comes to the same books, up to the transfer's id. */
  lemma EditIsDeleteThenCreate(b: Books, env: Env, id: int, patch: TransferPatch)
    requires Inv(b) && id in b.transfers && !EmptyPatch(patch)
    ensures DeleteTransfer(b, id).Ok?
    ensures var updated := UpdateTransfer(b, env, id, patch);
            var recreated := CreateTransfer(DeleteTransfer(b, id).value, env, Merged(b.transfers[id], patch));
            && (updated.Ok? <==> recreated.Ok?)
            && (updated.Ok? ==>
                  id in updated.value.transfers
                  && recreated.value == Renamed(updated.value, id, b.next.transfer))
  {
    TransferAccountsExist(b, id);
    var form, lifted := Merged(b.transfers[id], patch), LiftTransfer(b, id);
    var deleted := DeleteTransfer(b, id).value;
    assert CheckTransfer(deleted, env, form) == CheckTransfer(lifted, env, form);
    assert CheckTransferUpdate(lifted, env, form).Ok? <==> CheckTransfer(lifted, env, form).Ok?;
    if CheckTransfer(lifted, env, form).Ok? {
      var t := CheckTransfer(lifted, env, form).value;
      forall e | e in lifted.entries ensures e.transfer != Some(id) {
        InWithout(b.entries, OfTransfer(id), e);
      }
      PlacedUnder(lifted, id, t, b.next.transfer);
    }
  }

  /** What creating a stored transfer again would ask of it today. */
  predicate StillAcceptable(b: Books, env: Env, t: Transfer)
    requires t.source in b.accounts
  {
    && t.on <= env.today && b.accounts[t.source].balance + EPSILON >= 0
    && var worth := Convert(env, t.sourceAmount, t.sourceCurrency, t.targetCurrency);
       worth.Ok? && Abs(t.targetAmount - worth.value) <= EPSILON
  }

  lemma LegsBalance(id: int, t: Transfer, first: int, a: int)
    requires t.source != t.target
    ensures Balance(Legs(id, t, first), a) == -GivenBack(t, a)
  {
    var legs := Legs(id, t, first);
    assert legs[1..] == [legs[1]] && [legs[1]][1..] == [];
    assert Select([legs[1]], OfAccount(a)) == if a == t.target then [legs[1]] else [];
    assert Select(legs, OfAccount(a)) == if a == t.source then [legs[0]] else Select([legs[1]], OfAccount(a));
    assert Sum([legs[0]]) == legs[0].amount && Sum([legs[1]]) == legs[1].amount;
  }

  function GivenBack(t: Transfer, a: int): int {
    if a == t.source then t.sourceAmount else if a == t.target then -t.targetAmount else 0
  }

  /** Lifting a transfer gives back what it moved. */
  lemma LiftedBalance(b: Books, id: int, a: int)
    requires Inv(b) && id in b.transfers && a in b.accounts
    ensures a in LiftTransfer(b, id).accounts
    ensures LiftTransfer(b, id).accounts[a].balance == b.accounts[a].balance + GivenBack(b.transfers[id], a)
  {
    var t, legs := b.transfers[id], Select(b.entries, OfTransfer(id));
    assert Paired(b, id);
    BalanceWithout(b.entries, OfTransfer(id), a);
    LegsBalance(id, t, legs[0].id, a);
  }

  /** The currencies of a stored transfer are those of its accounts. */
  lemma TransferCurrencies(b: Books, id: int)
    requires Inv(b) && id in b.transfers
    ensures var t := b.transfers[id];
      && t.source in b.accounts && t.target in b.accounts && t.source != t.target && t.targetCurrency == CNY
      && b.accounts[t.source].currency == t.sourceCurrency && b.accounts[t.target].currency == t.targetCurrency
  {
    assert Paired(b, id);
    var legs := Select(b.entries, OfTransfer(id));
    InSelect(b.entries, OfTransfer(id), legs[0]);
    InSelect(b.entries, OfTransfer(id), legs[1]);
    assert Placed(b, legs[0]) && Placed(b, legs[1]);
  }

  /** An update that names no field changes nothing and checks nothing.  Deleting the transfer and creating it again
      is accepted exactly when the transfer would still be acceptable, and then comes to the same accounts, and the same
      transfer under a new id. */
  lemma EmptyUpdateAgainstDeleteThenCreate(b: Books, env: Env, id: int, patch: TransferPatch)
    requires Inv(b) && id in b.transfers && EmptyPatch(patch)
    ensures UpdateTransfer(b, env, id, patch) == Ok(b)
    ensures DeleteTransfer(b, id).Ok? && b.transfers[id].source in b.accounts
    ensures var recreated := CreateTransfer(DeleteTransfer(b, id).value, env, Merged(b.transfers[id], patch));
            && (recreated.Ok? <==> StillAcceptable(b, env, b.transfers[id]))
            && (recreated.Ok? ==>
                  && recreated.value.accounts == b.accounts
                  && recreated.value.transfers == (b.transfers - {id})[b.next.transfer := b.transfers[id]])
  {
    var t, form := b.transfers[id], Merged(b.transfers[id], patch);
    TransferCurrencies(b, id);
    LiftedBalance(b, id, t.source);
    var deleted := DeleteTransfer(b, id).value;
    assert form == TransferForm(t.source, t.target, t.sourceAmount, Some(t.targetAmount), t.on);
    if StillAcceptable(b, env, t) {
      assert CheckTransfer(deleted, env, form) == Ok(t);
      PlacedBack(b, id);
    }
  }

  /** The same transfer placed again moves the same money. */
  lemma PlacedBack(b: Books, id: int)
    requires Inv(b) && id in b.transfers
    ensures var deleted := DeleteTransfer(b, id).value;
            PlaceTransfer(deleted.(next := deleted.next.(transfer := b.next.transfer + 1)), b.next.transfer,
                          b.transfers[id]).accounts == b.accounts
  {
    var t, deleted := b.transfers[id], DeleteTransfer(b, id).value;
    var legs := Legs(b.next.transfer, t, b.next.entry);
    TransferCurrencies(b, id);
    forall a | a in b.accounts ensures Balance(deleted.entries + legs, a) == b.accounts[a].balance {
      LiftedBalance(b, id, a);
      LegsBalance(b.next.transfer, t, b.next.entry, a);
      BalanceAppend(deleted.entries, legs, a);
    }
  }

  /** Any update against deleting and creating: the same decision and the same books up to the id, unless the patch is
      empty and the stored transfer would no longer be accepted. */
  lemma UpdateIsDeleteThenCreate(b: Books, env: Env, id: int, patch: TransferPatch)
    requires Inv(b) && id in b.transfers
    ensures DeleteTransfer(b, id).Ok? && b.transfers[id].source in b.accounts
    ensures var updated := UpdateTransfer(b, env, id, patch);
            var recreated := CreateTransfer(DeleteTransfer(b, id).value, env, Merged(b.transfers[id], patch));
            && ((updated.Ok? <==> recreated.Ok?) <==> !EmptyPatch(patch) || StillAcceptable(b, env, b.transfers[id]))
            && (EmptyPatch(patch) ==> updated == Ok(b))
            && (updated.Ok? && recreated.Ok? ==>
                  && id in updated.value.transfers
                  && recreated.value.accounts == updated.value.accounts
                  && recreated.value.transfers
                     == (updated.value.transfers - {id})[b.next.transfer := updated.value.transfers[id]])
            && (updated.Ok? && !EmptyPatch(patch) ==>
                  id in updated.value.transfers
                  && recreated.value == Renamed(updated.value, id, b.next.transfer))
  {
    TransferAccountsExist(b, id);
    if EmptyPatch(patch) {
      EmptyUpdateAgainstDeleteThenCreate(b, env, id, patch);
    } else {
      EditIsDeleteThenCreate(b, env, id, patch);
    }
  }

  // ---- deleting a trade undoes creating it ----

  /** The tables a trade touches, other than holdings, and the keys handed out. */
  ghost predicate SameBooks(b: Books, r: Books) {
    && r.accounts == b.accounts && r.entries == b.entries && r.transfers == b.transfers
    && r.settlements == b.settlements && r.transactions == b.transactions && r.holdings == b.holdings
  }

  lemma UnsettleUndoesBooked(b: Books, x: int, s: Settlement, on: int)
    requires IncreasingIds(b.entries) && x !in b.settlements
    requires forall e :: e in b.entries ==> e.transaction != Some(x)
    ensures var r := Booked(b, x, s, on);
            && x in r.settlements && r.settlements[x] == s
            && SameBooks(Rebalance(b), Lifted(r, x))
  {
    var r := Booked(b, x, s, on);
    var e := r.entries[|b.entries|];
    WithoutAppend(b.entries, [e], OfTransaction(x));
    NothingMatches(b.entries, OfTransaction(x));
    EverythingMatches([e], OfTransaction(x));
    assert b.entries + [] == b.entries;
    assert Without(r.entries, OfTransaction(x)) == b.entries;
    assert r.settlements - {x} == b.settlements;
    assert Lifted(r, x).accounts == Rebalance(b).accounts;
  }

  /** Taking back the cash side of a trade restores the books, also when a new account was opened. */
  lemma UnsettleUndoesSettle(b: Books, env: Env, t: Transaction, plan: Plan)
    requires Inv(b) && t.price.Some? && t.id !in b.settlements && Settle(b, env, t, plan).Ok?
    requires forall e :: e in b.entries ==> e.transaction != Some(t.id)
    ensures SameBooks(b, Unsettle(Settle(b, env, t, plan).value, t.id))
  {
    match plan
    case NoCash =>
    case NewAccount => UnsettleClosesAccount(b, env, t);
    case AddTo(a) =>
      var currency := b.accounts[a].currency;
      var amount := Convert(env, Gross(t), t.currency, currency).value;
      UnsettleUndoesBooked(b, t.id,
        Settlement(a, AddToExistingCash, amount, currency, Gross(t), t.currency, Inflow, false), t.tradedOn);
    case Deduct(a) =>
      var currency := b.accounts[a].currency;
      var amount := Convert(env, Gross(t), t.currency, currency).value;
      UnsettleUndoesBooked(b, t.id,
        Settlement(a, DeductFromExistingCash, amount, currency, Gross(t), t.currency, Outflow, false), t.tradedOn);
  }

  lemma UnsettleClosesAccount(b: Books, env: Env, t: Transaction)
    requires Inv(b) && t.price.Some? && t.id !in b.settlements
    requires forall e :: e in b.entries ==> e.transaction != Some(t.id)
    ensures SameBooks(b, Unsettle(Settle(b, env, t, NewAccount).value, t.id))
  {
    var a, account := b.next.account, ProceedsAccount(env, t);
    var s := Settlement(a, CreateNewCash, Gross(t), t.currency, Gross(t), t.currency, Inflow, true);
    var with, r := WithAccount(b, a, account, 0), Settle(b, env, t, NewAccount).value;
    forall e | e in with.entries ensures e.transaction != Some(t.id) {
      assert e in b.entries || e == OpeningEntry(b.next.entry, a, account, 0);
    }
    OpenAccount(b, a, account, 0);
    UnsettleUndoesBooked(with, t.id, s, t.tradedOn);
    BareAccountIsAbandoned(b, a, account, s, Lifted(r, t.id));
  }

  /** An account just opened with nothing in it is abandoned, and removing it restores the books. */
  lemma BareAccountIsAbandoned(b: Books, a: int, account: Account, s: Settlement, lifted: Books)
    requires Inv(b) && a == b.next.account
    requires SameBooks(Rebalance(WithAccount(b, a, account, 0)), lifted)
    requires s.account == a && s.autoCreated && account.platform == PROCEEDS_PLATFORM
    ensures Abandoned(lifted, s)
    ensures Without(lifted.entries, OfAccount(a)) == b.entries && lifted.accounts - {a} == b.accounts
  {
    forall e | e in b.entries ensures e.account != a { assert Placed(b, e); }
    var opening := OpeningEntry(b.next.entry, a, account, 0);
    AppendOne(b.entries, opening);
    AppendMovesOneBalance(b.entries, opening);
    BalanceElsewhere(b.entries, a);
    NothingMatches(b.entries, NonInitialOf(a));
    WithoutAppend(b.entries, [opening], OfAccount(a));
    NothingMatches(b.entries, OfAccount(a));
    EverythingMatches([opening], OfAccount(a));
    assert b.entries + [] == b.entries;
    assert lifted.accounts - {a} == b.accounts;
  }

  lemma {:induction false} RemoveAppended(log: seq<Transaction>, t: Transaction)
    requires forall u :: u in log ==> u.id != t.id
    ensures RemoveTransaction(log + [t], t.id) == log
    ensures FindTransaction(log + [t], t.id) == Some(t)
  {
    if log == [] {
      assert log + [t] == [t] && [t][1..] == [];
    } else {
      RemoveAppended(log[1..], t);
      assert (log + [t])[1..] == log[1..] + [t];
    }
  }

  /** What a user sees of a security's holding: everything but row ids and creation days. */
  ghost predicate SameHolding(b: Books, r: Books, key: Key) {
    && |RowsOf(r, key)| == |RowsOf(b, key)|
    && (forall h, k :: h in RowsOf(b, key) && k in RowsOf(r, key) ==>
          r.holdings[k] == b.holdings[h].(createdOn := r.holdings[k].createdOn))
  }

  /** The rows of a security, ids included. */
  ghost predicate SameRows(b: Books, r: Books, key: Key) {
    RowsOf(r, key) == RowsOf(b, key) && forall h :: h in RowsOf(b, key) ==> r.holdings[h] == b.holdings[h]
  }

  lemma AgreeingBooksShowTheSame(b: Books, r: Books, key: Key)
    requires Agrees(b, key) && Agrees(r, key) && LogOf(r.transactions, key) == LogOf(b.transactions, key)
    ensures SameHolding(b, r, key)
  {
    var log := LogOf(b.transactions, key);
    if Project(log).Held? {
      var lots := Project(log).lots;
      var h :| RowsOf(b, key) == {h} && Shows(b.holdings[h], log, lots, key);
      var k :| RowsOf(r, key) == {k} && Shows(r.holdings[k], log, lots, key);
    }
  }

  lemma OneElement(s: set<int>)
    requires |s| == 1
    ensures exists x :: s == {x}
  {
    var x := Member(s);
    assert |s - {x}| == 0;
    assert s == {x};
  }

  /** Showing the same as books in agreement, over the same log, is being in agreement. */
  lemma ShowingTheSameIsAgreeing(b: Books, r: Books, key: Key)
    requires SameHolding(b, r, key) && Agrees(r, key) && LogOf(r.transactions, key) == LogOf(b.transactions, key)
    ensures Agrees(b, key)
  {
    var log := LogOf(b.transactions, key);
    if Project(log).Held? {
      var lots := Project(log).lots;
      var k :| RowsOf(r, key) == {k} && Shows(r.holdings[k], log, lots, key);
      OneElement(RowsOf(b, key));
      var h :| RowsOf(b, key) == {h};
      assert h in RowsOf(b, key) && k in RowsOf(r, key);
      assert Shows(b.holdings[h], log, lots, key);
    }
  }

  /** The trade that creation records, when no baseline is needed. */
  function Recorded(b: Books, env: Env, form: TradeForm): Transaction
    requires TradeTerms(b, env, form).Ok?
  {
    var (price, currency) := TradeTerms(b, env, form).value;
    Transaction(b.next.transaction, form.key, form.side, form.quantity, price, currency, form.tradedOn, env.now)
  }

  lemma CreatedBooks(b: Books, env: Env, form: TradeForm)
    requires Inv(b) && EnsureBaseline(b, env, form.key) == b && CreateTransaction(b, env, form).Ok?
    ensures TradeTerms(b, env, form).Ok?
    ensures var created, t := CreateTransaction(b, env, form).value, Recorded(b, env, form);
            && created.transactions == b.transactions + [t]
            && SameBooks(b, Unsettle(created, t.id).(transactions := b.transactions, holdings := b.holdings))
  {
    var t := Recorded(b, env, form);
    AddTransactionKeeps(b, t);
    MaterialiseKeeps(Logged(b, t), env, form.key);
    var synced := Materialise(Logged(b, t), env, form.key).value;
    forall y | y in b.settlements ensures y != t.id { assert Live(b, y); }
    forall e | e in b.entries ensures e.transaction != Some(t.id) { assert Placed(b, e); }
    if t.price.Some? {
      UnsettleUndoesSettle(synced, env, t, form.plan);
      SettleLeavesView(synced, env, t, form.plan);
    }
  }

  /** Deleting the trade again gives back the ledger and the log. */
  lemma DeletedBooks(b: Books, env: Env, later: Env, form: TradeForm)
    requires Inv(b) && EnsureBaseline(b, env, form.key) == b && CreateTransaction(b, env, form).Ok?
    requires !Project(LogOf(b.transactions, form.key)).Rejected?
    ensures var created, x := CreateTransaction(b, env, form).value, b.next.transaction;
            var deleted := DeleteTransaction(created, later, x);
            && FindTransaction(created.transactions, x).Some?
            && FindTransaction(created.transactions, x).value.key == form.key
            && deleted.Ok?
            && SameBooks(b, deleted.value.(holdings := b.holdings))
  {
    CreatedBooks(b, env, form);
    var created, t := CreateTransaction(b, env, form).value, Recorded(b, env, form);
    RemoveAppended(b.transactions, t);
    MaterialiseKeepsOthers(Unsettle(created, t.id).(transactions := b.transactions), later, form.key);
  }

  /** Materialising touches holding rows and their ids only. */
  lemma MaterialiseKeepsOthers(b: Books, env: Env, key: Key)
    requires Materialise(b, env, key).Ok?
    ensures var r := Materialise(b, env, key).value;
            r == b.(holdings := r.holdings, next := b.next.(holding := r.next.holding))
  {
  }

  /** Creating a trade touches the rows of its own security only. */
  lemma CreationKeepsOtherRows(b: Books, env: Env, form: TradeForm, k: Key)
    requires b.next.holding !in b.holdings && EnsureBaseline(b, env, form.key) == b
    requires CreateTransaction(b, env, form).Ok? && k != form.key
    ensures SameRows(b, CreateTransaction(b, env, form).value, k)
  {
    var t := Recorded(b, env, form);
    OtherRows(Logged(b, t), env, form.key, k);
    var synced := Materialise(Logged(b, t), env, form.key).value;
    assert RowsOf(Logged(b, t), k) == RowsOf(b, k);
    if t.price.Some? { SettleLeavesView(synced, env, t, form.plan); }
    assert RowsOf(CreateTransaction(b, env, form).value, k) == RowsOf(synced, k);
  }

  /** Deleting a trade touches the rows of its own security only. */
  lemma DeletionKeepsOtherRows(b: Books, env: Env, id: int, k: Key)
    requires b.next.holding !in b.holdings && DeleteTransaction(b, env, id).Ok?
    requires k != FindTransaction(b.transactions, id).value.key
    ensures SameRows(b, DeleteTransaction(b, env, id).value, k)
  {
    var removed := Unsettle(b, id).(transactions := RemoveTransaction(b.transactions, id));
    OtherRows(removed, env, FindTransaction(b.transactions, id).value.key, k);
    assert RowsOf(removed, k) == RowsOf(b, k);
  }

  lemma NextRowIsFree(b: Books)
    requires Inv(b)
    ensures b.next.holding !in b.holdings
  {
  }

  lemma UndoneFromBaseline(b: Books, env: Env, later: Env, form: TradeForm)
    requires Inv(b) && Accepted(b.transactions, form.key)
    requires EnsureBaseline(b, env, form.key) == b && CreateTransaction(b, env, form).Ok?
    ensures var deleted := DeleteTransaction(CreateTransaction(b, env, form).value, later, b.next.transaction);
            && deleted.Ok?
            && SameBooks(b, deleted.value.(holdings := b.holdings))
            && (SameHolding(b, deleted.value, form.key) <==> Agrees(b, form.key))
            && (forall k :: k != form.key ==> SameRows(b, deleted.value, k))
  {
    var created, x := CreateTransaction(b, env, form).value, b.next.transaction;
    DeletedBooks(b, env, later, form);
    CreateTransactionKeeps(b, env, form);
    DeleteTransactionAgrees(created, later, x);
    var deleted := DeleteTransaction(created, later, x).value;
    if Agrees(b, form.key) { AgreeingBooksShowTheSame(b, deleted, form.key); }
    if SameHolding(b, deleted, form.key) { ShowingTheSameIsAgreeing(b, deleted, form.key); }
    NextRowIsFree(b);
    NextRowIsFree(created);
    forall k | k != form.key ensures SameRows(b, deleted, k) {
      CreationKeepsOtherRows(b, env, form, k);
      DeletionKeepsOtherRows(created, later, x, k);
    }
  }

  /** From any reachable books, creating any trade and then deleting it always succeeds, and restores accounts,
      balances, ledger entries, transfers and settlements, and the rows of every other security.  The log is
      restored exactly when the holding did not first need an opening BUY, and what the holding shows exactly
      when it agreed with its log, that BUY included, to begin with. */
  lemma DeleteUndoesCreate(history: History, env: Env, later: Env, form: TradeForm)
    requires CreateTransaction(Run(history), env, form).Ok?
    ensures var b := Run(history);
            var based := EnsureBaseline(b, env, form.key);
            var deleted := DeleteTransaction(CreateTransaction(b, env, form).value, later, based.next.transaction);
            && deleted.Ok?
            && SameBooks(b.(transactions := based.transactions), deleted.value.(holdings := b.holdings))
            && (deleted.value.transactions == b.transactions
                <==> RowsOf(b, form.key) == {} || LogOf(b.transactions, form.key) != [])
            && (SameHolding(b, deleted.value, form.key) <==> Agrees(based, form.key))
            && (forall k :: k != form.key ==> SameRows(b, deleted.value, k))
  {
    var b := Run(history);
    var based := EnsureBaseline(b, env, form.key);
    EveryRunKeepsInv(history);
    EveryLogReplays(history);
    assert Accepted(b.transactions, form.key);
    EnsureBaselineKeeps(b, env, form.key);
    BaselineIsAccepted(b, env, form.key);
    assert CreateTransaction(based, env, form) == CreateTransaction(b, env, form);
    UndoneFromBaseline(based, env, later, form);
    var deleted := DeleteTransaction(CreateTransaction(b, env, form).value, later, based.next.transaction).value;
    forall k ensures RowsOf(based, k) == RowsOf(b, k) {}
    forall k | k != form.key ensures SameRows(b, deleted, k) { assert SameRows(based, deleted, k); }
  }

  // ---- what deleting a holding leaves behind ----

  /** Taking back one trade empties its own entries and leaves those of every other trade. */
  lemma UnsettleSelects(b: Books, x: int, y: int)
    requires Inv(b)
    ensures Select(Unsettle(b, x).entries, OfTransaction(y))
         == if x == y && x in b.settlements then [] else Select(b.entries, OfTransaction(y))
  {
    if x in b.settlements {
      var lifted, s := Lifted(b, x), b.settlements[x];
      LiftedKeeps(b, x);
      if x == y { SelectGone(b.entries, OfTransaction(x), OfTransaction(y)); }
      else { SelectAfterWithout(b.entries, OfTransaction(x), OfTransaction(y)); }
      if Abandoned(lifted, s) {
        forall e | e in lifted.entries ensures !(e.account == s.account && e.transaction == Some(y)) {
          assert Placed(lifted, e);
          InSelect(lifted.entries, NonInitialOf(s.account), e);
        }
        SelectAfterWithout(lifted.entries, OfAccount(s.account), OfTransaction(y));
      }
    }
  }

  lemma {:induction false} UnsettleSalesSelects(b: Books, log: seq<Transaction>, y: int)
    requires Inv(b) && Live(b, y)
    ensures Select(UnsettleSales(b, log).entries, OfTransaction(y))
         == if exists t :: t in log && t.side.Sell? && t.id == y then [] else Select(b.entries, OfTransaction(y))
    decreases log
  {
    if log == [] {
    } else {
      var next := if log[0].side.Sell? then Unsettle(b, log[0].id) else b;
      UnsettleKeeps(b, log[0].id);
      UnsettleSelects(b, log[0].id, y);
      assert Live(next, y);
      UnsettleSalesSelects(next, log[1..], y);
      assert log == [log[0]] + log[1..];
      if log[0].side.Sell? && log[0].id == y {
        assert log[0] in log;
        assert Select(next.entries, OfTransaction(y)) == [] by {
          if y !in b.settlements {
            var t :| t in b.transactions && t.id == y;
          }
        }
      }
    }
  }

  /** Deleting a holding reverses its sales only: an entry of one of its trades stays in the ledger
      exactly when that trade was settled and is not a SELL. */
  lemma DeleteHoldingLeavesFunding(b: Books, h: int, t: Transaction)
    requires Inv(b) && h in b.holdings && t in b.transactions && t.key == b.holdings[h].key
    ensures Select(DeleteHolding(b, h).value.entries, OfTransaction(t.id)) != []
            <==> t.id in b.settlements && !t.side.Sell?
  {
    var log := NewestFirst(LogOf(b.transactions, t.key));
    UnsettleSalesSelects(b, log, t.id);
    forall u ensures u in log && u.id == t.id <==> u == t {
      NewestFirstIsFrom(LogOf(b.transactions, t.key), u);
      InLog(b.transactions, t.key, u);
    }
    if t.id in b.settlements { assert Linked(b, t.id); }
  }

}
