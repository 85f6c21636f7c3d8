/** Reachable states in which a request does not do what it looks like: one concrete history each. */
module Exceptions {
  import opened Fixed
  import opened Wrappers
  import opened Trades
  import opened Lots
  import opened Projection
  import opened Tables
  import opened Bookkeeping
  import opened LedgerInvariant
  import opened Runs
  import opened HoldingView
  import opened Equivalences

  const FUND_X := Key("X", FUND)

  function EnvOn(day: int): Env { Env(day, day, 0, map[], map[]) }

  // ---- a correction that leaves a row although the log projects to nothing ----

  function Bought(side: Side, quantity: int): Transaction { Transaction(1, FUND_X, side, quantity, None, CNY, 1, 0) }

  const SOLD := Transaction(2, FUND_X, Sell, 5, Some(7), CNY, 2, 0)

  /** Ten units bought, five sold the next day. */
  function HalfSold(): Books {
    Books(map[], [], map[], map[], [Bought(Buy, 10), SOLD], map[1 := Holding(FUND_X, 5, None, Some(1), CNY, 1)],
          Next(1, 1, 1, 3, 2))
  }

  const BUY_TEN := TradeForm(FUND_X, Buy, 10, None, CNY, 1, NoCash)

  const SELL_FIVE := TradeForm(FUND_X, Sell, 5, Some(7), CNY, 2, NoCash)

  function HalfSoldHistory(): History { [(EnvOn(1), TradeCreate(BUY_TEN)), (EnvOn(2), TradeCreate(SELL_FIVE))] }

  lemma RunOfTwo(first: (Env, Request), second: (Env, Request))
    ensures Run([first]) == After(EMPTY_BOOKS, first.0, first.1)
    ensures Run([first, second]) == After(Run([first]), second.0, second.1)
  {
    assert [first][..0] == [] && [first, second][..1] == [first];
  }

  function TenBought(): Books {
    Books(map[], [], map[], map[], [Bought(Buy, 10)], map[1 := Holding(FUND_X, 10, None, Some(1), CNY, 1)],
          Next(1, 1, 1, 2, 2))
  }

  lemma BuyTen()
    ensures CreateTransaction(EMPTY_BOOKS, EnvOn(1), BUY_TEN) == Ok(TenBought())
  {
    var t := Bought(Buy, 10);
    OpeningProjects(t);
    assert [] + [t] == [t] && [t][1..] == [];
    assert LogOf([t], FUND_X) == [t];
    assert RowsOf(EMPTY_BOOKS, FUND_X) == {};
    assert EnsureBaseline(EMPTY_BOOKS, EnvOn(1), FUND_X) == EMPTY_BOOKS;
    assert Materialise(Logged(EMPTY_BOOKS, t), EnvOn(1), FUND_X) == Ok(TenBought());
  }

  lemma SellFiveOfTen()
    ensures CreateTransaction(TenBought(), EnvOn(2), SELL_FIVE) == Ok(HalfSold())
  {
    var t, b := Bought(Buy, 10), TenBought();
    OpeningProjects(t);
    assert [t] + [SOLD] == [t, SOLD] && [t][1..] == [];
    assert LogOf([t], FUND_X) == [t];
    assert EnsureBaseline(b, EnvOn(2), FUND_X) == b;
    assert TradeTerms(b, EnvOn(2), SELL_FIVE) == Ok((Some(7), CNY));
    SoldMaterialises(EnvOn(2));
  }

  lemma SoldMaterialises(env: Env)
    ensures Materialise(Logged(TenBought(), SOLD), env, FUND_X) == Ok(HalfSold())
  {
    var t := Bought(Buy, 10);
    var logged := Logged(TenBought(), SOLD);
    assert logged.transactions == [t, SOLD];
    LogOfTwo(t, FUND_X);
    SortOfTwo(t);
    ProjectsTwo(Buy, 10);
    assert [Lot(5, 1, None)][1..] == [];
    assert RowsOf(logged, FUND_X) == {1};
    assert (logged.holdings - {1})[1 := HalfSold().holdings[1]] == HalfSold().holdings;
  }

  lemma HalfSoldIsReachable()
    ensures Run(HalfSoldHistory()) == HalfSold()
  {
    RunOfTwo(HalfSoldHistory()[0], HalfSoldHistory()[1]);
    BuyTen();
    SellFiveOfTen();
    TradeSucceeds(EMPTY_BOOKS, EnvOn(1), BUY_TEN, TenBought());
    TradeSucceeds(TenBought(), EnvOn(2), SELL_FIVE, HalfSold());
  }

  lemma TradeSucceeds(b: Books, env: Env, form: TradeForm, r: Books)
    requires CreateTransaction(b, env, form) == Ok(r)
    ensures After(b, env, TradeCreate(form)) == r
  {
  }

  lemma LogOfTwo(t: Transaction, key: Key)
    requires t.key == FUND_X
    ensures LogOf([t, SOLD], key) == if key == FUND_X then [t, SOLD] else []
  {
    assert LogOf([], key) == [] && [SOLD][1..] == [] && [t, SOLD][1..] == [SOLD];
    assert LogOf([SOLD], key) == if key == FUND_X then [SOLD] else [];
    assert [t] + [SOLD] == [t, SOLD];
  }

  lemma SortOfTwo(t: Transaction)
    requires t.tradedOn == 1
    ensures Sort([t, SOLD]) == [t, SOLD]
  {
    assert Sort([]) == [] && [SOLD][1..] == [] && [t, SOLD][1..] == [SOLD];
    assert Sort([SOLD]) == [SOLD];
  }

  lemma SellFive(quantity: int)
    requires quantity == 5 || quantity == 10
    ensures Apply([Lot(quantity, 1, None)], SOLD) == Ok(if quantity == 5 then [] else [Lot(5, 1, None)])
  {
    var lots := [Lot(quantity, 1, None)];
    assert lots[1..] == [] && SortLots(lots) == lots;
    assert SellFrom([], 0) == ([], 0);
    if quantity == 5 {
      assert SellFrom(lots, 5) == SellFrom(lots[1..], 0);
    } else {
      assert SellFrom(lots, 5) == ([lots[0].(quantity := 5)] + SellFrom(lots[1..], 0).0, 0);
      assert [Lot(5, 1, None)] + [] == [Lot(5, 1, None)];
    }
  }

  /** Ten or five units bought or adjusted to, then five sold. */
  lemma ProjectsTwo(side: Side, quantity: int)
    requires (quantity == 5 || quantity == 10) && !side.Sell?
    ensures Project([Bought(side, quantity), SOLD]) == if quantity == 5 then Empty else Held([Lot(5, 1, None)])
  {
    var t := Bought(side, quantity);
    SortOfTwo(t);
    assert [t, SOLD][..1] == [t] && [t][..0] == [];
    var lots := [Lot(quantity, 1, None)];
    assert Replay([t]) == Ok(lots) by { assert [] + lots == lots; }
    SellFive(quantity);
    assert [Lot(5, 1, None)][1..] == [];
  }

  lemma NewestOfTwo(t: Transaction)
    requires t.tradedOn == 1
    ensures NewestFirst([t, SOLD]) == [SOLD, t]
  {
    assert NewestFirst([]) == [] && [SOLD][1..] == [] && [t, SOLD][1..] == [SOLD];
    assert NewestFirst([SOLD]) == [SOLD];
    assert InsertNewest(t, []) == [t];
    assert InsertNewest(t, [SOLD]) == [SOLD] + [t];
  }

  lemma CorrectionOfTwo(env: Env, patch: HoldingPatch)
    requires patch == HoldingPatch(Given(Some(5)), Unset, Unset)
    ensures var b := HalfSold();
      Corrected(b, env, b.holdings[1], patch, 1) == b.(transactions := [Bought(Adjust, 5), SOLD])
  {
    var b := HalfSold();
    var t := Bought(Buy, 10);
    LogOfTwo(t, FUND_X);
    NewestOfTwo(t);
    var adjusted := Bought(Adjust, 5);
    assert ReplaceTransaction([], adjusted) == [] && [SOLD][1..] == [] && [t, SOLD][1..] == [SOLD];
    assert ReplaceTransaction([SOLD], adjusted) == [SOLD];
    assert ReplaceTransaction([t, SOLD], adjusted) == [adjusted] + [SOLD];
  }

  lemma HalfSoldAgrees()
    ensures AllAgree(HalfSold()) && RowsOf(HalfSold(), FUND_X) == {1}
  {
    var b := HalfSold();
    var log := b.transactions;
    forall key ensures LogOf(log, key) == if key == FUND_X then log else [] { LogOfTwo(log[0], key); }
    SortOfTwo(log[0]);
    ProjectsTwo(Buy, 10);
    assert RowsOf(b, FUND_X) == {1} && [Lot(5, 1, None)][1..] == [];
    assert Shows(b.holdings[1], log, [Lot(5, 1, None)], FUND_X);
    forall key ensures Agrees(b, key) {
      if key != FUND_X { assert RowsOf(b, key) == {}; }
    }
  }

  /** Ten units bought and five sold.  Setting the quantity to five at the start makes the sale empty the holding,
      but its row stays. */
  lemma CorrectionCanLeaveStaleRow(env: Env)
    ensures var b, patch := Run(HalfSoldHistory()), HoldingPatch(Given(Some(5)), Unset, Unset);
      && AllAgree(b) && 1 in b.holdings && !StaysHeld(b, env, b.holdings[1], patch)
      && UpdateHolding(b, env, 1, patch).Ok?
      && !Agrees(UpdateHolding(b, env, 1, patch).value, FUND_X)
  {
    var patch := HoldingPatch(Given(Some(5)), Unset, Unset);
    HalfSoldIsReachable();
    HalfSoldAgrees();
    CorrectionOfTwo(env, patch);
    LogOfTwo(Bought(Adjust, 5), FUND_X);
    ProjectsTwo(Adjust, 5);
    EveryRunKeepsInv(HalfSoldHistory());
    UpdateHoldingAgrees(HalfSold(), env, 1, patch);
  }

  // ---- a holding entered twice ----

  const TEN_UNITS := HoldingForm(FUND_X, 10, CNY, None, Some(1))

  function EnteredTwice(): History { [(EnvOn(1), HoldingCreate(TEN_UNITS)), (EnvOn(1), HoldingCreate(TEN_UNITS))] }

  lemma EmptyAgrees()
    ensures AllAgree(EMPTY_BOOKS)
  {
    forall key ensures Agrees(EMPTY_BOOKS, key) { assert RowsOf(EMPTY_BOOKS, key) == {}; }
  }

  /** Entering the same holding twice leaves two rows for one security. */
  lemma EnteringTwiceLeavesTwoRows()
    ensures var history := EnteredTwice();
      && AllAgree(Run(history[..1])) && !Agrees(Run(history), FUND_X)
      && RowsOf(Run(history), FUND_X) == {1, 2}
  {
    var history := EnteredTwice();
    assert history[..1] == [history[0]];
    RunOfTwo(history[0], history[1]);
    EmptyAgrees();
    EmptyInv();
    HandleKeepsView(EMPTY_BOOKS, EnvOn(1), HoldingCreate(TEN_UNITS));
    assert RowsOf(EMPTY_BOOKS, FUND_X) == {};
    var once, twice := Run([history[0]]), Run(history);
    EveryRunKeepsInv([history[0]]);
    assert RowsOf(once, FUND_X) == {1} && RowsOf(twice, FUND_X) == {1, 2};
    CreateHoldingAgrees(once, EnvOn(1), TEN_UNITS);
  }

  /** A log of purchases replays. */
  lemma OnlyBuysReplay(log: seq<Transaction>)
    requires forall t :: t in log ==> t.side.Buy?
    ensures !Project(log).Rejected?
  {
    var sorted := Sort(log);
    SortSorts(log);
    forall i | 0 <= i < |sorted| ensures sorted[i].side.Buy? { assert sorted[i] in multiset(log); }
    RejectedExactlyWhen(sorted);
  }

  /** One more purchase of a security whose log has only purchases is accepted. */
  lemma BuyIsAccepted(b: Books, env: Env)
    requires env.today >= 1
    requires forall t :: t in LogOf(EnsureBaseline(b, env, FUND_X).transactions, FUND_X) ==> t.side.Buy?
    ensures CreateTransaction(b, env, BUY_TEN).Ok?
  {
    var based := EnsureBaseline(b, env, FUND_X);
    var t := Transaction(based.next.transaction, FUND_X, Buy, 10, None, CNY, 1, env.now);
    LogOfAppend(based.transactions, t, FUND_X);
    OnlyBuysReplay(LogOf(Logged(based, t).transactions, FUND_X));
  }

  /** With two rows for the security, creating a purchase and deleting it again does not give back the rows. */
  lemma UndoingATradeCanMergeRows(env: Env, later: Env)
    requires env.today >= 1
    ensures var b := Run(EnteredTwice());
      && CreateTransaction(b, env, BUY_TEN).Ok?
      && EnsureBaseline(b, env, FUND_X) == b
      && var deleted := DeleteTransaction(CreateTransaction(b, env, BUY_TEN).value, later, b.next.transaction);
         deleted.Ok? && !SameHolding(b, deleted.value, FUND_X)
  {
    var b := Run(EnteredTwice());
    EnteringTwiceLeavesTwoRows();
    TwiceLogged();
    BuyIsAccepted(b, env);
    DeleteUndoesCreate(EnteredTwice(), env, later, BUY_TEN);
  }

  /** The log of the holding entered twice is one opening BUY. */
  lemma TwiceLogged()
    ensures var log := LogOf(Run(EnteredTwice()).transactions, FUND_X);
      |log| == 1 && log[0].side.Buy?
  {
    var history := EnteredTwice();
    RunOfTwo(history[0], history[1]);
    EveryRunKeepsInv([history[0]]);
    EnteredRowShows(Run([history[0]]), EnvOn(1), TEN_UNITS);
  }

  // ---- a holding without a log ----

  function LeftWithoutLog(): History { EnteredTwice() + [(EnvOn(1), HoldingDelete(2))] }

  /** Deleting the second of the two rows takes the log with it; the first row stays. */
  lemma RowWithoutLog()
    ensures var b := Run(LeftWithoutLog());
      1 in RowsOf(b, FUND_X) && LogOf(b.transactions, FUND_X) == []
  {
    var history := LeftWithoutLog();
    assert history[..2] == EnteredTwice() && history[2] == (EnvOn(1), HoldingDelete(2));
    EnteringTwiceLeavesTwoRows();
    var b := Run(EnteredTwice());
    assert 2 in RowsOf(b, FUND_X) && 1 in RowsOf(b, FUND_X);
    OneRowDeleted(b, 2, 1, EnvOn(1));
  }

  lemma OneRowDeleted(b: Books, h: int, other: int, env: Env)
    requires h in RowsOf(b, FUND_X) && other in RowsOf(b, FUND_X) && h != other
    ensures var r := After(b, env, HoldingDelete(h));
      other in RowsOf(r, FUND_X) && LogOf(r.transactions, FUND_X) == []
  {
    LogOfRemoveLog(b.transactions, FUND_X, FUND_X);
  }

  /** For a holding without a log, a purchase first adds an opening BUY, which stays when the purchase is deleted. */
  lemma UndoingATradeCanLeaveABaseline(env: Env, later: Env)
    requires env.today >= 1
    ensures var b := Run(LeftWithoutLog());
      var x := EnsureBaseline(b, env, FUND_X).next.transaction;
      && CreateTransaction(b, env, BUY_TEN).Ok?
      && var deleted := DeleteTransaction(CreateTransaction(b, env, BUY_TEN).value, later, x);
         deleted.Ok? && deleted.value.transactions != b.transactions
  {
    var b := Run(LeftWithoutLog());
    RowWithoutLog();
    var baseline := BaselineOf(b.next.transaction, b.holdings[Least(RowsOf(b, FUND_X))], env.now);
    LogOfAppend(b.transactions, baseline, FUND_X);
    assert forall t :: t in LogOf(EnsureBaseline(b, env, FUND_X).transactions, FUND_X) ==> t.side.Buy?;
    BuyIsAccepted(b, env);
    DeleteUndoesCreate(LeftWithoutLog(), env, later, BUY_TEN);
  }

  // ---- funding that outlives its holding ----

  const BANK := AccountForm(CNY, 100, "bank", Unset)

  const FUNDED_BUY := TradeForm(FUND_X, Buy, 10, Some(SCALE), CNY, 1, Deduct(1))

  function FundedHistory(): History { [(EnvOn(1), AccountCreate(BANK)), (EnvOn(1), TradeCreate(FUNDED_BUY))] }

  /** An account of 100, and nothing else. */
  ghost predicate OnlyBank(b: Books) {
    && Inv(b) && b.accounts.Keys == {1} && b.accounts[1].balance == 100 && b.accounts[1].currency == CNY
    && b.transfers == map[] && b.settlements == map[] && b.transactions == [] && b.holdings == map[]
    && b.next.account == 2 && b.next.transfer == b.next.transaction == b.next.holding == 1
  }

  lemma OneAccount()
    ensures OnlyBank(After(EMPTY_BOOKS, EnvOn(1), AccountCreate(BANK)))
  {
    EmptyInv();
    AccountHasRequestedBalance(EMPTY_BOOKS, EnvOn(1), 1, BANK);
    CreateAccountIs(EMPTY_BOOKS, EnvOn(1), BANK);
    HandleKeepsInv(EMPTY_BOOKS, EnvOn(1), AccountCreate(BANK));
  }

  const FUNDED := Transaction(1, FUND_X, Buy, 10, Some(SCALE), CNY, 1, 0)

  lemma NoRows(b: Books, key: Key)
    requires b.holdings == map[]
    ensures RowsOf(b, key) == {}
  {
  }

  lemma FundedMaterialises(b: Books)
    requires OnlyBank(b)
    ensures EnsureBaseline(b, EnvOn(1), FUND_X) == b && Materialise(Logged(b, FUNDED), EnvOn(1), FUND_X).Ok?
    ensures var r := Materialise(Logged(b, FUNDED), EnvOn(1), FUND_X).value;
      && r.transactions == [FUNDED] && r.accounts == b.accounts && r.settlements == map[]
      && 1 in r.holdings && r.holdings[1].key == FUND_X
  {
    OpeningProjects(FUNDED);
    assert b.transactions + [FUNDED] == [FUNDED] && [FUNDED][1..] == [];
    assert LogOf([FUNDED], FUND_X) == [FUNDED];
    NoRows(b, FUND_X);
    NoRows(Logged(b, FUNDED), FUND_X);
  }

  /** Ten units bought for 10 out of it. */
  lemma TenFunded(b: Books)
    requires OnlyBank(b)
    ensures CreateTransaction(b, EnvOn(1), FUNDED_BUY).Ok?
    ensures var r := CreateTransaction(b, EnvOn(1), FUNDED_BUY).value;
      && 1 in r.holdings && r.holdings[1].key == FUND_X && 1 in r.settlements && FUNDED in r.transactions
  {
    FundedMaterialises(b);
    RoundDivExact(10, SCALE);
    assert Gross(FUNDED) == 10;
    var synced := Materialise(Logged(b, FUNDED), EnvOn(1), FUND_X).value;
    assert CreateTransaction(b, EnvOn(1), FUNDED_BUY) == Settle(synced, EnvOn(1), FUNDED, Deduct(1));
  }

  lemma FundedBuy()
    ensures var b := Run(FundedHistory());
      1 in b.holdings && b.holdings[1].key == FUND_X && 1 in b.settlements && FUNDED in b.transactions
  {
    RunOfTwo(FundedHistory()[0], FundedHistory()[1]);
    OneAccount();
    var b := After(EMPTY_BOOKS, EnvOn(1), AccountCreate(BANK));
    TenFunded(b);
    TradeSucceeds(b, EnvOn(1), FUNDED_BUY, CreateTransaction(b, EnvOn(1), FUNDED_BUY).value);
  }

  /** Deleting that holding leaves the payment in the ledger. */
  lemma FundingCanOutliveItsHolding()
    ensures var b := Run(FundedHistory());
      1 in b.holdings && Select(DeleteHolding(b, 1).value.entries, OfTransaction(1)) != []
  {
    FundedBuy();
    EveryRunKeepsInv(FundedHistory());
    DeleteHoldingLeavesFunding(Run(FundedHistory()), 1, FUNDED);
  }

  // ---- an update that checks nothing ----

  const WALLET := AccountForm(CNY, 0, "wallet", Unset)

  const FIFTY := TransferForm(1, 2, 50, None, 1)

  const NO_FIELD := TransferPatch(Unset, Unset, Unset, Unset, Unset, false)

  function OverdrawnHistory(): History {
    [(EnvOn(1), AccountCreate(BANK)), (EnvOn(1), AccountCreate(WALLET)), (EnvOn(1), TransferCreate(FIFTY)),
     (EnvOn(1), AdjustmentCreate(1, -60, 1))]
  }

  lemma RunOfFour(history: History)
    requires |history| == 4
    ensures var b1 := After(EMPTY_BOOKS, history[0].0, history[0].1);
      var b2 := After(b1, history[1].0, history[1].1);
      var b3 := After(b2, history[2].0, history[2].1);
      Run(history) == After(b3, history[3].0, history[3].1)
  {
    RunOfTwo(history[0], history[1]);
    var two, three := [history[0], history[1]], [history[0], history[1], history[2]];
    assert three[..2] == two && history[..3] == three;
  }

  /** An account of 100 and an empty one. */
  lemma SecondAccount(b: Books)
    requires OnlyBank(b)
    ensures var r := CreateAccount(b, EnvOn(1), WALLET).value;
      && Inv(r) && r.next.transfer == 1 && r.accounts.Keys == {1, 2}
      && r.accounts[1].balance == 100 && r.accounts[1].currency == r.accounts[2].currency == CNY
  {
    CreateAccountIs(b, EnvOn(1), WALLET);
    CreateAccountKeeps(b, EnvOn(1), WALLET);
    AppendMovesOneBalance(b.entries, OpeningEntry(b.next.entry, 2, NewAccountRow(EnvOn(1), WALLET), 0));
  }

  lemma FiftyMoved(b: Books)
    requires Inv(b) && b.next.transfer == 1 && b.accounts.Keys == {1, 2}
    requires b.accounts[1].balance == 100 && b.accounts[1].currency == b.accounts[2].currency == CNY
    ensures var r := After(b, EnvOn(1), TransferCreate(FIFTY));
      && Inv(r) && 1 in r.transfers && r.transfers[1].source == 1
      && r.accounts.Keys == {1, 2} && r.accounts[1].balance == 50
  {
    var t := Transfer(1, 2, 50, 50, CNY, CNY, 1);
    assert CheckTransfer(b, EnvOn(1), FIFTY) == Ok(t);
    HandleKeepsInv(b, EnvOn(1), TransferCreate(FIFTY));
    LegsBalance(1, t, b.next.entry, 1);
    BalanceAppend(b.entries, Legs(1, t, b.next.entry), 1);
  }

  lemma SixtyTaken(b: Books)
    requires Inv(b) && 1 in b.accounts && b.accounts[1].balance == 50 && 1 in b.transfers && b.transfers[1].source == 1
    ensures var r := After(b, EnvOn(1), AdjustmentCreate(1, -60, 1));
      && 1 in r.transfers && r.transfers[1].source == 1 && 1 in r.accounts && r.accounts[1].balance == -10
  {
    var e := Entry(b.next.entry, 1, ManualAdjustment, -60, b.accounts[1].currency, 1, None, None);
    AppendMovesOneBalance(b.entries, e);
  }

  /** Fifty moved out of 100, then sixty adjusted away.  Naming no field, an update of the transfer is accepted;
      deleting the transfer and creating it again is refused for want of funds. */
  lemma EmptyUpdateAcceptsWhatCreationRefuses()
    ensures var b := Run(OverdrawnHistory());
      && 1 in b.transfers && UpdateTransfer(b, EnvOn(1), 1, NO_FIELD) == Ok(b)
      && DeleteTransfer(b, 1).Ok?
      && CreateTransfer(DeleteTransfer(b, 1).value, EnvOn(1), Merged(b.transfers[1], NO_FIELD)).Err?
  {
    var history := OverdrawnHistory();
    RunOfFour(history);
    var once := After(EMPTY_BOOKS, EnvOn(1), AccountCreate(BANK));
    var two := After(once, EnvOn(1), AccountCreate(WALLET));
    OneAccount();
    SecondAccount(once);
    FiftyMoved(two);
    SixtyTaken(After(two, EnvOn(1), TransferCreate(FIFTY)));
    EveryRunKeepsInv(history);
    EmptyUpdateAgainstDeleteThenCreate(Run(history), EnvOn(1), 1, NO_FIELD);
  }
}
