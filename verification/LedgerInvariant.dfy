/** The ledger invariant, and the cash operations that keep it. */
module LedgerInvariant {
  import opened Wrappers
  import opened Trades
  import opened Tables
  import opened Bookkeeping

  /** The cached balance is the exact sum of the account's entries. */
  ghost predicate Balanced(b: Books) {
    forall a :: a in b.accounts ==> b.accounts[a].balance == Balance(b.entries, a)
  }

  /** An entry lies on an existing account, in its currency, and its links make sense. */
  ghost predicate Placed(b: Books, e: Entry) {
    && e.account in b.accounts && e.currency == b.accounts[e.account].currency
    && e.id < b.next.entry
    && (e.kind.InitialBalance? ==> e.transaction.None? && e.transfer.None?)
    && (e.transfer.Some? ==> e.transfer.value in b.transfers)
    && (e.transaction.Some? ==> e.transaction.value < b.next.transaction)
  }

  ghost predicate EntriesPlaced(b: Books) {
    forall e :: e in b.entries ==> Placed(b, e)
  }

  ghost predicate OneOpening(b: Books) {
    forall a :: a in b.accounts ==> |Select(b.entries, InitialOf(a))| == 1
  }

  /** The entries of a transfer are exactly its two signed legs, on two accounts, into CNY. */
  ghost predicate Paired(b: Books, t: int)
    requires t in b.transfers
  {
    var transfer, legs := b.transfers[t], Select(b.entries, OfTransfer(t));
    && transfer.source != transfer.target && transfer.targetCurrency == CNY
    && |legs| == 2 && legs == Legs(t, transfer, legs[0].id)
  }

  ghost predicate TransfersPaired(b: Books) {
    forall t :: t in b.transfers ==> t < b.next.transfer && Paired(b, t)
  }

  ghost predicate Live(b: Books, x: int) {
    exists t :: t in b.transactions && t.id == x
  }

  /** The entries of a settled trade are exactly one, signed, on the settlement's account. */
  ghost predicate Linked(b: Books, x: int)
    requires x in b.settlements
  {
    var s, legs := b.settlements[x], Select(b.entries, OfTransaction(x));
    |legs| == 1 && legs[0] == Entry(
      legs[0].id, s.account,
      if s.direction.Inflow? then SellProceeds else BuyFunding,
      if s.direction.Inflow? then s.amount else -s.amount,
      s.currency, legs[0].happenedOn, Some(x), None)
  }

  ghost predicate SettlementsLinked(b: Books) {
    forall x :: x in b.settlements ==> Live(b, x) && Linked(b, x)
  }

  /** A live transaction without a settlement has no entry. */
  ghost predicate NoStrays(b: Books) {
    forall t :: t in b.transactions ==> t.id in b.settlements || Select(b.entries, OfTransaction(t.id)) == []
  }

  predicate IncreasingLog(log: seq<Transaction>) {
    forall i, j :: 0 <= i < j < |log| ==> log[i].id < log[j].id
  }

  ghost predicate KeysBelowNext(b: Books) {
    && IncreasingIds(b.entries) && IncreasingLog(b.transactions)
    && (forall a :: a in b.accounts ==> a < b.next.account)
    && (forall t :: t in b.transactions ==> t.id < b.next.transaction)
    && (forall h :: h in b.holdings ==> h < b.next.holding)
  }

  ghost predicate Inv(b: Books) {
    && Balanced(b) && EntriesPlaced(b) && OneOpening(b) && TransfersPaired(b)
    && SettlementsLinked(b) && NoStrays(b) && KeysBelowNext(b)
  }

  /** Everything but the balances. */
  ghost predicate InvButBalances(b: Books) {
    && EntriesPlaced(b) && OneOpening(b) && TransfersPaired(b)
    && SettlementsLinked(b) && NoStrays(b) && KeysBelowNext(b)
  }

  lemma RebalanceGivesInv(b: Books)
    requires InvButBalances(b)
    ensures Inv(Rebalance(b))
  {
    var r := Rebalance(b);
    forall e | e in r.entries ensures Placed(r, e) { assert Placed(b, e); }
    forall t | t in r.transfers ensures Paired(r, t) { assert Paired(b, t); }
    forall x | x in r.settlements ensures Live(r, x) && Linked(r, x) { assert Live(b, x) && Linked(b, x); }
  }

  lemma EmptyInv()
    ensures Inv(EMPTY_BOOKS)
  {
  }

  // ---- what appending, deleting and rewriting do to every selection ----

  lemma AppendOne(es: seq<Entry>, e: Entry)
    ensures forall q :: Select(es + [e], q) == if Matches(e, q) then Select(es, q) + [e] else Select(es, q)
  {
    forall q
      ensures Select(es + [e], q) == if Matches(e, q) then Select(es, q) + [e] else Select(es, q)
    {
      SelectAppend(es, [e], q);
      assert [e][1..] == [];
    }
  }

  lemma AppendMovesOneBalance(es: seq<Entry>, e: Entry)
    ensures forall a :: Balance(es + [e], a) == Balance(es, a) + (if e.account == a then e.amount else 0)
  {
    forall a ensures Balance(es + [e], a) == Balance(es, a) + (if e.account == a then e.amount else 0) {
      BalanceAppend(es, [e], a);
      assert [e][1..] == [];
      assert Select([e], OfAccount(a)) == if e.account == a then [e] else [];
      assert Sum([e]) == e.amount;
    }
  }

  /** An entry that carries a transfer is one of its legs. */
  lemma CarriesTransfer(b: Books, e: Entry)
    requires EntriesPlaced(b) && TransfersPaired(b) && e in b.entries && e.transfer.Some?
    ensures e.transfer.value in b.transfers && e.transaction.None? && !e.kind.InitialBalance?
    ensures e.account == b.transfers[e.transfer.value].source || e.account == b.transfers[e.transfer.value].target
  {
    var t := e.transfer.value;
    assert Placed(b, e);
    assert Paired(b, t);
    InSelect(b.entries, OfTransfer(t), e);
  }

  /** An entry that carries a settled transaction is its settlement's leg. */
  lemma CarriesSettlement(b: Books, e: Entry)
    requires SettlementsLinked(b) && e in b.entries && e.transaction.Some? && e.transaction.value in b.settlements
    ensures e.account == b.settlements[e.transaction.value].account && e.transfer.None?
  {
    var x := e.transaction.value;
    assert Linked(b, x);
    InSelect(b.entries, OfTransaction(x), e);
  }

  lemma TransferAccountsExist(b: Books, t: int)
    requires EntriesPlaced(b) && TransfersPaired(b) && t in b.transfers
    ensures b.transfers[t].source in b.accounts && b.transfers[t].target in b.accounts
    ensures b.accounts[b.transfers[t].target].currency == CNY
  {
    assert Paired(b, t);
    var legs := Select(b.entries, OfTransfer(t));
    InSelect(b.entries, OfTransfer(t), legs[0]);
    InSelect(b.entries, OfTransfer(t), legs[1]);
    assert Placed(b, legs[0]) && Placed(b, legs[1]);
  }

  lemma SettlementAccountExists(b: Books, x: int)
    requires EntriesPlaced(b) && SettlementsLinked(b) && x in b.settlements
    ensures b.settlements[x].account in b.accounts
    ensures b.settlements[x].currency == b.accounts[b.settlements[x].account].currency
  {
    assert Linked(b, x);
    var leg := Select(b.entries, OfTransaction(x))[0];
    InSelect(b.entries, OfTransaction(x), leg);
    assert Placed(b, leg);
  }

  // ---- one more entry ----

  /** Appending an entry that is neither an opening entry nor linked. */
  lemma AppendPlain(b: Books, e: Entry)
    requires InvButBalances(b) && e.id == b.next.entry
    requires e.account in b.accounts && e.currency == b.accounts[e.account].currency
    requires !e.kind.InitialBalance? && e.transaction.None? && e.transfer.None?
    ensures InvButBalances(b.(entries := b.entries + [e], next := b.next.(entry := e.id + 1)))
  {
    var r := b.(entries := b.entries + [e], next := b.next.(entry := e.id + 1));
    AppendOne(b.entries, e);
    KeepsSettlements(b, r);
    forall x | x in r.entries ensures Placed(r, x) { assert x in b.entries ==> Placed(b, x); }
    forall i | 0 <= i < |b.entries| ensures b.entries[i].id < e.id { assert Placed(b, b.entries[i]); }
  }

  /** Likewise for settlements, over the same or fewer transactions. */
  lemma KeepsSettlements(b: Books, r: Books)
    requires SettlementsLinked(b) && r.settlements.Keys <= b.settlements.Keys
    requires forall x :: x in r.settlements ==>
               && r.settlements[x] == b.settlements[x] && Live(r, x)
               && Select(r.entries, OfTransaction(x)) == Select(b.entries, OfTransaction(x))
    ensures SettlementsLinked(r)
  {
    forall x | x in r.settlements ensures Live(r, x) && Linked(r, x) { assert Linked(b, x); }
  }

  lemma CreateAdjustmentKeeps(b: Books, env: Env, a: int, amount: int, on: int)
    requires Inv(b) && CreateAdjustment(b, env, a, amount, on).Ok?
    ensures Inv(CreateAdjustment(b, env, a, amount, on).value)
  {
    var e := Entry(b.next.entry, a, ManualAdjustment, amount, b.accounts[a].currency, on, None, None);
    AppendPlain(b, e);
    RebalanceGivesInv(b.(entries := b.entries + [e], next := b.next.(entry := e.id + 1)));
  }

  // ---- one entry rewritten ----

  /** Rewriting an unlinked entry in place, keeping its account and kind. */
  lemma RewritePlain(b: Books, from: Entry, to: Entry)
    requires InvButBalances(b) && from in b.entries && to.id == from.id && to.account == from.account
    requires to.kind == from.kind && !to.kind.InitialBalance? && to.currency == b.accounts[to.account].currency
    requires from.transaction.None? && from.transfer.None? && to.transaction.None? && to.transfer.None?
    ensures InvButBalances(b.(entries := Rewrite(b.entries, to)))
  {
    var r := b.(entries := Rewrite(b.entries, to));
    assert Placed(b, from);
    forall e | e in b.entries ensures Placed(b, e) {}
    RewriteKeepsSelections(b, from, to, r);
    RewritePlaces(b, from, to, r);
  }

  lemma RewriteKeepsSelections(b: Books, from: Entry, to: Entry, r: Books)
    requires InvButBalances(b) && from in b.entries && to.id == from.id && to.account == from.account
    requires to.kind == from.kind
    requires from.transaction.None? && from.transfer.None? && to.transaction.None? && to.transfer.None?
    requires r.entries == Rewrite(b.entries, to) && r == b.(accounts := r.accounts, entries := r.entries)
    requires r.accounts.Keys == b.accounts.Keys
    ensures OneOpening(r) && TransfersPaired(r) && SettlementsLinked(r) && NoStrays(r)
  {
    assert OneOpening(r) by {
      forall a | a in r.accounts ensures |Select(r.entries, InitialOf(a))| == 1 {
        SelectRewrite(b.entries, from, to, InitialOf(a));
      }
    }
    forall t | t in r.transfers ensures Select(r.entries, OfTransfer(t)) == Select(b.entries, OfTransfer(t)) {
      SelectRewrite(b.entries, from, to, OfTransfer(t));
    }
    forall x ensures Select(r.entries, OfTransaction(x)) == Select(b.entries, OfTransaction(x)) {
      SelectRewrite(b.entries, from, to, OfTransaction(x));
    }
    forall x | x in r.settlements ensures Live(r, x) { assert Live(b, x); }
    KeepsSettlements(b, r);
  }

  lemma RewritePlaces(b: Books, from: Entry, to: Entry, r: Books)
    requires EntriesPlaced(b) && IncreasingIds(b.entries) && from in b.entries && to.id == from.id
    requires r.entries == Rewrite(b.entries, to) && r == b.(accounts := r.accounts, entries := r.entries)
    requires Placed(r, to)
    requires forall e :: e in b.entries && e.id != to.id ==>
               e.account in r.accounts && r.accounts[e.account].currency == e.currency
    ensures EntriesPlaced(r) && IncreasingIds(r.entries)
  {
    RewriteKeepsIds(b.entries, to);
    forall x | x in r.entries ensures Placed(r, x) {
      var i :| 0 <= i < |r.entries| && r.entries[i] == x;
      assert Placed(b, b.entries[i]);
    }
  }

  lemma FoundAdjustment(b: Books, id: int)
    requires FindAdjustment(b, id).Ok?
    ensures var e := FindAdjustment(b, id).value;
            && e in b.entries && e.id == id && e.kind.ManualAdjustment?
            && e.transaction.None? && e.transfer.None? && e.account in b.accounts
  {
    InSelect(b.entries, OfId(id), Select(b.entries, OfId(id))[0]);
  }

  lemma UpdateAdjustmentKeeps(b: Books, env: Env, id: int, amount: Field<int>, on: Field<int>, note: bool)
    requires Inv(b) && UpdateAdjustment(b, env, id, amount, on, note).Ok?
    ensures Inv(UpdateAdjustment(b, env, id, amount, on, note).value)
  {
    FoundAdjustment(b, id);
    var e := FindAdjustment(b, id).value;
    if amount.Given? || on.Given? || note {
      var edited := e.(amount := ValueOr(amount, e.amount), happenedOn := ValueOr(on, e.happenedOn),
                       currency := b.accounts[e.account].currency);
      RewritePlain(b, e, edited);
      RebalanceGivesInv(b.(entries := Rewrite(b.entries, edited)));
    }
  }

  // ---- entries deleted ----

  /** Deleting entries that no remaining opening, transfer or settlement needs. */
  lemma DeleteEntries(b: Books, q: Query, r: Books)
    requires InvButBalances(b)
    requires r.entries == Without(b.entries, q) && r.next == b.next && r.holdings == b.holdings
    requires r.accounts.Keys <= b.accounts.Keys && r.transfers.Keys <= b.transfers.Keys
    requires forall a :: a in r.accounts ==> r.accounts[a].currency == b.accounts[a].currency
    requires forall t :: t in r.transfers ==> r.transfers[t] == b.transfers[t]
    requires r.settlements.Keys <= b.settlements.Keys && r.transactions == b.transactions
    requires forall x :: x in r.settlements ==> r.settlements[x] == b.settlements[x]
    requires forall e :: e in b.entries && Matches(e, q) ==>
               && !(e.kind.InitialBalance? && e.account in r.accounts)
               && !(e.transfer.Some? && e.transfer.value in r.transfers)
               && !(e.transaction.Some? && e.transaction.value in r.settlements)
    requires forall e :: e in b.entries && !Matches(e, q) ==>
               && e.account in r.accounts
               && (e.transfer.Some? ==> e.transfer.value in r.transfers)
               && (e.transaction.Some? && e.transaction.value in b.settlements ==> e.transaction.value in r.settlements)
    ensures InvButBalances(r)
  {
    forall a | a in r.accounts ensures |Select(r.entries, InitialOf(a))| == 1 {
      SelectAfterWithout(b.entries, q, InitialOf(a));
    }
    forall t | t in r.transfers ensures Select(r.entries, OfTransfer(t)) == Select(b.entries, OfTransfer(t)) {
      SelectAfterWithout(b.entries, q, OfTransfer(t));
    }
    forall x | x in r.settlements
      ensures Live(r, x) && Select(r.entries, OfTransaction(x)) == Select(b.entries, OfTransaction(x))
    {
      assert Live(b, x);
      SelectAfterWithout(b.entries, q, OfTransaction(x));
    }
    KeepsSettlements(b, r);
    forall e | e in r.entries ensures Placed(r, e) {
      InWithout(b.entries, q, e);
      assert Placed(b, e);
    }
    forall t | t in r.transactions
      ensures t.id in r.settlements || Select(r.entries, OfTransaction(t.id)) == []
    {
      if t.id !in r.settlements {
        forall e | e in b.entries && Matches(e, OfTransaction(t.id)) ensures Matches(e, q) {
          InSelect(b.entries, OfTransaction(t.id), e);
        }
        SelectGone(b.entries, q, OfTransaction(t.id));
      }
    }
    WithoutKeepsIds(b.entries, q);
  }

  lemma DeleteAdjustmentKeeps(b: Books, id: int)
    requires Inv(b) && DeleteAdjustment(b, id).Ok?
    ensures Inv(DeleteAdjustment(b, id).value)
  {
    FoundAdjustment(b, id);
    var found := FindAdjustment(b, id).value;
    SelectById(b.entries, found);
    forall e | e in b.entries && Matches(e, OfId(id)) ensures e == found {
      InSelect(b.entries, OfId(id), e);
    }
    var r := b.(entries := Without(b.entries, OfId(id)));
    forall e | e in b.entries ensures Placed(b, e) {}
    DeleteEntries(b, OfId(id), r);
    RebalanceGivesInv(r);
  }

  lemma LiftTransferKeeps(b: Books, id: int)
    requires Inv(b) && id in b.transfers
    ensures Inv(LiftTransfer(b, id).(transfers := b.transfers - {id}))
    ensures LiftTransfer(b, id).accounts.Keys == b.accounts.Keys
  {
    var r := b.(entries := Without(b.entries, OfTransfer(id)), transfers := b.transfers - {id});
    forall e | e in b.entries && Matches(e, OfTransfer(id))
      ensures e.transaction.None? && !e.kind.InitialBalance?
    {
      CarriesTransfer(b, e);
    }
    forall e | e in b.entries ensures Placed(b, e) {}
    DeleteEntries(b, OfTransfer(id), r);
    RebalanceGivesInv(r);
    assert LiftTransfer(b, id).(transfers := b.transfers - {id}) == Rebalance(r);
  }

  lemma DeleteAccountKeeps(b: Books, a: int)
    requires Inv(b) && DeleteAccount(b, a).Ok?
    ensures Inv(DeleteAccount(b, a).value)
  {
    var (ts, xs) := (TransfersOf(b.transfers, a), SettledOn(b.settlements, a));
    var q := Cascade(a, ts, xs);
    var r := b.(accounts := b.accounts - {a}, entries := Without(b.entries, q),
                transfers := b.transfers - ts, settlements := b.settlements - xs);
    forall e | e in b.entries
      ensures Placed(b, e)
      ensures e.transfer.Some? ==> e.transaction.None? && !e.kind.InitialBalance?
      ensures e.transfer.Some? && e.account == a ==> e.transfer.value in ts
      ensures e.transaction.Some? && e.transaction.value in b.settlements && e.account == a ==>
                e.transaction.value in xs
    {
      if e.transfer.Some? { CarriesTransfer(b, e); }
      if e.transaction.Some? && e.transaction.value in b.settlements { CarriesSettlement(b, e); }
    }
    DeleteEntries(b, q, r);
    RebalanceGivesInv(r);
  }

  // ---- transfers ----

  /** The legs of a transfer between two accounts, into CNY. */
  predicate Transferable(b: Books, t: Transfer) {
    && t.source in b.accounts && t.target in b.accounts && t.source != t.target
    && t.sourceCurrency == b.accounts[t.source].currency
    && t.targetCurrency == b.accounts[t.target].currency == CNY
  }

  function WithLegs(b: Books, id: int, t: Transfer): Books {
    b.(transfers := b.transfers[id := t], entries := b.entries + Legs(id, t, b.next.entry),
       next := b.next.(entry := b.next.entry + 2))
  }

  lemma LegsArePlaced(b: Books, id: int, t: Transfer)
    requires InvButBalances(b) && id !in b.transfers && Transferable(b, t)
    ensures EntriesPlaced(WithLegs(b, id, t)) && KeysBelowNext(WithLegs(b, id, t))
  {
    var r, legs := WithLegs(b, id, t), Legs(id, t, b.next.entry);
    forall e | e in r.entries ensures Placed(r, e) {
      assert e in b.entries || e == legs[0] || e == legs[1];
      assert e in b.entries ==> Placed(b, e);
    }
    forall i | 0 <= i < |b.entries| ensures b.entries[i].id < legs[0].id { assert Placed(b, b.entries[i]); }
  }

  lemma LegsArePaired(b: Books, id: int, t: Transfer)
    requires InvButBalances(b) && id !in b.transfers && id < b.next.transfer && Transferable(b, t)
    ensures TransfersPaired(WithLegs(b, id, t))
  {
    var r, legs := WithLegs(b, id, t), Legs(id, t, b.next.entry);
    AppendLegs(b.entries, legs);
    forall e | e in b.entries ensures Placed(b, e) {}
    NothingMatches(b.entries, OfTransfer(id));
    forall k | k in r.transfers ensures k < r.next.transfer && Paired(r, k) {
      if k != id { assert Paired(b, k); }
    }
  }

  lemma PlaceTransferKeeps(b: Books, id: int, t: Transfer)
    requires InvButBalances(b) && id !in b.transfers && id < b.next.transfer && Transferable(b, t)
    ensures Inv(PlaceTransfer(b, id, t))
  {
    var r := WithLegs(b, id, t);
    AppendLegs(b.entries, Legs(id, t, b.next.entry));
    LegsArePlaced(b, id, t);
    LegsArePaired(b, id, t);
    forall x | x in r.settlements ensures Live(r, x) { assert Live(b, x); }
    KeepsSettlements(b, r);
    RebalanceGivesInv(r);
  }

  lemma AppendLegs(es: seq<Entry>, legs: seq<Entry>)
    requires |legs| == 2 && (forall i :: 0 <= i < 2 ==> legs[i].transfer.Some? && legs[i].transaction.None?)
    requires legs[0].transfer == legs[1].transfer
    ensures forall t :: Select(es + legs, OfTransfer(t)) ==
              if legs[0].transfer == Some(t) then Select(es, OfTransfer(t)) + legs else Select(es, OfTransfer(t))
    ensures forall x :: Select(es + legs, OfTransaction(x)) == Select(es, OfTransaction(x))
    ensures forall a :: Select(es + legs, InitialOf(a)) == Select(es, InitialOf(a))
  {
    assert es + legs == es + [legs[0]] + [legs[1]];
    AppendOne(es, legs[0]);
    AppendOne(es + [legs[0]], legs[1]);
    forall t ensures Select(es + legs, OfTransfer(t)) ==
              if legs[0].transfer == Some(t) then Select(es, OfTransfer(t)) + legs else Select(es, OfTransfer(t))
    {
      assert Select(es, OfTransfer(t)) + [legs[0]] + [legs[1]] == Select(es, OfTransfer(t)) + legs;
    }
  }

  lemma CreateTransferKeeps(b: Books, env: Env, form: TransferForm)
    requires Inv(b) && CreateTransfer(b, env, form).Ok?
    ensures Inv(CreateTransfer(b, env, form).value)
  {
    var t := CheckTransfer(b, env, form).value;
    var id := b.next.transfer;
    var reserved := b.(next := b.next.(transfer := id + 1));
    SameLedger(b, reserved);
    PlaceTransferKeeps(reserved, id, t);
  }

  /** The invariant only looks at the ledger tables, the live ids and lower bounds on keys. */
  lemma SameLedger(b: Books, r: Books)
    requires Inv(b)
    requires r.accounts == b.accounts && r.entries == b.entries && r.transfers == b.transfers
    requires r.settlements == b.settlements && r.transactions == b.transactions
    requires r.next.account >= b.next.account && r.next.entry >= b.next.entry
    requires r.next.transfer >= b.next.transfer && r.next.transaction >= b.next.transaction
    requires forall h :: h in r.holdings ==> h < r.next.holding
    ensures Inv(r)
  {
    forall e | e in r.entries ensures Placed(r, e) { assert Placed(b, e); }
    KeepsSettlements(b, r) by {
      forall x | x in r.settlements ensures Live(r, x) { assert Live(b, x); }
    }
  }

  lemma DeleteTransferKeeps(b: Books, id: int)
    requires Inv(b) && DeleteTransfer(b, id).Ok?
    ensures Inv(DeleteTransfer(b, id).value)
  {
    LiftTransferKeeps(b, id);
  }

  lemma PlacedAgain(b: Books, id: int, t: Transfer)
    ensures PlaceTransfer(b.(transfers := b.transfers - {id}), id, t) == PlaceTransfer(b, id, t)
  {
    assert (b.transfers - {id})[id := t] == b.transfers[id := t];
  }

  lemma UpdateTransferKeeps(b: Books, env: Env, id: int, patch: TransferPatch)
    requires Inv(b) && UpdateTransfer(b, env, id, patch).Ok?
    ensures Inv(UpdateTransfer(b, env, id, patch).value)
  {
    if !EmptyPatch(patch) {
      LiftTransferKeeps(b, id);
      var lifted := LiftTransfer(b, id);
      var t := CheckTransferUpdate(lifted, env, Merged(b.transfers[id], patch)).value;
      PlaceTransferKeeps(lifted.(transfers := b.transfers - {id}), id, t);
      PlacedAgain(lifted, id, t);
    }
  }

  // ---- accounts ----

  /** Reconciling reaches the target and moves no other balance. */
  lemma OpeningMovesOneBalance(b: Books, a: int, target: int)
    requires a in b.accounts && IncreasingIds(b.entries)
    ensures Balance(WithOpening(b, a, target).entries, a) == target
    ensures forall c :: c != a ==> Balance(WithOpening(b, a, target).entries, c) == Balance(b.entries, c)
  {
    var initials := Select(b.entries, InitialOf(a));
    if initials == [] {
      AppendMovesOneBalance(b.entries, OpeningEntry(b.next.entry, a, b.accounts[a], target - Balance(b.entries, a)));
    } else {
      var others := Balance(b.entries, a) - initials[0].amount;
      var opening := OpeningEntry(initials[0].id, a, b.accounts[a], target - others);
      InSelect(b.entries, InitialOf(a), initials[0]);
      forall c ensures Balance(Rewrite(b.entries, opening), c)
                    == Balance(b.entries, c) + (if c == a then opening.amount - initials[0].amount else 0)
      {
        BalanceRewrite(b.entries, initials[0], opening, c);
      }
    }
  }

  /** Creating or updating an account leaves it with exactly the balance that was asked for. */
  lemma AccountHasRequestedBalance(b: Books, env: Env, a: int, form: AccountForm)
    requires Inv(b)
    ensures CreateAccount(b, env, form).value.accounts[b.next.account].balance == form.balance
    ensures UpdateAccount(b, a, form).Ok? ==>
              UpdateAccount(b, a, form).value.accounts[a].balance == form.balance
  {
    OpeningMovesOneBalance(b.(accounts := b.accounts[b.next.account := NewAccountRow(env, form)],
                              next := b.next.(account := b.next.account + 1)), b.next.account, form.balance);
    if UpdateAccount(b, a, form).Ok? {
      OpeningMovesOneBalance(
        b.(accounts := b.accounts[a := EditedAccount(b.accounts[a], form)]), a, form.balance);
    }
  }

  lemma CreateAccountIs(b: Books, env: Env, form: AccountForm)
    requires Inv(b)
    ensures CreateAccount(b, env, form)
         == Ok(Rebalance(WithAccount(b, b.next.account, NewAccountRow(env, form), form.balance)))
  {
    var a := b.next.account;
    var reserved := b.(accounts := b.accounts[a := NewAccountRow(env, form)], next := b.next.(account := a + 1));
    forall e | e in b.entries ensures e.account != a { assert Placed(b, e); }
    NothingMatches(b.entries, InitialOf(a));
    BalanceElsewhere(b.entries, a);
    assert CreateAccount(b, env, form) == Ok(Reconcile(reserved, a, form.balance));
  }

  lemma CreateAccountKeeps(b: Books, env: Env, form: AccountForm)
    requires Inv(b)
    ensures CreateAccount(b, env, form).Ok? && Inv(CreateAccount(b, env, form).value)
  {
    CreateAccountIs(b, env, form);
    OpenAccount(b, b.next.account, NewAccountRow(env, form), form.balance);
    RebalanceGivesInv(WithAccount(b, b.next.account, NewAccountRow(env, form), form.balance));
  }

  lemma OpenAccount(b: Books, a: int, account: Account, amount: int)
    requires InvButBalances(b) && a == b.next.account
    ensures InvButBalances(WithAccount(b, a, account, amount))
  {
    var r := WithAccount(b, a, account, amount);
    var e := OpeningEntry(b.next.entry, a, account, amount);
    forall x | x in b.entries ensures Placed(b, x) && x.account != a { assert Placed(b, x); }
    AppendOne(b.entries, e);
    NothingMatches(b.entries, InitialOf(a));
    forall x | x in r.settlements ensures Live(r, x) { assert Live(b, x); }
    KeepsSettlements(b, r);
    OpeningIsPlaced(b, a, account, amount);
    assert OneOpening(r);
  }

  lemma OpeningIsPlaced(b: Books, a: int, account: Account, amount: int)
    requires EntriesPlaced(b) && KeysBelowNext(b) && a == b.next.account
    ensures EntriesPlaced(WithAccount(b, a, account, amount)) && KeysBelowNext(WithAccount(b, a, account, amount))
  {
    var r := WithAccount(b, a, account, amount);
    var e := OpeningEntry(b.next.entry, a, account, amount);
    forall x | x in r.entries ensures Placed(r, x) {
      assert x in b.entries || x == e;
      assert x in b.entries ==> Placed(b, x);
    }
    forall i | 0 <= i < |b.entries| ensures b.entries[i].id < e.id { assert Placed(b, b.entries[i]); }
  }

  /** An account whose currency changes has no entry but its opening entry. */
  lemma OnlyOpening(b: Books, a: int, form: AccountForm, opening: Entry)
    requires Inv(b) && UpdateAccount(b, a, form).Ok? && Select(b.entries, InitialOf(a)) == [opening]
    ensures opening in b.entries && Placed(b, opening) && opening.account == a && opening.kind.InitialBalance?
    ensures forall e :: e in b.entries && e.id != opening.id && e.account == a ==> e.currency == form.currency
  {
    InSelect(b.entries, InitialOf(a), opening);
    forall e | e in b.entries && e.id != opening.id && e.account == a ensures e.currency == form.currency {
      assert Placed(b, e);
      InSelect(b.entries, NonInitialOf(a), e);
      InSelect(b.entries, InitialOf(a), e);
    }
  }

  function EditedOpening(b: Books, a: int, form: AccountForm, opening: Entry): Entry
    requires a in b.accounts
  {
    OpeningEntry(opening.id, a, EditedAccount(b.accounts[a], form),
                 form.balance - (Balance(b.entries, a) - opening.amount))
  }

  lemma UpdateAccountIs(b: Books, a: int, form: AccountForm, opening: Entry)
    requires UpdateAccount(b, a, form).Ok? && Select(b.entries, InitialOf(a)) == [opening]
    ensures UpdateAccount(b, a, form) == Ok(Rebalance(b.(
              accounts := b.accounts[a := EditedAccount(b.accounts[a], form)],
              entries := Rewrite(b.entries, EditedOpening(b, a, form, opening)))))
  {
    var edited := b.(accounts := b.accounts[a := EditedAccount(b.accounts[a], form)]);
    assert UpdateAccount(b, a, form) == Ok(Reconcile(edited, a, form.balance));
  }

  lemma UpdateAccountKeeps(b: Books, a: int, form: AccountForm)
    requires Inv(b) && UpdateAccount(b, a, form).Ok?
    ensures Inv(UpdateAccount(b, a, form).value)
  {
    var opening := Select(b.entries, InitialOf(a))[0];
    assert Select(b.entries, InitialOf(a)) == [opening];
    UpdateAccountIs(b, a, form, opening);
    OnlyOpening(b, a, form, opening);
    var to := EditedOpening(b, a, form, opening);
    var r := b.(accounts := b.accounts[a := EditedAccount(b.accounts[a], form)], entries := Rewrite(b.entries, to));
    forall e | e in b.entries && e.id != to.id
      ensures e.account in r.accounts && r.accounts[e.account].currency == e.currency
    {
      assert Placed(b, e);
    }
    RewriteKeepsSelections(b, opening, to, r);
    RewritePlaces(b, opening, to, r);
    RebalanceGivesInv(r);
  }
}
