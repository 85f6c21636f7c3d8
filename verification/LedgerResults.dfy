/** What the cash requests leave behind: the stored rows field by field, the entries, and every balance. */
module LedgerResults {
  import opened Wrappers
  import opened Trades
  import opened Tables
  import opened Bookkeeping
  import opened LedgerInvariant
  import opened Equivalences

  /** A field takes the value that is given, and keeps its own if none is, or null. */
  predicate Takes(f: Field<int>, was: int, now: int) {
    match f
    case Given(Some(v)) => now == v
    case _ => now == was
  }

  // ---- transfers ----

  /** The entries of the transfer are a debit of the source and a credit of the target, on its day. */
  ghost predicate LegsStand(b: Books, id: int)
    requires id in b.transfers
  {
    var t, legs := b.transfers[id], Select(b.entries, OfTransfer(id));
    && |legs| == 2
    && legs[0].account == t.source && legs[0].amount == -t.sourceAmount && legs[0].currency == t.sourceCurrency
    && legs[1].account == t.target && legs[1].amount == t.targetAmount && legs[1].currency == t.targetCurrency
    && legs[0].kind == TransferOut && legs[1].kind == TransferIn && legs[0].happenedOn == legs[1].happenedOn == t.on
  }

  lemma PairedLegsStand(b: Books, id: int)
    requires Inv(b) && id in b.transfers
    ensures LegsStand(b, id)
  {
    assert Paired(b, id);
  }

  /** The account is credited what the transfer credits it, and debited what it debits it. */
  ghost predicate Moves(before: int, after: int, t: Transfer, a: int) {
    if a == t.source then after == before - t.sourceAmount
    else if a == t.target then after == before + t.targetAmount
    else after == before
  }

  lemma PlacedBalances(b: Books, id: int, t: Transfer, a: int)
    requires a in b.accounts && t.source != t.target && b.accounts[a].balance == Balance(b.entries, a)
    ensures a in PlaceTransfer(b, id, t).accounts
    ensures Moves(b.accounts[a].balance, PlaceTransfer(b, id, t).accounts[a].balance, t, a)
  {
    LegsBalance(id, t, b.next.entry, a);
    BalanceAppend(b.entries, Legs(id, t, b.next.entry), a);
  }

  /** What the target is credited: the amount that was asked for, within one unit of the worth, or the worth. */
  ghost predicate TargetAmount(env: Env, t: Transfer, asked: Option<int>) {
    exists worth :: IsWorth(env, t.sourceAmount, t.sourceCurrency, t.targetCurrency, worth)
      && (if asked.Some? then t.targetAmount == asked.value && -1 <= asked.value - worth <= 1
          else t.targetAmount == worth)
  }

  lemma CheckedTransfer(b: Books, env: Env, form: TransferForm)
    ensures CheckTransfer(b, env, form).Ok? <==>
      && form.on <= env.today && form.source in b.accounts && form.target in b.accounts && form.source != form.target
      && b.accounts[form.target].currency == CNY && b.accounts[form.source].balance + 1 >= form.sourceAmount
      && exists worth :: IsWorth(env, form.sourceAmount, b.accounts[form.source].currency, CNY, worth)
           && (form.targetAmount.Some? ==> -1 <= form.targetAmount.value - worth <= 1)
    ensures CheckTransfer(b, env, form).Ok? ==>
      var t := CheckTransfer(b, env, form).value;
      && t.source == form.source && t.target == form.target && t.sourceAmount == form.sourceAmount && t.on == form.on
      && t.sourceCurrency == b.accounts[form.source].currency && t.targetCurrency == CNY
      && TargetAmount(env, t, form.targetAmount)
  {
    if form.source in b.accounts && form.target in b.accounts {
      ConvertedIsWorth(env, form.sourceAmount, b.accounts[form.source].currency, b.accounts[form.target].currency);
      if CheckTransfer(b, env, form).Ok? {
        var worth := Convert(env, form.sourceAmount, b.accounts[form.source].currency, CNY).value;
        assert IsWorth(env, form.sourceAmount, b.accounts[form.source].currency, CNY, worth);
      }
    }
  }

  /** A created transfer is accepted exactly when it is not dated ahead, links two accounts into CNY, is covered by the
      source up to a unit, and names no target amount but the worth up to a unit; it moves those amounts and nothing
      else. */
  lemma CreatedTransfer(b: Books, env: Env, form: TransferForm)
    requires Inv(b)
    ensures CreateTransfer(b, env, form).Ok? <==>
      && form.on <= env.today && form.source in b.accounts && form.target in b.accounts && form.source != form.target
      && b.accounts[form.target].currency == CNY && b.accounts[form.source].balance + 1 >= form.sourceAmount
      && exists worth :: IsWorth(env, form.sourceAmount, b.accounts[form.source].currency, CNY, worth)
           && (form.targetAmount.Some? ==> -1 <= form.targetAmount.value - worth <= 1)
    ensures CreateTransfer(b, env, form).Ok? ==>
      var r, id := CreateTransfer(b, env, form).value, b.next.transfer;
      && id !in b.transfers && r.transfers.Keys == b.transfers.Keys + {id} && LegsStand(r, id)
      && (forall k :: k in b.transfers ==> r.transfers[k] == b.transfers[k])
      && r.transfers[id].source == form.source && r.transfers[id].target == form.target
      && r.transfers[id].sourceAmount == form.sourceAmount && r.transfers[id].on == form.on
      && r.transfers[id].sourceCurrency == b.accounts[form.source].currency
      && TargetAmount(env, r.transfers[id], form.targetAmount)
      && r.accounts.Keys == b.accounts.Keys
      && (forall a :: a in b.accounts ==> Moves(b.accounts[a].balance, r.accounts[a].balance, r.transfers[id], a))
  {
    CheckedTransfer(b, env, form);
    if CreateTransfer(b, env, form).Ok? {
      var t, id := CheckTransfer(b, env, form).value, b.next.transfer;
      CreateTransferKeeps(b, env, form);
      NextTransferIsFree(b);
      PairedLegsStand(CreateTransfer(b, env, form).value, id);
      forall a | a in b.accounts
        ensures Moves(b.accounts[a].balance, CreateTransfer(b, env, form).value.accounts[a].balance, t, a)
      {
        PlacedBalances(b.(next := b.next.(transfer := id + 1)), id, t, a);
      }
    }
  }

  lemma NextTransferIsFree(b: Books)
    requires Inv(b)
    ensures b.next.transfer !in b.transfers
  {
  }

  /** The target amount an update asks for: the one it names; without one the stored amount, as long as no account and
      no source amount is named either. */
  ghost predicate AsksTarget(patch: TransferPatch, was: Transfer, asked: Option<int>) {
    if patch.targetAmount.Given? then asked == patch.targetAmount.value
    else if patch.source.Unset? && patch.target.Unset? && patch.sourceAmount.Unset? then asked == Some(was.targetAmount)
    else asked == None
  }

  /** The merged transfer has the fields the patch names and keeps the others. */
  ghost predicate Edits(b: Books, env: Env, patch: TransferPatch, was: Transfer, now: Transfer) {
    && Takes(patch.source, was.source, now.source) && Takes(patch.target, was.target, now.target)
    && Takes(patch.sourceAmount, was.sourceAmount, now.sourceAmount) && Takes(patch.on, was.on, now.on)
    && now.source in b.accounts && now.sourceCurrency == b.accounts[now.source].currency && now.targetCurrency == CNY
    && exists asked :: AsksTarget(patch, was, asked) && TargetAmount(env, now, asked)
  }

  lemma CheckedUpdate(b: Books, env: Env, was: Transfer, patch: TransferPatch)
    requires CheckTransferUpdate(b, env, Merged(was, patch)).Ok?
    ensures Edits(b, env, patch, was, CheckTransferUpdate(b, env, Merged(was, patch)).value)
  {
    var form := Merged(was, patch);
    CheckedTransfer(b, env, form);
    assert AsksTarget(patch, was, form.targetAmount);
  }

  /** The account gets back what the old transfer moved and then moves what the new one does. */
  ghost predicate Removes(before: int, after: int, was: Transfer, now: Transfer, a: int) {
    exists between :: Moves(between, before, was, a) && Moves(between, after, now, a)
  }

  lemma UpdatedBalance(b: Books, id: int, now: Transfer, a: int)
    requires Inv(b) && id in b.transfers && a in b.accounts && now.source != now.target
    ensures a in PlaceTransfer(LiftTransfer(b, id), id, now).accounts
    ensures Removes(b.accounts[a].balance, PlaceTransfer(LiftTransfer(b, id), id, now).accounts[a].balance,
                    b.transfers[id], now, a)
  {
    var lifted := LiftTransfer(b, id);
    TransferCurrencies(b, id);
    LiftedBalance(b, id, a);
    PlacedBalances(lifted, id, now, a);
    assert Moves(lifted.accounts[a].balance, b.accounts[a].balance, b.transfers[id], a);
  }

  /** An updated transfer has the fields the patch names and keeps the others; its legs are rewritten, and every account
      gets back what the old one moved and moves what the new one does. */
  lemma UpdatedTransfer(b: Books, env: Env, id: int, patch: TransferPatch)
    requires Inv(b) && id in b.transfers && !EmptyPatch(patch) && UpdateTransfer(b, env, id, patch).Ok?
    ensures var was, r := b.transfers[id], UpdateTransfer(b, env, id, patch).value;
      && r.transfers.Keys == b.transfers.Keys && LegsStand(r, id)
      && (forall k :: k in b.transfers && k != id ==> r.transfers[k] == b.transfers[k])
      && Edits(b, env, patch, was, r.transfers[id])
      && r.accounts.Keys == b.accounts.Keys
      && (forall a :: a in b.accounts ==>
            Removes(b.accounts[a].balance, r.accounts[a].balance, was, r.transfers[id], a))
  {
    var was, r := b.transfers[id], UpdateTransfer(b, env, id, patch).value;
    UpdateIsPlaced(b, env, id, patch);
    CheckedUpdate(LiftTransfer(b, id), env, was, patch);
    UpdateTransferKeeps(b, env, id, patch);
    PairedLegsStand(r, id);
    forall a | a in b.accounts
      ensures Removes(b.accounts[a].balance, r.accounts[a].balance, was, r.transfers[id], a)
    {
      UpdatedBalance(b, id, r.transfers[id], a);
    }
  }

  lemma UpdateIsPlaced(b: Books, env: Env, id: int, patch: TransferPatch)
    requires Inv(b) && id in b.transfers && !EmptyPatch(patch) && UpdateTransfer(b, env, id, patch).Ok?
    ensures CheckTransferUpdate(LiftTransfer(b, id), env, Merged(b.transfers[id], patch)).Ok?
    ensures var r, lifted := UpdateTransfer(b, env, id, patch).value, LiftTransfer(b, id);
            var now := CheckTransferUpdate(lifted, env, Merged(b.transfers[id], patch)).value;
      && r == PlaceTransfer(lifted, id, now) && r.transfers == b.transfers[id := now] && now.source != now.target
      && r.accounts.Keys == lifted.accounts.Keys == b.accounts.Keys
      && forall a :: a in b.accounts ==> lifted.accounts[a].currency == b.accounts[a].currency
  {
  }

  /** A deleted transfer gives back what it moved, and takes its two legs with it. */
  lemma DeletedTransfer(b: Books, id: int)
    requires Inv(b)
    ensures DeleteTransfer(b, id).Ok? <==> id in b.transfers
    ensures DeleteTransfer(b, id).Ok? ==>
      var r := DeleteTransfer(b, id).value;
      && r.transfers.Keys == b.transfers.Keys - {id}
      && (forall k :: k in r.transfers ==> r.transfers[k] == b.transfers[k])
      && (forall e :: e in r.entries <==> e in b.entries && e.transfer != Some(id))
      && r.accounts.Keys == b.accounts.Keys
      && forall a :: a in b.accounts ==> Moves(r.accounts[a].balance, b.accounts[a].balance, b.transfers[id], a)
  {
    if id in b.transfers {
      TransferCurrencies(b, id);
      forall e { InWithout(b.entries, OfTransfer(id), e); }
      forall a | a in b.accounts
        ensures Moves(LiftTransfer(b, id).accounts[a].balance, b.accounts[a].balance, b.transfers[id], a)
      {
        LiftedBalance(b, id, a);
      }
    }
  }

  // ---- accounts ----

  /** The opening day: the given one, or the day the account was made. */
  ghost predicate OpensOn(row: Account, day: int) {
    match row.startedOn
    case Some(d) => day == d
    case None => day == row.createdOn
  }

  /** The only opening entry of an account, with its day, currency and amount. */
  ghost predicate Opens(b: Books, a: int, amount: int)
    requires a in b.accounts
  {
    var initials := Select(b.entries, InitialOf(a));
    && |initials| == 1 && initials[0].amount == amount && initials[0].currency == b.accounts[a].currency
    && OpensOn(b.accounts[a], initials[0].happenedOn)
  }

  /** A created account has the fields of the form, made today, its requested balance, and an opening entry for all of
      it; no other account changes. */
  lemma CreatedAccount(b: Books, env: Env, form: AccountForm)
    requires Inv(b)
    ensures CreateAccount(b, env, form).Ok?
    ensures var r, a := CreateAccount(b, env, form).value, b.next.account;
      && a !in b.accounts && r.accounts.Keys == b.accounts.Keys + {a}
      && (forall c :: c in b.accounts ==> r.accounts[c] == b.accounts[c])
      && r.accounts[a].currency == form.currency && r.accounts[a].platform == form.platform
      && r.accounts[a].balance == form.balance && r.accounts[a].createdOn == env.utcToday
      && r.accounts[a].startedOn == (match form.startedOn case Given(day) => day case Unset => None)
      && Opens(r, a, form.balance)
      && |r.entries| == |b.entries| + 1 && r.entries[..|b.entries|] == b.entries
  {
    var a, row := b.next.account, NewAccountRow(env, form);
    var opening := OpeningEntry(b.next.entry, a, row, form.balance);
    CreateAccountIs(b, env, form);
    AppendMovesOneBalance(b.entries, opening);
    AppendOne(b.entries, opening);
    forall e | e in b.entries ensures e.account != a { assert Placed(b, e); }
    NothingMatches(b.entries, InitialOf(a));
    BalanceElsewhere(b.entries, a);
  }

  /** The opening entry of an account is rewritten and nothing else. */
  lemma OpeningRewritten(b: Books, a: int, form: AccountForm, opening: Entry)
    requires IncreasingIds(b.entries) && a in b.accounts && Select(b.entries, InitialOf(a)) == [opening]
    ensures opening in b.entries && opening.account == a
    ensures var es := Rewrite(b.entries, EditedOpening(b, a, form, opening));
      && |es| == |b.entries| && Select(es, InitialOf(a)) == [EditedOpening(b, a, form, opening)]
      && (forall i :: 0 <= i < |es| && b.entries[i].id != opening.id ==> es[i] == b.entries[i])
  {
    var to := EditedOpening(b, a, form, opening);
    InSelect(b.entries, InitialOf(a), opening);
    RewriteAt(b.entries, to);
    OnlyOneRewritten(b.entries, opening, to, InitialOf(a));
  }

  /** The only entry a query selects is rewritten within it. */
  lemma OnlyOneRewritten(es: seq<Entry>, from: Entry, to: Entry, q: Query)
    requires IncreasingIds(es) && Select(es, q) == [from] && Matches(to, q) && to.id == from.id
    ensures Select(Rewrite(es, to), q) == [to]
  {
    InSelect(es, q, from);
    SelectRewrite(es, from, to, q);
    RewriteAt(es, to);
    var i :| 0 <= i < |es| && es[i] == from;
    assert Rewrite(es, to)[i] == to;
    InSelect(Rewrite(es, to), q, to);
  }

  lemma OpeningBalances(b: Books, a: int, form: AccountForm, opening: Entry, c: int)
    requires Inv(b) && a in b.accounts && opening in b.entries && opening.account == a && c in b.accounts
    ensures Balance(Rewrite(b.entries, EditedOpening(b, a, form, opening)), c)
         == if c == a then form.balance else b.accounts[c].balance
  {
    BalanceRewrite(b.entries, opening, EditedOpening(b, a, form, opening), c);
  }

  /** An updated account has the fields of the form and the requested balance; its opening entry takes up the
      difference, and everything else is as it was. */
  lemma UpdatedAccount(b: Books, a: int, form: AccountForm)
    requires Inv(b) && a in b.accounts && UpdateAccount(b, a, form).Ok?
    ensures |Select(b.entries, InitialOf(a))| == 1
    ensures var r, was, opening := UpdateAccount(b, a, form).value, b.accounts[a], Select(b.entries, InitialOf(a))[0];
      && r.accounts.Keys == b.accounts.Keys
      && (forall c :: c in b.accounts && c != a ==> r.accounts[c] == b.accounts[c])
      && r.accounts[a].currency == form.currency && r.accounts[a].platform == form.platform
      && r.accounts[a].balance == form.balance && r.accounts[a].createdOn == was.createdOn
      && r.accounts[a].startedOn == (match form.startedOn case Given(day) => day case Unset => was.startedOn)
      && Opens(r, a, opening.amount + form.balance - was.balance)
      && |r.entries| == |b.entries|
      && (forall i :: 0 <= i < |b.entries| && b.entries[i].id != opening.id ==> r.entries[i] == b.entries[i])
  {
    var opening := Select(b.entries, InitialOf(a))[0];
    assert Select(b.entries, InitialOf(a)) == [opening];
    OpeningRewritten(b, a, form, opening);
    UpdateAccountIs(b, a, form, opening);
    forall c | c in b.accounts ensures Balance(UpdateAccount(b, a, form).value.entries, c)
                 == if c == a then form.balance else b.accounts[c].balance
    {
      OpeningBalances(b, a, form, opening, c);
    }
  }

  lemma {:induction false} RewriteAt(es: seq<Entry>, to: Entry)
    ensures |Rewrite(es, to)| == |es|
    ensures forall i :: 0 <= i < |es| ==> Rewrite(es, to)[i] == if es[i].id == to.id then to else es[i]
  {
    if es == [] {
    } else {
      RewriteAt(es[1..], to);
    }
  }

  /** Deleting an account takes exactly the transfers that touch it, the settlements on it, and the entries on it or of
      those transfers; everything else survives. */
  lemma DeletedAccount(b: Books, a: int)
    requires Inv(b) && a in b.accounts
    ensures DeleteAccount(b, a).Ok?
    ensures var r := DeleteAccount(b, a).value;
      && r.accounts.Keys == b.accounts.Keys - {a}
      && (forall c :: c in r.accounts ==>
            r.accounts[c] == b.accounts[c].(balance := r.accounts[c].balance)
            && r.accounts[c].balance == Balance(r.entries, c))
      && (forall k :: k in r.transfers <==>
            k in b.transfers && b.transfers[k].source != a && b.transfers[k].target != a)
      && (forall k :: k in r.transfers ==> r.transfers[k] == b.transfers[k])
      && (forall x :: x in r.settlements <==> x in b.settlements && b.settlements[x].account != a)
      && (forall x :: x in r.settlements ==> r.settlements[x] == b.settlements[x])
      && (forall e :: e in r.entries <==>
            e in b.entries && e.account != a && (e.transfer.Some? ==> e.transfer.value in r.transfers))
      && r.transactions == b.transactions && r.holdings == b.holdings
  {
    var r := DeleteAccount(b, a).value;
    var q := Cascade(a, TransfersOf(b.transfers, a), SettledOn(b.settlements, a));
    forall e ensures e in r.entries <==>
      e in b.entries && e.account != a && (e.transfer.Some? ==> e.transfer.value in r.transfers)
    {
      InWithout(b.entries, q, e);
      if e in b.entries {
        assert Placed(b, e);
        if e.transaction.Some? && e.transaction.value in b.settlements { CarriesSettlement(b, e); }
      }
    }
  }

  // ---- manual adjustments ----

  /** An adjustment adds one manual entry and moves its account by it. */
  lemma CreatedAdjustment(b: Books, env: Env, a: int, amount: int, on: int)
    requires Inv(b)
    ensures CreateAdjustment(b, env, a, amount, on).Ok? <==> a in b.accounts && on <= env.today
    ensures CreateAdjustment(b, env, a, amount, on).Ok? ==>
      var r := CreateAdjustment(b, env, a, amount, on).value;
      && |r.entries| == |b.entries| + 1 && r.entries[..|b.entries|] == b.entries
      && r.entries[|b.entries|] == Entry(r.entries[|b.entries|].id, a, ManualAdjustment, amount, b.accounts[a].currency,
                                         on, None, None)
      && r.accounts.Keys == b.accounts.Keys
      && forall c :: c in b.accounts ==>
           r.accounts[c] == b.accounts[c].(balance := b.accounts[c].balance + if c == a then amount else 0)
  {
    if a in b.accounts && on <= env.today {
      var e := Entry(b.next.entry, a, ManualAdjustment, amount, b.accounts[a].currency, on, None, None);
      AppendMovesOneBalance(b.entries, e);
    }
  }

  /** One manual entry is edited and its account moves by the difference. */
  ghost predicate AdjustmentEdited(b: Books, r: Books, i: int, amount: Field<int>, on: Field<int>) {
    && 0 <= i < |b.entries| == |r.entries|
    && Takes(amount, b.entries[i].amount, r.entries[i].amount)
    && Takes(on, b.entries[i].happenedOn, r.entries[i].happenedOn)
    && r.entries[i] == b.entries[i].(amount := r.entries[i].amount, happenedOn := r.entries[i].happenedOn)
    && (forall j :: 0 <= j < |b.entries| && j != i ==> r.entries[j] == b.entries[j])
    && r.accounts.Keys == b.accounts.Keys
    && forall c :: c in b.accounts ==>
         var moved := if c == b.entries[i].account then r.entries[i].amount - b.entries[i].amount else 0;
         r.accounts[c].balance == b.accounts[c].balance + moved
  }

  /** Editing an adjustment rewrites the one entry and moves its account by the difference. */
  lemma UpdatedAdjustment(b: Books, env: Env, id: int, amount: Field<int>, on: Field<int>, note: bool)
    requires Inv(b) && UpdateAdjustment(b, env, id, amount, on, note).Ok?
    ensures exists i :: 0 <= i < |b.entries| && b.entries[i].id == id
              && AdjustmentEdited(b, UpdateAdjustment(b, env, id, amount, on, note).value, i, amount, on)
  {
    FoundAdjustment(b, id);
    var r, e := UpdateAdjustment(b, env, id, amount, on, note).value, FindAdjustment(b, id).value;
    var i :| 0 <= i < |b.entries| && b.entries[i] == e;
    if amount.Unset? && on.Unset? && !note {
      assert AdjustmentEdited(b, r, i, amount, on);
    } else {
      var edited := e.(amount := ValueOr(amount, e.amount), happenedOn := ValueOr(on, e.happenedOn),
                       currency := b.accounts[e.account].currency);
      assert Placed(b, e);
      RewriteAt(b.entries, edited);
      forall c | c in b.accounts ensures Balance(r.entries, c)
                   == Balance(b.entries, c) + (if c == e.account then edited.amount - e.amount else 0)
      {
        BalanceRewrite(b.entries, e, edited, c);
      }
      assert AdjustmentEdited(b, r, i, amount, on);
    }
  }

  /** An entry can be deleted by hand exactly when it is an unlinked adjustment; then it alone goes, and its account
      loses its amount. */
  lemma DeletedAdjustment(b: Books, e: Entry)
    requires Inv(b) && e in b.entries
    ensures DeleteAdjustment(b, e.id).Ok? <==>
      e.kind == ManualAdjustment && e.transaction == None && e.transfer == None
    ensures DeleteAdjustment(b, e.id).Ok? ==>
      var r := DeleteAdjustment(b, e.id).value;
      && (forall x :: x in r.entries <==> x in b.entries && x != e)
      && r.accounts.Keys == b.accounts.Keys
      && forall c :: c in b.accounts ==>
           r.accounts[c] == b.accounts[c].(balance := b.accounts[c].balance - if c == e.account then e.amount else 0)
  {
    SelectById(b.entries, e);
    assert Placed(b, e);
    forall x ensures x in Without(b.entries, OfId(e.id)) <==> x in b.entries && x != e {
      InWithout(b.entries, OfId(e.id), x);
    }
    assert [] + [e] == [e];
    AppendMovesOneBalance([], e);
    forall c ensures Balance(Without(b.entries, OfId(e.id)), c)
                  == Balance(b.entries, c) - (if c == e.account then e.amount else 0)
    {
      BalanceWithout(b.entries, OfId(e.id), c);
    }
  }
}
