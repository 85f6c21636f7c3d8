/** The cash requests, step by step on a session: accounts, manual adjustments, transfers. */
module CashAccounts {
  import opened Fixed
  import opened Wrappers
  import opened Trades
  import opened Tables
  import opened Bookkeeping
  import opened LedgerInvariant
  import opened CashLedger

  // ---- accounts ----

  method CreateAccountRequest(s: Session, env: Env, form: AccountForm) returns (failure: Option<Failure>)
    requires s.Ready()
    modifies s
    ensures Outcome(old(s.committed), s.committed, CreateAccount(old(s.committed), env, form), failure)
  {
    var a := s.next.account;
    s.accounts := s.accounts[a := NewAccountRow(env, form)];
    s.next := s.next.(account := a + 1);
    ReconcileOpening(s, a, form.balance);
    s.Commit();
    return None;
  }

  method UpdateAccountRequest(s: Session, a: int, form: AccountForm) returns (failure: Option<Failure>)
    requires s.Ready()
    modifies s
    ensures Outcome(old(s.committed), s.committed, UpdateAccount(old(s.committed), a, form), failure)
  {
    if a !in s.accounts {
      return Some(NotFound);
    }
    if Select(s.entries, NonInitialOf(a)) != [] && form.currency != s.accounts[a].currency {
      return Some(Conflict);
    }
    s.accounts := s.accounts[a := EditedAccount(s.accounts[a], form)];
    ReconcileOpening(s, a, form.balance);
    s.Commit();
    return None;
  }

  /** The two ends of these transfers are the account itself or one of the others. */
  ghost predicate Covers(transfers: map<int, Transfer>, ts: set<int>, a: int, others: set<int>) {
    forall t :: t in ts && t in transfers ==>
      && (transfers[t].source == a || transfers[t].source in others)
      && (transfers[t].target == a || transfers[t].target in others)
  }

  /** Deletes an account's transfers with their legs; returns the accounts at the other ends. */
  method DeleteRelatedTransfers(s: Session, a: int) returns (others: set<int>)
    requires IncreasingIds(s.entries)
    modifies s`entries, s`transfers
    ensures s.entries == Without(old(s.entries), Links(TransfersOf(old(s.transfers), a), {}))
    ensures s.transfers == old(s.transfers) - TransfersOf(old(s.transfers), a)
    ensures IncreasingIds(s.entries)
    ensures Covers(old(s.transfers), TransfersOf(old(s.transfers), a), a, others)
  {
    ghost var es, transfers := s.entries, s.transfers;
    var pending := TransfersOf(s.transfers, a);
    ghost var done := {};
    others := {};
    LinksGrow(es, {}, {}, 0, 0);
    while pending != {}
      invariant done + pending == TransfersOf(transfers, a) && done !! pending
      invariant s.entries == Without(es, Links(done, {})) && IncreasingIds(s.entries)
      invariant s.transfers == transfers - done
      invariant Covers(transfers, done, a, others)
      decreases pending
    {
      ghost var member := Member(pending);
      var t :| t in pending;
      var transfer := s.transfers[t];
      if transfer.source != a { others := others + {transfer.source}; }
      if transfer.target != a { others := others + {transfer.target}; }
      LinksGrow(es, done, {}, t, 0);
      DeleteSelected(s, OfTransfer(t));
      s.transfers := s.transfers - {t};
      done, pending := done + {t}, pending - {t};
    }
  }

  /** Deletes the settlements on an account with their entries. */
  method DeleteRelatedSettlements(s: Session, a: int)
    requires IncreasingIds(s.entries)
    modifies s`entries, s`settlements
    ensures s.entries == Without(old(s.entries), Links({}, SettledOn(old(s.settlements), a)))
    ensures s.settlements == old(s.settlements) - SettledOn(old(s.settlements), a)
    ensures IncreasingIds(s.entries)
  {
    ghost var es, settlements := s.entries, s.settlements;
    var pending := SettledOn(s.settlements, a);
    ghost var done := {};
    LinksGrow(es, {}, {}, 0, 0);
    while pending != {}
      invariant done + pending == SettledOn(settlements, a) && done !! pending
      invariant s.entries == Without(es, Links({}, done)) && IncreasingIds(s.entries)
      invariant s.settlements == settlements - done
      decreases pending
    {
      ghost var member := Member(pending);
      var x :| x in pending;
      LinksGrow(es, {}, done, 0, x);
      DeleteSelected(s, OfTransaction(x));
      s.settlements := s.settlements - {x};
      done, pending := done + {x}, pending - {x};
    }
  }

  function SyncedRow(account: Account, synced: bool, balance: int): Account {
    if synced then account.(balance := balance) else account
  }

  /** Recomputes the balances of the given accounts. */
  method SyncAll(s: Session, ids: set<int>)
    modifies s`accounts
    ensures s.accounts.Keys == old(s.accounts).Keys
    ensures forall c :: c in s.accounts ==>
              s.accounts[c] == SyncedRow(old(s.accounts)[c], c in ids, Balance(s.entries, c))
  {
    ghost var was := s.accounts;
    var pending := ids;
    while pending != {}
      invariant pending <= ids
      invariant s.accounts.Keys == was.Keys
      invariant forall c :: c in s.accounts ==>
                  s.accounts[c] == SyncedRow(was[c], c in ids - pending, Balance(s.entries, c))
      decreases pending
    {
      ghost var member := Member(pending);
      var c :| c in pending;
      if c in s.accounts {
        SyncBalance(s, c);
      }
      pending := pending - {c};
    }
  }

  /** Only the accounts at the other ends see their balance move when an account is deleted. */
  lemma CascadeTouches(b: Books, a: int, others: set<int>, c: int)
    requires Inv(b) && Covers(b.transfers, TransfersOf(b.transfers, a), a, others) && c != a && c !in others
    ensures Balance(Without(b.entries, Cascade(a, TransfersOf(b.transfers, a), SettledOn(b.settlements, a))), c)
         == Balance(b.entries, c)
  {
    var (ts, xs) := (TransfersOf(b.transfers, a), SettledOn(b.settlements, a));
    forall e | e in b.entries && Matches(e, Cascade(a, ts, xs)) ensures e.account != c {
      if e.transfer.Some? && e.transfer.value in ts {
        CarriesTransfer(b, e);
        var t := e.transfer.value;
        assert b.transfers[t].source == a || b.transfers[t].source in others;
        assert b.transfers[t].target == a || b.transfers[t].target in others;
      } else if e.transaction.Some? && e.transaction.value in xs {
        CarriesSettlement(b, e);
      }
    }
    SelectAfterWithout(b.entries, Cascade(a, ts, xs), OfAccount(c));
  }

  /** So recomputing them alone gives the specified books. */
  /** A remaining account has the sum of its remaining entries, whether it was synced or not. */
  lemma CascadeSyncs(b: Books, a: int, others: set<int>, linked: seq<Entry>, row: Account, c: int)
    requires Inv(b) && c in b.accounts && c != a && Covers(b.transfers, TransfersOf(b.transfers, a), a, others)
    requires linked == Without(b.entries, Links(TransfersOf(b.transfers, a), SettledOn(b.settlements, a)))
    requires row == SyncedRow(b.accounts[c], c in others, Balance(linked, c))
    ensures row.balance == Balance(Without(linked, OfAccount(a)), c)
  {
    var (ts, xs) := (TransfersOf(b.transfers, a), SettledOn(b.settlements, a));
    if c in others {
      SelectAfterWithout(linked, OfAccount(a), OfAccount(c));
    } else {
      WithoutTwice(b.entries, Links(ts, xs), OfAccount(a), Cascade(a, ts, xs));
      CascadeTouches(b, a, others, c);
    }
  }

  lemma CascadeMeets(b: Books, a: int, others: set<int>, linked: seq<Entry>, r: Books)
    requires Inv(b) && a in b.accounts && Covers(b.transfers, TransfersOf(b.transfers, a), a, others)
    requires linked == Without(b.entries, Links(TransfersOf(b.transfers, a), SettledOn(b.settlements, a)))
    requires r == b.(accounts := r.accounts, entries := Without(linked, OfAccount(a)),
                     transfers := b.transfers - TransfersOf(b.transfers, a),
                     settlements := b.settlements - SettledOn(b.settlements, a))
    requires r.accounts.Keys == b.accounts.Keys - {a}
    requires forall c :: c in r.accounts ==>
               r.accounts[c] == SyncedRow(b.accounts[c], c in others, Balance(linked, c))
    ensures DeleteAccount(b, a) == Ok(r)
  {
    var (ts, xs) := (TransfersOf(b.transfers, a), SettledOn(b.settlements, a));
    WithoutTwice(b.entries, Links(ts, xs), OfAccount(a), Cascade(a, ts, xs));
    forall c | c in r.accounts ensures r.accounts[c].balance == Balance(r.entries, c) {
      CascadeSyncs(b, a, others, linked, r.accounts[c], c);
    }
    RebalanceMeets(b.(accounts := b.accounts - {a}, entries := r.entries,
                      transfers := b.transfers - ts, settlements := b.settlements - xs), r);
  }

  method DeleteAccountRequest(s: Session, a: int) returns (failure: Option<Failure>)
    requires s.Ready()
    modifies s
    ensures Outcome(old(s.committed), s.committed, DeleteAccount(old(s.committed), a), failure)
  {
    ghost var b := s.Rows();
    if a !in s.accounts {
      return Some(NotFound);
    }
    LinksGrow(b.entries, TransfersOf(s.transfers, a), SettledOn(s.settlements, a), 0, 0);
    var others := DeleteRelatedTransfers(s, a);
    DeleteRelatedSettlements(s, a);
    SyncAll(s, others);
    ghost var linked := s.entries;
    DeleteSelected(s, OfAccount(a));
    s.accounts := s.accounts - {a};
    CascadeMeets(b, a, others, linked, s.Rows());
    s.Commit();
    return None;
  }

  // ---- manual adjustments ----

  method CreateAdjustmentRequest(s: Session, env: Env, a: int, amount: int, on: int)
    returns (failure: Option<Failure>)
    requires s.Ready()
    modifies s
    ensures Outcome(old(s.committed), s.committed, CreateAdjustment(old(s.committed), env, a, amount, on), failure)
  {
    ghost var b := s.Rows();
    if a !in s.accounts {
      return Some(NotFound);
    }
    if on > env.today {
      return Some(Unprocessable);
    }
    CreateEntry(s, a, ManualAdjustment, amount, s.accounts[a].currency, on, None, None);
    AppendMovesOneBalance(b.entries, s.entries[|b.entries|]);
    SyncBalance(s, a);
    RebalanceMeets(b.(entries := s.entries, next := s.next), s.Rows());
    s.Commit();
    return None;
  }

  method UpdateAdjustmentRequest(s: Session, env: Env, id: int, amount: Field<int>, on: Field<int>, note: bool)
    returns (failure: Option<Failure>)
    requires s.Ready()
    modifies s
    ensures Outcome(old(s.committed), s.committed,
                    UpdateAdjustment(old(s.committed), env, id, amount, on, note), failure)
  {
    ghost var b := s.Rows();
    var found := FindManual(s, id);
    if found.Err? {
      return Some(found.error);
    }
    if amount.Unset? && on.Unset? && !note {
      return None;
    }
    FoundAdjustment(b, id);
    var e := found.value;
    var edited := e;
    if amount.Given? && amount.value.Some? {
      edited := edited.(amount := amount.value.value);
    }
    if on.Given? && on.value.Some? {
      if on.value.value > env.today {
        return Some(Unprocessable);
      }
      edited := edited.(happenedOn := on.value.value);
    }
    edited := edited.(currency := s.accounts[e.account].currency);
    s.entries := Rewrite(s.entries, edited);
    forall c
      ensures Balance(s.entries, c) == Balance(b.entries, c) + (if c == e.account then edited.amount - e.amount else 0)
    {
      BalanceRewrite(b.entries, e, edited, c);
    }
    SyncBalance(s, e.account);
    RebalanceMeets(b.(entries := s.entries), s.Rows());
    s.Commit();
    return None;
  }

  method FindManual(s: Session, id: int) returns (found: Result<Entry, Failure>)
    ensures found == FindAdjustment(s.Rows(), id)
  {
    var rows := Select(s.entries, OfId(id));
    if rows == [] {
      return Err(NotFound);
    }
    var e := rows[0];
    if !e.kind.ManualAdjustment? {
      return Err(Unprocessable);
    }
    if e.transaction.Some? || e.transfer.Some? {
      return Err(Unprocessable);
    }
    if e.account !in s.accounts {
      return Err(NotFound);
    }
    return Ok(e);
  }

  method DeleteAdjustmentRequest(s: Session, id: int) returns (failure: Option<Failure>)
    requires s.Ready()
    modifies s
    ensures Outcome(old(s.committed), s.committed, DeleteAdjustment(old(s.committed), id), failure)
  {
    ghost var b := s.Rows();
    var found := FindManual(s, id);
    if found.Err? {
      return Some(found.error);
    }
    FoundAdjustment(b, id);
    SelectById(b.entries, found.value);
    DeleteSelected(s, OfId(id));
    forall c | c in s.accounts && c != found.value.account ensures Balance(s.entries, c) == Balance(b.entries, c) {
      BalanceWithout(b.entries, OfId(id), c);
      BalanceElsewhere([found.value], c);
    }
    SyncBalance(s, found.value.account);
    RebalanceMeets(b.(entries := s.entries), s.Rows());
    s.Commit();
    return None;
  }

  // ---- transfers ----

  /** How far a transfer's target amount can be from amount times rate, in units of 1e-16: half a unit of rounding,
      and one more for what the user may enter. */
  predicate NearRate(env: Env, amount: int, source: Currency, target: Currency, resolved: int) {
    source == target || ((source, target) in env.rates
      && 2 * Abs(resolved * SCALE - amount * env.rates[(source, target)]) <= 3 * SCALE)
  }

  lemma WorthIsNearRate(env: Env, amount: int, source: Currency, target: Currency, worth: int, resolved: int)
    requires IsWorth(env, amount, source, target, worth) && Abs(resolved - worth) <= EPSILON
    ensures NearRate(env, amount, source, target, resolved)
  {
    DifferenceOfMultiples(resolved, worth, SCALE);
  }

  /** Takes what is given if it is within one unit of the amount's worth, and the worth itself if nothing is given;
      fails exactly when the worth is unknown or farther off. */
  method ResolveTargetAmount(env: Env, amount: int, source: Currency, target: Currency, given: Option<int>)
    returns (resolved: Result<int, Failure>)
    ensures resolved.Ok? <==> exists worth ::
              IsWorth(env, amount, source, target, worth) && (given.Some? ==> Abs(given.value - worth) <= EPSILON)
    ensures resolved.Ok? ==> NearRate(env, amount, source, target, resolved.value)
    ensures resolved.Ok? && given.Some? ==> resolved.value == given.value
    ensures resolved.Ok? && given.None? ==> IsWorth(env, amount, source, target, resolved.value)
    ensures resolved.Err? ==> resolved.error == Unprocessable
  {
    ConvertedIsWorth(env, amount, source, target);
    var converted := Convert(env, amount, source, target);
    if converted.Err? {
      return Err(converted.error);
    }
    assert IsWorth(env, amount, source, target, converted.value);
    if given.None? {
      WorthIsNearRate(env, amount, source, target, converted.value, converted.value);
      return Ok(converted.value);
    }
    if Abs(given.value - converted.value) > EPSILON {
      return Err(Unprocessable);
    }
    WorthIsNearRate(env, amount, source, target, converted.value, given.value);
    return Ok(given.value);
  }

  /** Writes the two legs of a transfer and recomputes its two balances. */
  method WriteLegs(s: Session, id: int, t: Transfer)
    requires Balanced(s.Rows()) && t.source in s.accounts && t.target in s.accounts
    requires id in s.transfers && s.transfers[id] == t
    requires t.sourceCurrency == s.accounts[t.source].currency && t.targetCurrency == s.accounts[t.target].currency
    modifies s`accounts, s`entries, s`next
    ensures s.Rows() == PlaceTransfer(old(s.Rows()), id, t)
  {
    ghost var b := s.Rows();
    CreateEntry(s, t.source, TransferOut, -t.sourceAmount, s.accounts[t.source].currency, t.on, None, Some(id));
    AppendMovesOneBalance(b.entries, s.entries[|b.entries|]);
    ghost var first := s.entries;
    CreateEntry(s, t.target, TransferIn, t.targetAmount, s.accounts[t.target].currency, t.on, None, Some(id));
    AppendMovesOneBalance(first, s.entries[|first|]);
    SyncBalance(s, t.source);
    SyncBalance(s, t.target);
    assert s.entries == b.entries + Legs(id, t, b.next.entry);
    assert b.transfers[id := t] == b.transfers;
    RebalanceMeets(b.(entries := s.entries, next := s.next), s.Rows());
  }

  method CreateTransferRequest(s: Session, env: Env, form: TransferForm) returns (failure: Option<Failure>)
    requires s.Ready()
    modifies s
    ensures Outcome(old(s.committed), s.committed, CreateTransfer(old(s.committed), env, form), failure)
  {
    ghost var b := s.Rows();
    if form.on > env.today {
      return Some(Unprocessable);
    }
    if form.source !in s.accounts || form.target !in s.accounts {
      return Some(NotFound);
    }
    if form.source == form.target || s.accounts[form.target].currency != CNY {
      return Some(Unprocessable);
    }
    var source, target := s.accounts[form.source], s.accounts[form.target];
    if source.balance + EPSILON < form.sourceAmount {
      return Some(Unprocessable);
    }
    ConvertedIsWorth(env, form.sourceAmount, source.currency, target.currency);
    var amount := ResolveTargetAmount(env, form.sourceAmount, source.currency, target.currency, form.targetAmount);
    if amount.Err? {
      return Some(amount.error);
    }
    var id := s.next.transfer;
    var t := Transfer(form.source, form.target, form.sourceAmount, amount.value,
                      source.currency, target.currency, form.on);
    s.transfers := s.transfers[id := t];
    s.next := s.next.(transfer := id + 1);
    WriteLegs(s, id, t);
    s.Commit();
    return None;
  }

  /** Lifting the legs of a transfer and recomputing its two accounts is enough. */
  method DeleteLegs(s: Session, id: int)
    requires Inv(s.Rows()) && id in s.transfers
    modifies s`accounts, s`entries
    ensures s.Rows() == LiftTransfer(old(s.Rows()), id)
  {
    ghost var b := s.Rows();
    TransferAccountsExist(b, id);
    DeleteSelected(s, OfTransfer(id));
    forall c | c in s.accounts && c != s.transfers[id].source && c != s.transfers[id].target
      ensures Balance(s.entries, c) == Balance(b.entries, c)
    {
      forall e | e in b.entries && Matches(e, OfTransfer(id)) ensures e.account != c { CarriesTransfer(b, e); }
      SelectAfterWithout(b.entries, OfTransfer(id), OfAccount(c));
    }
    SyncBalance(s, s.transfers[id].source);
    SyncBalance(s, s.transfers[id].target);
    RebalanceMeets(b.(entries := s.entries), s.Rows());
  }

  method DeleteTransferRequest(s: Session, id: int) returns (failure: Option<Failure>)
    requires s.Ready()
    modifies s
    ensures Outcome(old(s.committed), s.committed, DeleteTransfer(old(s.committed), id), failure)
  {
    if id !in s.transfers {
      return Some(NotFound);
    }
    DeleteLegs(s, id);
    s.transfers := s.transfers - {id};
    s.Commit();
    return None;
  }

  method UpdateTransferRequest(s: Session, env: Env, id: int, patch: TransferPatch)
    returns (failure: Option<Failure>)
    requires s.Ready()
    modifies s
    ensures Outcome(old(s.committed), s.committed, UpdateTransfer(old(s.committed), env, id, patch), failure)
  {
    ghost var b := s.Rows();
    if id !in s.transfers {
      return Some(NotFound);
    }
    var was := s.transfers[id];
    TransferAccountsExist(b, id);
    if EmptyPatch(patch) {
      return None;
    }
    DeleteLegs(s, id);
    ghost var lifted := s.Rows();
    var form := Merged(was, patch);
    if form.source == form.target {
      return Some(Unprocessable);
    }
    if form.source !in s.accounts || form.target !in s.accounts {
      return Some(NotFound);
    }
    if s.accounts[form.target].currency != CNY || form.on > env.today {
      return Some(Unprocessable);
    }
    var source, target := s.accounts[form.source], s.accounts[form.target];
    if source.balance + EPSILON < form.sourceAmount {
      return Some(Unprocessable);
    }
    ConvertedIsWorth(env, form.sourceAmount, source.currency, target.currency);
    var amount := ResolveTargetAmount(env, form.sourceAmount, source.currency, target.currency, form.targetAmount);
    if amount.Err? {
      return Some(amount.error);
    }
    var t := Transfer(form.source, form.target, form.sourceAmount, amount.value,
                      source.currency, target.currency, form.on);
    s.transfers := s.transfers[id := t];
    WriteLegs(s, id, t);
    assert s.Rows() == PlaceTransfer(lifted, id, t);
    s.Commit();
    return None;
  }
}
