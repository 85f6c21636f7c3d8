/** A database session over one user's rows, and the cash ledger operations on it. */
module CashLedger {
  import opened Wrappers
  import opened Trades
  import opened Tables
  import opened Bookkeeping
  import opened LedgerInvariant

  /** The working rows of a request.  Nothing is committed until Commit: a request that fails
      closes its session, and the committed books stay as they were. */
  class Session {
    var committed: Books
    var accounts: map<int, Account>
    var entries: seq<Entry>
    var transfers: map<int, Transfer>
    var settlements: map<int, Settlement>
    var transactions: seq<Transaction>
    var holdings: map<int, Holding>
    var next: Next

    ghost function Rows(): Books
      reads this
    {
      Books(accounts, entries, transfers, settlements, transactions, holdings, next)
    }

    /** A freshly opened session on consistent books. */
    ghost predicate Ready()
      reads this
    {
      Rows() == committed && Inv(committed)
    }

    constructor (db: Books)
      ensures Rows() == committed == db
    {
      committed := db;
      accounts, entries, transfers := db.accounts, db.entries, db.transfers;
      settlements, transactions := db.settlements, db.transactions;
      holdings, next := db.holdings, db.next;
    }

    method Commit()
      modifies this
      ensures committed == Rows() == old(Rows())
    {
      committed := Books(accounts, entries, transfers, settlements, transactions, holdings, next);
    }
  }

  /** What every request promises: on success the committed books are the specified ones, and on
      failure they are untouched. */
  ghost predicate Outcome(was: Books, now: Books, spec: Result<Books, Failure>, failure: Option<Failure>) {
    match spec
    case Ok(b) => failure == None && now == b
    case Err(f) => failure == Some(f) && now == was
  }

  /** Books whose balances are right are the rebalanced form of any books that differ from them in
      balances only. */
  lemma RebalanceMeets(x: Books, r: Books)
    requires Balanced(r) && r == x.(accounts := r.accounts) && r.accounts.Keys == x.accounts.Keys
    requires forall a :: a in r.accounts ==> r.accounts[a] == x.accounts[a].(balance := r.accounts[a].balance)
    ensures r == Rebalance(x)
  {
    assert r.accounts == Rebalance(x).accounts;
  }

  method SumLedger(s: Session, a: int, exclude: Option<int>) returns (total: int)
    ensures exclude.None? ==> total == Balance(s.entries, a)
    ensures exclude.Some? ==>
              total == Balance(s.entries, a) - Balance(Select(s.entries, OfId(exclude.value)), a)
  {
    total := 0;
    assert s.entries[..0] == [];
    for i := 0 to |s.entries|
      invariant exclude.None? ==> total == Balance(s.entries[..i], a)
      invariant exclude.Some? ==>
                  total == Balance(s.entries[..i], a) - Balance(Select(s.entries[..i], OfId(exclude.value)), a)
    {
      var e := s.entries[i];
      assert s.entries[..i + 1] == s.entries[..i] + [e];
      AppendMovesOneBalance(s.entries[..i], e);
      if exclude.Some? {
        AppendOne(s.entries[..i], e);
        AppendMovesOneBalance(Select(s.entries[..i], OfId(exclude.value)), e);
      }
      if e.account == a && exclude != Some(e.id) {
        total := total + e.amount;
      }
    }
    assert s.entries[..|s.entries|] == s.entries;
  }

  /** Recomputes one account's cached balance. */
  method SyncBalance(s: Session, a: int)
    requires a in s.accounts
    modifies s`accounts
    ensures s.accounts == old(s.accounts)[a := old(s.accounts)[a].(balance := Balance(s.entries, a))]
  {
    var total := SumLedger(s, a, None);
    s.accounts := s.accounts[a := s.accounts[a].(balance := total)];
  }

  method CreateEntry(s: Session, a: int, kind: EntryKind, amount: int, currency: Currency, on: int,
                     transaction: Option<int>, transfer: Option<int>)
    modifies s`entries, s`next
    ensures s.entries
         == old(s.entries) + [Entry(old(s.next).entry, a, kind, amount, currency, on, transaction, transfer)]
    ensures s.next == old(s.next).(entry := old(s.next).entry + 1)
  {
    s.entries := s.entries + [Entry(s.next.entry, a, kind, amount, currency, on, transaction, transfer)];
    s.next := s.next.(entry := s.next.entry + 1);
  }

  /** Selects entries and deletes them one by one. */
  method DeleteSelected(s: Session, q: Query)
    requires IncreasingIds(s.entries)
    modifies s`entries
    ensures s.entries == Without(old(s.entries), q)
    ensures IncreasingIds(s.entries)
  {
    ghost var was := s.entries;
    var selected := Select(s.entries, q);
    var ids := {};
    NothingMatches(was, OfIds({}));
    for i := 0 to |selected|
      invariant ids == set j | 0 <= j < i :: selected[j].id
      invariant s.entries == Without(was, OfIds(ids))
    {
      WithoutTwice(was, OfIds(ids), OfId(selected[i].id), OfIds(ids + {selected[i].id}));
      s.entries := Without(s.entries, OfId(selected[i].id));
      ids := ids + {selected[i].id};
    }
    forall e | e in was ensures Matches(e, OfIds(ids)) <==> Matches(e, q) {
      InSelect(was, q, e);
      if e.id in ids {
        var j :| 0 <= j < |selected| && selected[j].id == e.id;
        InSelect(was, q, selected[j]);
        assert selected[j] == e;
      }
    }
    SameWithout(was, OfIds(ids), q);
    WithoutKeepsIds(was, q);
  }

  lemma {:induction false} SameWithout(es: seq<Entry>, p: Query, q: Query)
    requires forall e :: e in es ==> (Matches(e, p) <==> Matches(e, q))
    ensures Without(es, p) == Without(es, q)
  {
    if es == [] {
    } else {
      SameWithout(es[1..], p, q);
    }
  }

  /** Writes the opening entry that makes the entries of an account sum to the target. */
  method PutOpening(s: Session, a: int, target: int)
    requires a in s.accounts && IncreasingIds(s.entries)
    modifies s`entries, s`next
    ensures s.Rows() == WithOpening(old(s.Rows()), a, target)
  {
    var initials := Select(s.entries, InitialOf(a));
    var account := s.accounts[a];
    if initials == [] {
      var others := SumLedger(s, a, None);
      CreateEntry(s, a, InitialBalance, target - others, account.currency, OpeningDay(account), None, None);
    } else {
      var opening := initials[0];
      InSelect(s.entries, InitialOf(a), opening);
      SelectById(s.entries, opening);
      assert Select([opening], OfAccount(a)) == [opening] && Sum([opening]) == opening.amount;
      var others := SumLedger(s, a, Some(opening.id));
      s.entries := Rewrite(s.entries, OpeningEntry(opening.id, a, account, target - others));
    }
  }

  /** Moves the opening entry of an account so that the account's balance becomes the target. */
  method ReconcileOpening(s: Session, a: int, target: int)
    requires a in s.accounts && IncreasingIds(s.entries)
    requires forall c :: c in s.accounts && c != a ==> s.accounts[c].balance == Balance(s.entries, c)
    modifies s`accounts, s`entries, s`next
    ensures s.Rows() == Reconcile(old(s.Rows()), a, target)
  {
    ghost var b := s.Rows();
    PutOpening(s, a, target);
    OpeningMovesOneBalance(b, a, target);
    SyncBalance(s, a);
    RebalanceMeets(WithOpening(b, a, target), s.Rows());
  }
}
