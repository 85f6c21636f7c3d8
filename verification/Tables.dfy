/** The cash ledger table: selecting, deleting, rewriting and summing entries. */
module Tables {
  import opened Wrappers
  import opened Trades

  datatype EntryKind =
    | InitialBalance | SellProceeds | BuyFunding | TransferOut | TransferIn | ManualAdjustment

  datatype Entry = Entry(
    id: int, account: int, kind: EntryKind, amount: int, currency: Currency, happenedOn: int,
    transaction: Option<int>, transfer: Option<int>)

  /** The WHERE clauses the services use. */
  datatype Query =
    | OfAccount(account: int)
    | InitialOf(account: int)
    | NonInitialOf(account: int)
    | OfTransfer(transfer: int)
    | OfTransaction(transaction: int)
    | OfId(id: int)
    | OfIds(ids: set<int>)
    | OnDay(day: int)
    | Until(day: int)
    | Links(transfers: set<int>, transactions: set<int>)
    | Cascade(account: int, transfers: set<int>, transactions: set<int>)

  predicate Matches(e: Entry, q: Query) {
    match q
    case OfAccount(a) => e.account == a
    case InitialOf(a) => e.account == a && e.kind.InitialBalance? && e.transaction.None? && e.transfer.None?
    case NonInitialOf(a) => e.account == a && !e.kind.InitialBalance?
    case OfTransfer(t) => e.transfer == Some(t)
    case OfTransaction(x) => e.transaction == Some(x)
    case OfId(id) => e.id == id
    case OfIds(ids) => e.id in ids
    case OnDay(day) => e.happenedOn == day
    case Until(day) => e.happenedOn <= day
    case Links(ts, xs) =>
      || (e.transfer.Some? && e.transfer.value in ts)
      || (e.transaction.Some? && e.transaction.value in xs)
    case Cascade(a, ts, xs) =>
      || e.account == a
      || (e.transfer.Some? && e.transfer.value in ts)
      || (e.transaction.Some? && e.transaction.value in xs)
  }

  function Select(es: seq<Entry>, q: Query): seq<Entry> {
    if es == [] then []
    else if Matches(es[0], q) then [es[0]] + Select(es[1..], q)
    else Select(es[1..], q)
  }

  function Without(es: seq<Entry>, q: Query): seq<Entry> {
    if es == [] then []
    else if Matches(es[0], q) then Without(es[1..], q)
    else [es[0]] + Without(es[1..], q)
  }

  /** The row with the id of e becomes e. */
  function Rewrite(es: seq<Entry>, e: Entry): seq<Entry> {
    if es == [] then []
    else [if es[0].id == e.id then e else es[0]] + Rewrite(es[1..], e)
  }

  function Sum(es: seq<Entry>): int {
    if es == [] then 0 else es[0].amount + Sum(es[1..])
  }

  /** The ledger balance of an account. */
  function Balance(es: seq<Entry>, account: int): int {
    Sum(Select(es, OfAccount(account)))
  }

  /** Ids are handed out in increasing order and rows are appended. */
  predicate IncreasingIds(es: seq<Entry>) {
    forall i, j :: 0 <= i < j < |es| ==> es[i].id < es[j].id
  }

  lemma {:induction false} InSelect(es: seq<Entry>, q: Query, e: Entry)
    ensures e in Select(es, q) <==> e in es && Matches(e, q)
  {
    if es == [] {
    } else {
      InSelect(es[1..], q, e);
      assert es == [es[0]] + es[1..];
    }
  }

  lemma {:induction false} InWithout(es: seq<Entry>, q: Query, e: Entry)
    ensures e in Without(es, q) <==> e in es && !Matches(e, q)
  {
    if es == [] {
    } else {
      InWithout(es[1..], q, e);
      assert es == [es[0]] + es[1..];
    }
  }

  lemma {:induction false} SelectAppend(a: seq<Entry>, b: seq<Entry>, q: Query)
    ensures Select(a + b, q) == Select(a, q) + Select(b, q)
  {
    if a == [] {
      assert a + b == b;
    } else {
      SelectAppend(a[1..], b, q);
      assert (a + b)[1..] == a[1..] + b;
      assert [a[0]] + (Select(a[1..], q) + Select(b, q)) == ([a[0]] + Select(a[1..], q)) + Select(b, q);
    }
  }

  lemma {:induction false} WithoutAppend(a: seq<Entry>, b: seq<Entry>, q: Query)
    ensures Without(a + b, q) == Without(a, q) + Without(b, q)
  {
    if a == [] {
      assert a + b == b;
    } else {
      WithoutAppend(a[1..], b, q);
      assert (a + b)[1..] == a[1..] + b;
      assert [a[0]] + (Without(a[1..], q) + Without(b, q)) == ([a[0]] + Without(a[1..], q)) + Without(b, q);
    }
  }

  lemma {:induction false} SumAppend(a: seq<Entry>, b: seq<Entry>)
    ensures Sum(a + b) == Sum(a) + Sum(b)
  {
    if a == [] {
      assert a + b == b;
    } else {
      SumAppend(a[1..], b);
      assert (a + b)[1..] == a[1..] + b;
    }
  }

  lemma BalanceAppend(a: seq<Entry>, b: seq<Entry>, account: int)
    ensures Balance(a + b, account) == Balance(a, account) + Balance(b, account)
  {
    SelectAppend(a, b, OfAccount(account));
    SumAppend(Select(a, OfAccount(account)), Select(b, OfAccount(account)));
  }

  /** What a deletion removes from each balance. */
  lemma {:induction false} BalanceWithout(es: seq<Entry>, q: Query, account: int)
    ensures Balance(Without(es, q), account) == Balance(es, account) - Balance(Select(es, q), account)
  {
    if es == [] {
    } else {
      BalanceWithout(es[1..], q, account);
      var head := [es[0]];
      assert es == head + es[1..];
      BalanceAppend(head, es[1..], account);
      if Matches(es[0], q) {
        BalanceAppend(head, Select(es[1..], q), account);
      } else {
        BalanceAppend(head, Without(es[1..], q), account);
      }
    }
  }

  lemma BalanceElsewhere(es: seq<Entry>, account: int)
    requires forall e :: e in es ==> e.account != account
    ensures Balance(es, account) == 0
  {
    NothingMatches(es, OfAccount(account));
  }

  /** A deletion leaves alone every selection it does not overlap. */
  lemma {:induction false} SelectAfterWithout(es: seq<Entry>, q: Query, p: Query)
    requires forall e :: e in es ==> !(Matches(e, q) && Matches(e, p))
    ensures Select(Without(es, q), p) == Select(es, p)
  {
    if es == [] {
    } else {
      SelectAfterWithout(es[1..], q, p);
      if !Matches(es[0], q) {
        assert Without(es, q)[1..] == Without(es[1..], q);
      }
    }
  }

  /** ... and empties every selection it covers. */
  lemma {:induction false} SelectGone(es: seq<Entry>, q: Query, p: Query)
    requires forall e :: e in es ==> (Matches(e, p) ==> Matches(e, q))
    ensures Select(Without(es, q), p) == []
  {
    if es == [] {
    } else {
      SelectGone(es[1..], q, p);
      if !Matches(es[0], q) {
        assert Without(es, q)[1..] == Without(es[1..], q);
      }
    }
  }

  lemma {:induction false} NothingMatches(es: seq<Entry>, q: Query)
    requires forall e :: e in es ==> !Matches(e, q)
    ensures Select(es, q) == [] && Without(es, q) == es
  {
    if es == [] {
    } else {
      NothingMatches(es[1..], q);
    }
  }

  lemma {:induction false} EverythingMatches(es: seq<Entry>, q: Query)
    requires forall e :: e in es ==> Matches(e, q)
    ensures Select(es, q) == es && Without(es, q) == []
  {
    if es == [] {
    } else {
      EverythingMatches(es[1..], q);
    }
  }

  /** Deleting twice is deleting by the disjunction. */
  lemma {:induction false} WithoutTwice(es: seq<Entry>, q1: Query, q2: Query, q: Query)
    requires forall e :: e in es ==> (Matches(e, q) <==> Matches(e, q1) || Matches(e, q2))
    ensures Without(Without(es, q1), q2) == Without(es, q)
  {
    if es == [] {
    } else {
      WithoutTwice(es[1..], q1, q2, q);
      if !Matches(es[0], q1) {
        assert Without(es, q1)[1..] == Without(es[1..], q1);
      }
    }
  }

  lemma LinksGrow(es: seq<Entry>, ts: set<int>, xs: set<int>, t: int, x: int)
    ensures Without(Without(es, Links(ts, {})), OfTransfer(t)) == Without(es, Links(ts + {t}, {}))
    ensures Without(Without(es, Links({}, xs)), OfTransaction(x)) == Without(es, Links({}, xs + {x}))
    ensures Without(Without(es, Links(ts, {})), Links({}, xs)) == Without(es, Links(ts, xs))
    ensures Without(es, Links({}, {})) == es
  {
    WithoutTwice(es, Links(ts, {}), OfTransfer(t), Links(ts + {t}, {}));
    WithoutTwice(es, Links({}, xs), OfTransaction(x), Links({}, xs + {x}));
    WithoutTwice(es, Links(ts, {}), Links({}, xs), Links(ts, xs));
    NothingMatches(es, Links({}, {}));
  }

  lemma {:induction false} WithoutKeepsIds(es: seq<Entry>, q: Query)
    requires IncreasingIds(es)
    ensures IncreasingIds(Without(es, q))
  {
    if es == [] {
    } else {
      WithoutKeepsIds(es[1..], q);
      forall i | 0 <= i < |Without(es[1..], q)| ensures es[0].id < Without(es[1..], q)[i].id {
        InWithout(es[1..], q, Without(es[1..], q)[i]);
      }
    }
  }

  /** Under increasing ids a row is found by its id, alone. */
  lemma {:induction false} SelectById(es: seq<Entry>, e: Entry)
    requires IncreasingIds(es) && e in es
    ensures Select(es, OfId(e.id)) == [e]
  {
    if es[0] == e {
      NothingMatches(es[1..], OfId(e.id));
    } else {
      assert e in es[1..];
      SelectById(es[1..], e);
    }
  }

  lemma {:induction false} RewriteElsewhere(es: seq<Entry>, e: Entry)
    requires forall x :: x in es ==> x.id != e.id
    ensures Rewrite(es, e) == es
  {
    if es == [] {
    } else {
      RewriteElsewhere(es[1..], e);
    }
  }

  lemma {:induction false} RewriteKeepsIds(es: seq<Entry>, e: Entry)
    requires IncreasingIds(es)
    ensures |Rewrite(es, e)| == |es| && IncreasingIds(Rewrite(es, e))
    ensures forall i :: 0 <= i < |es| ==> Rewrite(es, e)[i] == if es[i].id == e.id then e else es[i]
  {
    if es == [] {
    } else {
      RewriteKeepsIds(es[1..], e);
    }
  }

  /** Rewriting a row of an account moves the account's balance by the change of amount. */
  lemma {:induction false} BalanceRewrite(es: seq<Entry>, from: Entry, to: Entry, account: int)
    requires IncreasingIds(es) && from in es && to.id == from.id && to.account == from.account
    ensures Balance(Rewrite(es, to), account)
         == Balance(es, account) + (if account == to.account then to.amount - from.amount else 0)
  {
    var rest := es[1..];
    assert es == [es[0]] + rest;
    BalanceAppend([es[0]], rest, account);
    if es[0].id == from.id {
      assert es[0] == from;
      RewriteElsewhere(rest, to);
      BalanceAppend([to], rest, account);
    } else {
      BalanceRewrite(rest, from, to, account);
      BalanceAppend([es[0]], Rewrite(rest, to), account);
    }
  }

  /** Rewriting a row that a selection neither had nor gains leaves the selection alone, and one
      that it had and keeps leaves its length alone. */
  lemma {:induction false} SelectRewrite(es: seq<Entry>, from: Entry, to: Entry, q: Query)
    requires IncreasingIds(es) && from in es && to.id == from.id
    requires Matches(from, q) <==> Matches(to, q)
    ensures |Select(Rewrite(es, to), q)| == |Select(es, q)|
    ensures !Matches(to, q) ==> Select(Rewrite(es, to), q) == Select(es, q)
  {
    var rest := es[1..];
    assert Rewrite(es, to)[1..] == Rewrite(rest, to);
    if es[0].id == from.id {
      assert es[0] == from;
      RewriteElsewhere(rest, to);
    } else {
      SelectRewrite(rest, from, to, q);
    }
  }
}
