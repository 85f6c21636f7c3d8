/** Rebuilding the portfolio curve from the rows of a session, opening BUYs first. */
module Rebuild {
  import opened Wrappers
  import opened Trades
  import opened Lots
  import opened Bookkeeping
  import opened Runs
  import opened CashLedger
  import opened TradeDesk
  import opened Projection
  import opened PortfolioHistory
  import opened PortfolioCurve
  import opened LiveState

  /** The rows of the holdings query: each once, those of one security in id order.  How securities are ordered is up
      to the database. */
  predicate Queried(rows: seq<int>, holdings: map<int, Holding>) {
    && (forall i :: 0 <= i < |rows| ==> rows[i] in holdings)
    && (forall h :: h in holdings ==> h in rows)
    && (forall i, j :: 0 <= i < j < |rows| && holdings[rows[i]].key == holdings[rows[j]].key ==> rows[i] < rows[j])
  }

  function KeysOf(rows: seq<int>, holdings: map<int, Holding>): seq<Key>
    requires forall i :: 0 <= i < |rows| ==> rows[i] in holdings
  {
    seq(|rows|, i requires 0 <= i < |rows| => holdings[rows[i]].key)
  }

  lemma {:induction false} LoggedKeys(log: seq<Transaction>, key: Key)
    ensures (exists t :: t in log && t.key == key) <==> LogOf(log, key) != []
  {
    if log == [] {
    } else {
      LoggedKeys(log[1..], key);
      assert log == [log[0]] + log[1..];
    }
  }

  /** The securities that have a log. */
  ghost predicate HaveLogs(existing: set<Key>, log: seq<Transaction>) {
    forall key :: key in existing <==> LogOf(log, key) != []
  }

  method ExistingLogs(log: seq<Transaction>) returns (existing: set<Key>)
    ensures HaveLogs(existing, log)
  {
    existing := set t | t in log :: t.key;
    forall key ensures key in existing <==> LogOf(log, key) != [] { LoggedKeys(log, key); }
  }

  /** One row of the query. */
  method BackfillOne(s: Session, env: Env, rows: seq<int>, i: nat, existing: set<Key>) returns (more: set<Key>)
    requires Queried(rows, s.holdings) && i < |rows| && HaveLogs(existing, s.transactions)
    requires forall j :: 0 <= j < i ==> KeysOf(rows, s.holdings)[j] in existing
    modifies s`transactions, s`next
    ensures s.Rows() == EnsureBaseline(old(s.Rows()), env, KeysOf(rows, s.holdings)[i])
    ensures HaveLogs(more, s.transactions) && more == existing + {KeysOf(rows, s.holdings)[i]}
  {
    var row := s.holdings[rows[i]];
    more := existing;
    if row.key !in existing {
      var t := BaselineOf(s.next.transaction, row, env.now);
      FirstRowIsLeast(s.Rows(), rows, KeysOf(rows, s.holdings), i, existing);
      HaveOneMoreLog(existing, s.transactions, t);
      AddTransaction(s, t);
      more := existing + {row.key};
    }
  }

  /** Each holding of a security without a log gets its opening BUY; the first row of the security decides. */
  method BackfillLogs(s: Session, env: Env, rows: seq<int>)
    requires Queried(rows, s.holdings)
    modifies s`transactions, s`next
    ensures s.Rows() == Backfilled(old(s.Rows()), env, KeysOf(rows, old(s.holdings)))
    ensures forall h :: h in s.holdings ==> LogOf(s.transactions, s.holdings[h].key) != []
  {
    ghost var b, keys := s.Rows(), KeysOf(rows, s.holdings);
    var existing := ExistingLogs(s.transactions);
    assert keys[..0] == [];
    for i := 0 to |rows|
      invariant s.Rows() == Backfilled(b, env, keys[..i]) && HaveLogs(existing, s.transactions)
      invariant forall j :: 0 <= j < i ==> keys[j] in existing
    {
      assert keys[..i + 1][..i] == keys[..i];
      existing := BackfillOne(s, env, rows, i, existing);
    }
    assert keys[..|rows|] == keys;
    forall h | h in s.holdings ensures LogOf(s.transactions, s.holdings[h].key) != [] {
      var j :| 0 <= j < |rows| && rows[j] == h;
      assert keys[j] == s.holdings[h].key;
    }
  }

  lemma HaveOneMoreLog(existing: set<Key>, log: seq<Transaction>, t: Transaction)
    requires HaveLogs(existing, log)
    ensures HaveLogs(existing + {t.key}, log + [t])
  {
    forall key ensures key in existing + {t.key} <==> LogOf(log + [t], key) != [] { LogOfAppend(log, t, key); }
  }

  lemma FirstRowIsLeast(b: Books, rows: seq<int>, keys: seq<Key>, i: nat, existing: set<Key>)
    requires Queried(rows, b.holdings) && keys == KeysOf(rows, b.holdings) && i < |rows|
    requires keys[i] !in existing && forall j :: 0 <= j < i ==> keys[j] in existing
    ensures RowsOf(b, keys[i]) != {} && Least(RowsOf(b, keys[i])) == rows[i]
  {
    assert rows[i] in RowsOf(b, keys[i]);
    forall h | h in RowsOf(b, keys[i]) ensures rows[i] <= h {
      var j :| 0 <= j < |rows| && rows[j] == h;
      assert keys[j] == keys[i];
    }
  }

  /** What the rebuild reads of a session's rows; the rest is given. */
  function SourceOf(b: Books, market: Source): Source {
    market.(accounts := map a | a in b.accounts :: b.accounts[a].currency, entries := b.entries, log := b.transactions)
  }

  /** The curve of the backfilled rows equals its direct definition at every hour; it is refused exactly when one of
      those logs oversells. */
  method RebuildPortfolio(s: Session, env: Env, rows: seq<int>, market: Source)
    returns (curve: Result<seq<Row>, Rejection>)
    requires Queried(rows, s.holdings)
    modifies s`transactions, s`next
    ensures s.Rows() == Backfilled(old(s.Rows()), env, KeysOf(rows, old(s.holdings)))
    ensures var src := SourceOf(s.Rows(), market);
      && (curve.Ok? ==> IsCurve(src, curve.value))
      && (curve.Err? ==> !Replayable(src))
      && (FirstHour(src) <= market.now ==> (curve.Ok? <==> Replayable(src)))
  {
    BackfillLogs(s, env, rows);
    var currencies := map a | a in s.accounts :: s.accounts[a].currency;
    curve := RebuildCurve(market.(accounts := currencies, entries := s.entries, log := s.transactions));
  }

  /** From every reachable state the rebuild reads logs that replay: it is never refused, its last states are the
      projections, and every holding has a log. */
  lemma RebuildEndsLive(history: History, env: Env, rows: seq<int>, market: Source)
    requires ClockRuns(history) && (history != [] ==> history[|history| - 1].0.today <= env.today)
    requires env.today <= ServerDay(market.now) && Queried(rows, Run(history).holdings)
    ensures var b := Run(history);
      var r := Backfilled(b, env, KeysOf(rows, b.holdings));
      && Replayable(SourceOf(r, market))
      && r == Run(history + [(env, LogsBackfill(KeysOf(rows, b.holdings)))])
      && (forall key :: StateAt(LogOf(r.transactions, key), market.now) == Replay(Sort(LogOf(r.transactions, key))))
  {
    var event := (env, LogsBackfill(KeysOf(rows, Run(history).holdings)));
    var longer := history + [event];
    assert longer[..|longer| - 1] == history;
    CurveEndsLive(longer, market.now);
    assert SourceOf(Run(longer), market).log == Run(longer).transactions;
  }
}
