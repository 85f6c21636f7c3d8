/** Projecting a holding from its transaction log: sort by the replay key, fold, read off. */
module Projection {
  import opened Fixed
  import opened Wrappers
  import opened Trades
  import opened Lots

  // ---- the replay order ----

  function SidePriority(side: Side): int {
    match side case Buy => 0 case Sell => 1 case Adjust => 2
  }

  /** Strict order of the key (event time, side priority, created_at, id). */
  predicate Before(a: Transaction, b: Transaction) {
    var (ea, eb) := (DateStart(a.tradedOn), DateStart(b.tradedOn));
    var (pa, pb) := (SidePriority(a.side), SidePriority(b.side));
    ea < eb || (ea == eb && (pa < pb || (pa == pb && (
      a.createdAt < b.createdAt || (a.createdAt == b.createdAt && a.id < b.id)))))
  }

  /** On one day purchases come before sales and sales before adjustments; within a side the earlier recorded one comes
      first. */
  lemma SameDayOrder(log: seq<Transaction>, i: nat, j: nat)
    requires Sorted(log) && i < j < |log|
    ensures log[i].tradedOn <= log[j].tradedOn
    ensures log[i].tradedOn == log[j].tradedOn ==>
      && (log[i].side.Sell? ==> !log[j].side.Buy?)
      && (log[i].side.Adjust? ==> log[j].side.Adjust?)
      && (log[i].side == log[j].side ==>
            log[i].createdAt < log[j].createdAt || (log[i].createdAt == log[j].createdAt && log[i].id <= log[j].id))
  {
  }

  predicate Sorted(log: seq<Transaction>) {
    forall i, j :: 0 <= i < j < |log| ==> !Before(log[j], log[i])
  }

  function Insert(t: Transaction, log: seq<Transaction>): seq<Transaction> {
    if log == [] || !Before(log[0], t) then [t] + log else [log[0]] + Insert(t, log[1..])
  }

  /** sorted(transactions, key=_holding_transaction_sort_key): stable. */
  function Sort(log: seq<Transaction>): seq<Transaction> {
    if log == [] then [] else Insert(log[0], Sort(log[1..]))
  }

  lemma {:induction false} InsertRearranges(t: Transaction, log: seq<Transaction>)
    ensures multiset(Insert(t, log)) == multiset{t} + multiset(log)
  {
    if log == [] || !Before(log[0], t) {
    } else {
      InsertRearranges(t, log[1..]);
      assert log == [log[0]] + log[1..];
    }
  }

  lemma {:induction false} InsertKeepsSorted(t: Transaction, log: seq<Transaction>)
    requires Sorted(log)
    ensures Sorted(Insert(t, log))
  {
    if log == [] || !Before(log[0], t) {
    } else {
      var rest := Insert(t, log[1..]);
      InsertKeepsSorted(t, log[1..]);
      InsertRearranges(t, log[1..]);
      forall i | 0 <= i < |rest| ensures !Before(rest[i], log[0]) {
        assert rest[i] in multiset(rest);
        assert rest[i] == t || rest[i] in log[1..];
      }
    }
  }

  lemma {:induction false} SortSorts(log: seq<Transaction>)
    ensures Sorted(Sort(log))
    ensures multiset(Sort(log)) == multiset(log)
  {
    if log == [] {
    } else {
      SortSorts(log[1..]);
      InsertRearranges(log[0], Sort(log[1..]));
      InsertKeepsSorted(log[0], Sort(log[1..]));
      assert log == [log[0]] + log[1..];
    }
  }

  /** A primary key: rows with the same id are the same row. */
  ghost predicate IdsIdentify(log: seq<Transaction>) {
    forall a, b :: a in log && b in log && a.id == b.id ==> a == b
  }

  lemma HeadsAgree(a: seq<Transaction>, b: seq<Transaction>)
    requires Sorted(a) && Sorted(b) && multiset(a) == multiset(b) && IdsIdentify(a)
    requires a != [] && b != []
    ensures a[0] == b[0]
  {
    assert a[0] in multiset(b) && b[0] in multiset(a);
    var i :| 0 <= i < |b| && b[i] == a[0];
    var j :| 0 <= j < |a| && a[j] == b[0];
    assert !Before(b[i], b[0]) || i == 0;
    assert !Before(a[j], a[0]) || j == 0;
    assert a[0].id == b[0].id;
  }

  /** Two sorted arrangements of the same rows are the same list. */
  lemma {:induction false} SortedIsUnique(a: seq<Transaction>, b: seq<Transaction>)
    requires Sorted(a) && Sorted(b) && multiset(a) == multiset(b) && IdsIdentify(a)
    ensures a == b
  {
    SameLength(a, b);
    if a == [] {
    } else {
      HeadsAgree(a, b);
      TailIsRest(a);
      TailIsRest(b);
      SortedIsUnique(a[1..], b[1..]);
      assert a == [a[0]] + a[1..] && b == [b[0]] + b[1..];
    }
  }

  lemma SameLength(a: seq<Transaction>, b: seq<Transaction>)
    requires multiset(a) == multiset(b)
    ensures |a| == |b|
  {
    assert |a| == |multiset(a)| && |b| == |multiset(b)|;
  }

  lemma TailIsRest(a: seq<Transaction>)
    requires a != []
    ensures multiset(a[1..]) == multiset(a) - multiset{a[0]}
  {
    assert a == [a[0]] + a[1..];
  }

  // ---- the fold ----

  function Replay(log: seq<Transaction>): Result<seq<Lot>, Rejection> {
    if log == [] then Ok([])
    else
      match Replay(log[..|log| - 1])
      case Err(e) => Err(e)
      case Ok(lots) => Apply(lots, log[|log| - 1])
  }

  datatype Projected = Rejected | Empty | Held(lots: seq<Lot>)

  function Quantity(lots: seq<Lot>): int {
    if Total(lots) <= EPSILON then 0 else Total(lots)
  }

  function Project(log: seq<Transaction>): Projected {
    if log == [] then Empty
    else
      match Replay(Sort(log))
      case Err(_) => Rejected
      case Ok(lots) => if Quantity(lots) <= EPSILON then Empty else Held(lots)
  }

  /** The order in which the rows come from the database does not matter: same lots or same
      rejection. */
  lemma ProjectIgnoresRowOrder(a: seq<Transaction>, b: seq<Transaction>)
    requires multiset(a) == multiset(b) && IdsIdentify(a)
    ensures Sort(a) == Sort(b)
    ensures Project(a) == Project(b)
  {
    SortSorts(a);
    SortSorts(b);
    forall x, y | x in Sort(a) && y in Sort(a) && x.id == y.id ensures x == y {
      assert x in multiset(a) && y in multiset(a);
    }
    SortedIsUnique(Sort(a), Sort(b));
    assert |a| == |multiset(a)| && |b| == |multiset(b)|;
  }

  // ---- whole runs ----

  predicate Effective(t: Transaction) { t.quantity > EPSILON }

  /** Index of the last effective ADJUST, or the beginning of the log. */
  function EraStart(log: seq<Transaction>): nat {
    if log == [] then 0
    else
      var t := log[|log| - 1];
      if Effective(t) && t.side.Adjust? then |log| - 1 else EraStart(log[..|log| - 1])
  }

  /** ADJUST and BUY quantities minus SELL quantities. */
  function Signed(log: seq<Transaction>): int {
    if log == [] then 0
    else
      var t := log[|log| - 1];
      Signed(log[..|log| - 1]) +
      (if !Effective(t) then 0 else if t.side.Sell? then -t.quantity else t.quantity)
  }

  function SellCount(log: seq<Transaction>): nat {
    if log == [] then 0
    else
      var t := log[|log| - 1];
      SellCount(log[..|log| - 1]) + (if Effective(t) && t.side.Sell? then 1 else 0)
  }

  lemma {:induction false} EraStartBound(log: seq<Transaction>)
    ensures log != [] ==> EraStart(log) < |log|
    ensures EraStart(log) <= |log|
  {
    if |log| <= 1 {
    } else {
      EraStartBound(log[..|log| - 1]);
    }
  }

  /** One transaction moves the lot total as it says, give or take a unit for a SELL. */
  lemma TotalStep(lots: seq<Lot>, t: Transaction)
    requires AboveEpsilon(lots) && Apply(lots, t).Ok?
    ensures var next := Apply(lots, t).value;
      && AboveEpsilon(next)
      && (!Effective(t) ==> next == lots)
      && (Effective(t) && t.side.Buy? ==> Total(next) == Total(lots) + t.quantity)
      && (Effective(t) && t.side.Adjust? ==> Total(next) == t.quantity)
      && (Effective(t) && t.side.Sell? ==> -1 <= Total(next) - (Total(lots) - t.quantity) <= 1)
  {
    ApplyIsQueueStep(lots, t);
    SortLotsKeeps(lots);
    SortLotsAboveEpsilon(lots);
    QueueLength(lots);
    QueueLength(SortLots(lots));
    QueueLength(Apply(lots, t).value);
  }

  /** After any accepted log, in any order, the lot total is within one unit per SELL of the
      ledger reading: the last ADJUST (or nothing) plus later BUYs minus later SELLs. */
  lemma {:induction false} DriftIsBounded(log: seq<Transaction>)
    requires Replay(log).Ok?
    ensures EraStart(log) <= |log|
    ensures AboveEpsilon(Replay(log).value)
    ensures var era := log[EraStart(log)..];
            0 - SellCount(era) <= Total(Replay(log).value) - Signed(era) <= SellCount(era)
  {
    EraStartBound(log);
    if log == [] { return; }
    var prefix, t := log[..|log| - 1], log[|log| - 1];
    var lots := Replay(prefix).value;
    DriftIsBounded(prefix);
    TotalStep(lots, t);
    if Effective(t) && t.side.Adjust? {
      var era := log[EraStart(log)..];
      assert era == [t] && era[..0] == [];
    } else {
      var era := log[EraStart(log)..];
      assert era[..|era| - 1] == prefix[EraStart(prefix)..];
    }
  }

  predicate OverSells(log: seq<Transaction>, i: nat)
    requires i < |log|
  {
    && Effective(log[i]) && log[i].side.Sell?
    && Replay(log[..i]).Ok?
    && log[i].quantity > Total(Replay(log[..i]).value) + EPSILON
  }

  /** A log is refused exactly when some SELL asks for more than one unit beyond what the
      preceding transactions leave. */
  lemma {:induction false} RejectedExactlyWhen(log: seq<Transaction>)
    ensures Replay(log).Err? <==>
            exists i :: 0 <= i < |log| && OverSells(log, i)
  {
    if log == [] { return; }
    var prefix := log[..|log| - 1];
    RejectedExactlyWhen(prefix);
    forall i | 0 <= i < |prefix| ensures OverSells(log, i) <==> OverSells(prefix, i) {
      assert log[..i] == prefix[..i];
    }
    if Replay(prefix).Ok? {
      DriftIsBounded(prefix);
      ApplyIsQueueStep(Replay(prefix).value, log[|log| - 1]);
      if Replay(log).Err? { assert OverSells(log, |log| - 1); }
    } else {
      var i :| 0 <= i < |prefix| && OverSells(prefix, i);
      assert OverSells(log, i);
    }
  }

  /** A prefix of an accepted log is accepted. */
  lemma {:induction false} PrefixAccepted(log: seq<Transaction>, n: nat)
    requires n <= |log| && Replay(log).Ok?
    ensures Replay(log[..n]).Ok?
  {
    if n < |log| {
      PrefixAccepted(log[..|log| - 1], n);
      assert log[..|log| - 1][..n] == log[..n];
    } else {
      assert log[..n] == log;
    }
  }

  // ---- where lots come from ----

  /** The lot was opened by log[i], and i is no earlier than the last ADJUST. */
  predicate Opened(log: seq<Transaction>, i: int, lot: Lot) {
    && EraStart(log) <= i < |log|
    && Effective(log[i]) && !log[i].side.Sell?
    && lot.tradedOn == log[i].tradedOn && lot.cost == PositivePrice(log[i].price)
  }

  ghost predicate OpenedBySome(log: seq<Transaction>, lot: Lot) {
    exists i :: Opened(log, i, lot)
  }

  lemma OpenedStays(log: seq<Transaction>, t: Transaction, lot: Lot)
    requires OpenedBySome(log, lot)
    requires !(Effective(t) && t.side.Adjust?)
    ensures OpenedBySome(log + [t], lot)
  {
    var i :| Opened(log, i, lot);
    assert (log + [t])[..|log|] == log;
    assert Opened(log + [t], i, lot);
  }

  /** One accepted step keeps every lot accounted for. */
  lemma StepKeepsOrigins(prefix: seq<Transaction>, t: Transaction, before: seq<Lot>, lots: seq<Lot>)
    requires SortLots(before) == before && Apply(before, t) == Ok(lots)
    requires forall lot :: lot in before ==> OpenedBySome(prefix, lot)
    ensures forall lot :: lot in lots ==> OpenedBySome(prefix + [t], lot)
  {
    var log := prefix + [t];
    assert log[..|log| - 1] == prefix;
    EraStartBound(log);
    SellKeepsDates(before, t.quantity);
    forall lot | lot in lots ensures OpenedBySome(log, lot) {
      if Effective(t) && !t.side.Sell? && lot == Lot(t.quantity, t.tradedOn, PositivePrice(t.price)) {
        assert Opened(log, |log| - 1, lot);
      } else {
        var origin :| origin in before && origin.tradedOn == lot.tradedOn && origin.cost == lot.cost;
        var i :| Opened(prefix, i, origin);
        assert Opened(prefix, i, lot);
        OpenedStays(prefix, t, lot);
      }
    }
  }

  lemma StepKeepsDateOrder(before: seq<Lot>, t: Transaction, lots: seq<Lot>)
    requires DateOrdered(before) && SortLots(before) == before && Apply(before, t) == Ok(lots)
    requires forall lot :: lot in before ==> lot.tradedOn <= t.tradedOn
    ensures DateOrdered(lots)
  {
    SellKeepsDates(before, t.quantity);
  }

  /** In sorted replay the lots are in date order and every lot was opened by a BUY or ADJUST no
      earlier than the last ADJUST; so the sort inside SELL changes nothing. */
  lemma {:induction false} SortedReplay(log: seq<Transaction>)
    requires Sorted(log) && Replay(log).Ok?
    ensures var lots := Replay(log).value;
            && DateOrdered(lots) && AboveEpsilon(lots)
            && SortLots(lots) == lots
            && (forall lot :: lot in lots ==> OpenedBySome(log, lot))
  {
    DriftIsBounded(log);
    var lots := Replay(log).value;
    if log == [] {
    } else {
      var prefix, t := log[..|log| - 1], log[|log| - 1];
      assert log == prefix + [t];
      SortedReplay(prefix);
      var before := Replay(prefix).value;
      forall lot | lot in before ensures lot.tradedOn <= t.tradedOn {
        var i :| Opened(prefix, i, lot);
        assert !Before(log[|log| - 1], log[i]);
      }
      StepKeepsOrigins(prefix, t, before, lots);
      StepKeepsDateOrder(before, t, lots);
    }
    SortKeepsOrdered(lots);
  }

  // ---- reading a holding off the lots ----

  function StartedOn(lots: seq<Lot>): Option<int> {
    if lots == [] then None
    else
      var rest := StartedOn(lots[1..]);
      if rest.Some? && rest.value < lots[0].tradedOn then rest else Some(lots[0].tradedOn)
  }

  predicate AllPriced(lots: seq<Lot>) {
    forall i :: 0 <= i < |lots| ==> lots[i].cost.Some?
  }

  /** Sum of quantity times unit cost, exact. */
  function TotalCost(lots: seq<Lot>): int
    requires AllPriced(lots)
  {
    if lots == [] then 0 else lots[0].quantity * lots[0].cost.value + TotalCost(lots[1..])
  }

  function CostBasis(lots: seq<Lot>): Option<int> {
    if Quantity(lots) <= EPSILON || !AllPriced(lots) || TotalCost(lots) <= 0 then None
    else Some(RoundDiv(TotalCost(lots), Quantity(lots)))
  }

  /** The holding starts on the date of its head lot. */
  lemma {:induction false} StartIsHead(lots: seq<Lot>)
    requires DateOrdered(lots) && lots != []
    ensures StartedOn(lots) == Some(lots[0].tradedOn)
  {
    if |lots| <= 1 {
    } else {
      StartIsHead(lots[1..]);
    }
  }

  /** Every unit of the queue has a price. */
  ghost predicate UnitsPriced(units: seq<Share>) { forall i :: 0 <= i < |units| ==> units[i].cost.Some? }

  /** What the units cost, one by one. */
  ghost function UnitCosts(units: seq<Share>): int
    requires UnitsPriced(units)
  {
    if units == [] then 0 else units[0].cost.value + UnitCosts(units[1..])
  }

  lemma {:induction false} UnitCostsAppend(a: seq<Share>, b: seq<Share>)
    requires UnitsPriced(a) && UnitsPriced(b)
    ensures UnitsPriced(a + b) && UnitCosts(a + b) == UnitCosts(a) + UnitCosts(b)
  {
    if a == [] {
      assert a + b == b;
    } else {
      UnitCostsAppend(a[1..], b);
      assert (a + b)[1..] == a[1..] + b;
    }
  }

  lemma {:induction false} UnitCostsOfLot(n: nat, share: Share)
    requires share.cost.Some?
    ensures UnitCosts(seq(n, _ => share)) == n * share.cost.value
  {
    if n == 0 {
    } else {
      UnitCostsOfLot(n - 1, share);
      assert seq(n, _ => share)[1..] == seq(n - 1, _ => share);
    }
  }

  /** The lots' total cost is that of their units, and lots are priced exactly when their units are. */
  lemma {:induction false} TotalCostOfUnits(lots: seq<Lot>)
    requires AboveEpsilon(lots)
    ensures AllPriced(lots) <==> UnitsPriced(Queue(lots))
    ensures AllPriced(lots) ==> TotalCost(lots) == UnitCosts(Queue(lots))
  {
    if lots == [] {
    } else {
      var share := Share(lots[0].tradedOn, lots[0].cost);
      var head, rest := seq(lots[0].quantity, _ => share), Queue(lots[1..]);
      TotalCostOfUnits(lots[1..]);
      assert Queue(lots) == head + rest && head[0] == share;
      assert Queue(lots)[0] == share && forall i :: 0 <= i < |rest| ==> Queue(lots)[|head| + i] == rest[i];
      if AllPriced(lots) {
        UnitCostsOfLot(lots[0].quantity, share);
        UnitCostsAppend(head, rest);
      }
    }
  }

  /** The cost basis is the mean price of the units in the queue, to the nearest unit; there is none when some unit has
      no price or they cost nothing. */
  lemma CostBasisIsMean(lots: seq<Lot>)
    requires AboveEpsilon(lots) && lots != []
    ensures CostBasis(lots).Some? <==> UnitsPriced(Queue(lots)) && UnitCosts(Queue(lots)) > 0
    ensures CostBasis(lots).Some? ==> IsNearest(UnitCosts(Queue(lots)), |Queue(lots)|, CostBasis(lots).value)
  {
    QueueLength(lots);
    TotalCostOfUnits(lots);
    if CostBasis(lots).Some? { RoundDivIsNearest(TotalCost(lots), Total(lots)); }
  }

  predicate CostsWithin(lots: seq<Lot>, lo: int, hi: int) {
    forall i :: 0 <= i < |lots| ==> lots[i].cost.Some? && lo <= lots[i].cost.value <= hi
  }

  lemma {:induction false} TotalCostBounds(lots: seq<Lot>, lo: int, hi: int)
    requires AboveEpsilon(lots) && CostsWithin(lots, lo, hi)
    ensures lo * Total(lots) <= TotalCost(lots) <= hi * Total(lots)
  {
    if lots == [] {
    } else {
      TotalCostBounds(lots[1..], lo, hi);
      var (q, c, rest) := (lots[0].quantity, lots[0].cost.value, Total(lots[1..]));
      MulMonotone(lo, c, q);
      MulMonotone(c, hi, q);
    }
  }

  /** Whenever every live lot is priced, the rounded cost basis lies between any bounds that hold
      for the prices of the lots. */
  lemma CostBasisWithin(lots: seq<Lot>, lo: int, hi: int)
    requires AboveEpsilon(lots) && lots != [] && CostsWithin(lots, lo, hi) && lo > 0
    ensures CostBasis(lots).Some? && lo <= CostBasis(lots).value <= hi
  {
    QueueLength(lots);
    TotalCostBounds(lots, lo, hi);
    PositiveMultiple(lo, Total(lots));
    RoundDivBetween(TotalCost(lots), Total(lots), lo, hi);
  }

  /** Every price given by a BUY or ADJUST since the last ADJUST lies in [lo, hi]. */
  predicate PricesWithin(log: seq<Transaction>, lo: int, hi: int) {
    forall i :: EraStart(log) <= i < |log| ==>
      Effective(log[i]) ==> !log[i].side.Sell? ==> PositivePrice(log[i].price).Some? ==>
      lo <= log[i].price.value <= hi
  }

  /** Over a whole sorted run: the cost basis exists exactly when all live lots are priced, and
      then stays within the BUY and ADJUST prices seen since the last ADJUST. */
  lemma CostBasisOfRun(log: seq<Transaction>, lo: int, hi: int)
    requires Sorted(log) && Replay(log).Ok? && Replay(log).value != []
    requires PricesWithin(log, lo, hi)
    ensures var lots := Replay(log).value;
            && (CostBasis(lots).Some? <==> AllPriced(lots))
            && (CostBasis(lots).Some? ==> lo <= CostBasis(lots).value <= hi)
  {
    SortedReplay(log);
    var lots := Replay(log).value;
    if AllPriced(lots) {
      forall i | 0 <= i < |lots|
        ensures 0 < lots[i].cost.value && lo <= lots[i].cost.value <= hi
      {
        assert OpenedBySome(log, lots[i]);
        var j :| Opened(log, j, lots[i]);
      }
      CostBasisWithin(lots, Max(lo, 1), hi);
    }
  }

  // ---- replaying only what has happened by an hour ----

  /** The transactions whose event time is at or before the hour. */
  function UpTo(log: seq<Transaction>, hour: int): seq<Transaction> {
    if log == [] then []
    else if DateStart(log[0].tradedOn) <= hour then [log[0]] + UpTo(log[1..], hour)
    else UpTo(log[1..], hour)
  }

  lemma {:induction false} UpToInsert(t: Transaction, log: seq<Transaction>, hour: int)
    requires Sorted(log)
    ensures UpTo(Insert(t, log), hour) ==
            if DateStart(t.tradedOn) <= hour then Insert(t, UpTo(log, hour)) else UpTo(log, hour)
  {
    if log == [] || !Before(log[0], t) {
      assert ([t] + log)[1..] == log;
      UpToStaysAfter(t, log, hour);
    } else {
      UpToInsert(t, log[1..], hour);
      assert ([log[0]] + Insert(t, log[1..]))[1..] == Insert(t, log[1..]);
      if DateStart(log[0].tradedOn) <= hour {
        assert UpTo(log, hour)[1..] == UpTo(log[1..], hour);
      }
    }
  }

  lemma UpToStaysAfter(t: Transaction, log: seq<Transaction>, hour: int)
    requires Sorted(log) && (log == [] || !Before(log[0], t))
    ensures UpTo(log, hour) == [] || !Before(UpTo(log, hour)[0], t)
    decreases log
  {
    if log != [] && DateStart(log[0].tradedOn) > hour {
      SortedUpToIsPrefix(log, hour);
    }
  }

  /** In a sorted log they form a prefix. */
  lemma {:induction false} SortedUpToIsPrefix(log: seq<Transaction>, hour: int)
    requires Sorted(log)
    ensures |UpTo(log, hour)| <= |log| && UpTo(log, hour) == log[..|UpTo(log, hour)|]
    ensures |UpTo(log, hour)| < |log| ==> DateStart(log[|UpTo(log, hour)|].tradedOn) > hour
    ensures forall i :: 0 <= i < |UpTo(log, hour)| ==> DateStart(log[i].tradedOn) <= hour
    ensures log != [] && DateStart(log[0].tradedOn) > hour ==> UpTo(log, hour) == []
  {
    if log == [] {
    } else {
      SortedUpToIsPrefix(log[1..], hour);
      assert log == [log[0]] + log[1..];
      if DateStart(log[0].tradedOn) > hour && |log| > 1 {
        assert !Before(log[1], log[0]);
      }
    }
  }

  /** Sorting what has happened by the hour is taking the matching prefix of the sorted log. */
  lemma {:induction false} SortUpTo(log: seq<Transaction>, hour: int)
    ensures Sort(UpTo(log, hour)) == UpTo(Sort(log), hour)
  {
    if log == [] {
    } else {
      SortUpTo(log[1..], hour);
      SortSorts(log[1..]);
      UpToInsert(log[0], Sort(log[1..]), hour);
      if DateStart(log[0].tradedOn) <= hour {
        assert UpTo(log, hour)[1..] == UpTo(log[1..], hour);
      }
    }
  }
}
