/** First-in-first-out lots: what one transaction does to the lots of a holding. */
module Lots {
  import opened Fixed
  import opened Wrappers
  import opened Trades

  datatype Lot = Lot(quantity: int, tradedOn: int, cost: Option<int>)

  /** The only way a transaction can fail to apply: selling more than is held. */
  datatype Rejection = InsufficientQuantity

  function Total(lots: seq<Lot>): int {
    if lots == [] then 0 else lots[0].quantity + Total(lots[1..])
  }

  /** Every surviving lot is strictly above epsilon. */
  predicate AboveEpsilon(lots: seq<Lot>) {
    forall i :: 0 <= i < |lots| ==> lots[i].quantity > EPSILON
  }

  predicate DateOrdered(lots: seq<Lot>) {
    forall i, j :: 0 <= i < j < |lots| ==> lots[i].tradedOn <= lots[j].tradedOn
  }

  // ---- sorted(lots, key=traded_on): stable ----

  function InsertLot(lot: Lot, lots: seq<Lot>): seq<Lot> {
    if lots == [] || lot.tradedOn <= lots[0].tradedOn then [lot] + lots
    else [lots[0]] + InsertLot(lot, lots[1..])
  }

  function SortLots(lots: seq<Lot>): seq<Lot> {
    if lots == [] then [] else InsertLot(lots[0], SortLots(lots[1..]))
  }

  lemma {:induction false} SortKeepsOrdered(lots: seq<Lot>)
    requires DateOrdered(lots)
    ensures SortLots(lots) == lots
  {
    if lots == [] {
    } else {
      SortKeepsOrdered(lots[1..]);
      assert lots == [lots[0]] + lots[1..];
    }
  }

  lemma {:induction false} InsertLotRearranges(lot: Lot, lots: seq<Lot>)
    ensures multiset(InsertLot(lot, lots)) == multiset{lot} + multiset(lots)
    ensures Total(InsertLot(lot, lots)) == lot.quantity + Total(lots)
  {
    if lots == [] || lot.tradedOn <= lots[0].tradedOn {
      assert ([lot] + lots)[1..] == lots;
    } else {
      InsertLotRearranges(lot, lots[1..]);
      assert lots == [lots[0]] + lots[1..];
      var inserted := InsertLot(lot, lots[1..]);
      assert ([lots[0]] + inserted)[1..] == inserted;
      assert multiset([lots[0]] + inserted) == multiset{lots[0]} + multiset(inserted);
    }
  }

  lemma {:induction false} InsertLotKeepsOrder(lot: Lot, lots: seq<Lot>)
    requires DateOrdered(lots)
    ensures DateOrdered(InsertLot(lot, lots))
  {
    if lots == [] || lot.tradedOn <= lots[0].tradedOn {
    } else {
      var rest := InsertLot(lot, lots[1..]);
      InsertLotKeepsOrder(lot, lots[1..]);
      InsertLotRearranges(lot, lots[1..]);
      forall i | 0 <= i < |rest| ensures lots[0].tradedOn <= rest[i].tradedOn {
        assert rest[i] in multiset(rest);
        assert rest[i] == lot || rest[i] in lots[1..];
      }
    }
  }

  /** Sorting only rearranges, and leaves the lots oldest first. */
  lemma {:induction false} SortLotsKeeps(lots: seq<Lot>)
    ensures DateOrdered(SortLots(lots))
    ensures multiset(SortLots(lots)) == multiset(lots)
    ensures Total(SortLots(lots)) == Total(lots)
  {
    if lots == [] {
    } else {
      SortLotsKeeps(lots[1..]);
      InsertLotRearranges(lots[0], SortLots(lots[1..]));
      InsertLotKeepsOrder(lots[0], SortLots(lots[1..]));
      assert lots == [lots[0]] + lots[1..];
    }
  }

  lemma SortLotsAboveEpsilon(lots: seq<Lot>)
    requires AboveEpsilon(lots)
    ensures AboveEpsilon(SortLots(lots))
  {
    SortLotsKeeps(lots);
    var sorted := SortLots(lots);
    forall i | 0 <= i < |sorted| ensures sorted[i].quantity > EPSILON {
      assert sorted[i] in multiset(lots);
      assert sorted[i] in lots;
    }
  }

  // ---- selling ----

  /** One pass over the lots, oldest first: what is kept, and what is still to be sold. */
  function SellFrom(lots: seq<Lot>, remaining: int): (seq<Lot>, int) {
    if lots == [] then ([], remaining)
    else
      var lot, rest := lots[0], lots[1..];
      if remaining <= EPSILON then
        var (kept, left) := SellFrom(rest, remaining);
        ([lot] + kept, left)
      else if lot.quantity <= remaining + EPSILON then
        SellFrom(rest, remaining - lot.quantity)
      else
        var (kept, left) := SellFrom(rest, 0);
        ([lot.(quantity := lot.quantity - remaining)] + kept, left)
  }

  /** The effect of one transaction on the lots. */
  function Apply(lots: seq<Lot>, t: Transaction): Result<seq<Lot>, Rejection> {
    var quantity := Max(t.quantity, 0);
    if quantity <= EPSILON then Ok(lots)
    else
      match t.side
      case Adjust => Ok([Lot(quantity, t.tradedOn, PositivePrice(t.price))])
      case Buy => Ok(lots + [Lot(quantity, t.tradedOn, PositivePrice(t.price))])
      case Sell =>
        var (kept, left) := SellFrom(SortLots(lots), quantity);
        if left > EPSILON then Err(InsufficientQuantity) else Ok(kept)
  }

  // ---- the lots as a queue of dated, priced units ----

  datatype Share = Share(tradedOn: int, cost: Option<int>)

  /** The queue a lot list run-length encodes. */
  ghost function Queue(lots: seq<Lot>): seq<Share> {
    if lots == [] then []
    else
      seq(Max(lots[0].quantity, 0), _ => Share(lots[0].tradedOn, lots[0].cost)) + Queue(lots[1..])
  }

  /** Some whole number of lots at the front holds exactly n units. */
  ghost predicate LotBoundary(lots: seq<Lot>, n: int) {
    n == 0 || (lots != [] && LotBoundary(lots[1..], n - lots[0].quantity))
  }

  /** How many units a sale of q takes from the front of the queue.  The epsilon in the loop
      makes it stop one unit early, or run one unit over, when a lot ends there. */
  ghost function UnitsTaken(lots: seq<Lot>, q: int): int {
    if LotBoundary(lots, q - 1) then q - 1
    else if LotBoundary(lots, q + 1) then q + 1
    else q
  }

  lemma {:induction false} QueueLength(lots: seq<Lot>)
    requires AboveEpsilon(lots)
    ensures |Queue(lots)| == Total(lots) >= 0
    ensures lots != [] ==> Total(lots) > EPSILON
  {
    if lots == [] {
    } else {
      QueueLength(lots[1..]);
    }
  }

  lemma {:induction false} QueueAppend(a: seq<Lot>, b: seq<Lot>)
    ensures Queue(a + b) == Queue(a) + Queue(b)
    ensures Total(a + b) == Total(a) + Total(b)
  {
    if a == [] {
      assert a + b == b;
    } else {
      QueueAppend(a[1..], b);
      assert (a + b)[1..] == a[1..] + b;
      assert (a + b)[0] == a[0];
    }
  }

  lemma {:induction false} NoBoundaryBelow(lots: seq<Lot>, n: int)
    requires AboveEpsilon(lots)
    requires n < 0 || (n == 1) || (lots != [] && 0 < n < lots[0].quantity)
    ensures !LotBoundary(lots, n)
  {
    if lots == [] {
    } else {
      NoBoundaryBelow(lots[1..], n - lots[0].quantity);
    }
  }

  lemma {:induction false} NothingLeftToSell(lots: seq<Lot>, remaining: int)
    requires remaining <= EPSILON
    ensures SellFrom(lots, remaining) == (lots, remaining)
  {
    if lots == [] {
    } else {
      NothingLeftToSell(lots[1..], remaining);
      assert lots == [lots[0]] + lots[1..];
    }
  }

  /** What a sale of q does to the queue: all of it is taken and part of q is left over, or
      UnitsTaken units leave the front and at most one unit of q is left over or overdrawn. */
  ghost predicate SaleOutcome(lots: seq<Lot>, q: int, kept: seq<Lot>, left: int) {
    if q > Total(lots) + EPSILON then kept == [] && left == q - Total(lots)
    else
      && left == q - UnitsTaken(lots, q)
      && 0 <= UnitsTaken(lots, q) <= |Queue(lots)|
      && Queue(kept) == Queue(lots)[UnitsTaken(lots, q)..]
      && AboveEpsilon(kept)
  }

  lemma SaleSplitsHead(lots: seq<Lot>, q: int)
    requires AboveEpsilon(lots) && q > EPSILON
    requires lots != [] && lots[0].quantity > q + EPSILON
    ensures SaleOutcome(lots, q, [lots[0].(quantity := lots[0].quantity - q)] + lots[1..], 0)
  {
    QueueLength(lots);
    QueueLength(lots[1..]);
    NoBoundaryBelow(lots, q - 1);
    NoBoundaryBelow(lots, q + 1);
    var kept := [lots[0].(quantity := lots[0].quantity - q)] + lots[1..];
    assert kept[1..] == lots[1..];
    assert Queue(kept) == Queue(lots)[q..];
  }

  lemma SaleEndsAtHead(lots: seq<Lot>, q: int)
    requires AboveEpsilon(lots) && q > EPSILON
    requires lots != [] && -1 <= q - lots[0].quantity <= 1
    ensures SaleOutcome(lots, q, lots[1..], q - lots[0].quantity)
  {
    var rest := lots[1..];
    QueueLength(lots);
    QueueLength(rest);
    NoBoundaryBelow(rest, -2);
    NoBoundaryBelow(rest, -1);
    NoBoundaryBelow(rest, 1);
    assert LotBoundary(lots, q - 1) <==> LotBoundary(rest, q - 1 - lots[0].quantity);
    assert LotBoundary(lots, q + 1) <==> LotBoundary(rest, q + 1 - lots[0].quantity);
    assert Queue(rest) == Queue(lots)[lots[0].quantity..];
  }

  lemma {:induction false} SellFromQueue(lots: seq<Lot>, q: int)
    requires AboveEpsilon(lots) && q > EPSILON
    ensures SaleOutcome(lots, q, SellFrom(lots, q).0, SellFrom(lots, q).1)
  {
    if lots == [] { return; }
    var lot, rest := lots[0], lots[1..];
    if lot.quantity > q + EPSILON {
      NothingLeftToSell(rest, 0);
      SaleSplitsHead(lots, q);
    } else if q - lot.quantity <= EPSILON {
      NothingLeftToSell(rest, q - lot.quantity);
      SaleEndsAtHead(lots, q);
    } else {
      SellFromQueue(rest, q - lot.quantity);
    }
  }

  lemma {:induction false} SellKeepsDates(lots: seq<Lot>, remaining: int)
    ensures var kept := SellFrom(lots, remaining).0;
            forall x :: x in kept ==> exists y :: y in lots && y.tradedOn == x.tradedOn && y.cost == x.cost
    ensures DateOrdered(lots) ==> DateOrdered(SellFrom(lots, remaining).0)
  {
    if lots == [] { return; }
    var lot, rest := lots[0], lots[1..];
    var next := if remaining <= EPSILON then remaining
                else if lot.quantity <= remaining + EPSILON then remaining - lot.quantity else 0;
    SellKeepsDates(rest, next);
    var kept := SellFrom(lots, remaining).0;
    forall x | x in kept
      ensures exists y :: y in lots && y.tradedOn == x.tradedOn && y.cost == x.cost
    {
      var tail := SellFrom(rest, next).0;
      if x in tail {
        var y :| y in rest && y.tradedOn == x.tradedOn && y.cost == x.cost;
        assert y in lots;
      } else {
        assert lot in lots;
      }
    }
  }

  /** The queue reading of one transaction: BUY appends, ADJUST replaces, and SELL of q removes
      the first UnitsTaken units of the oldest-first queue, at most one unit more or less than q.
      It is refused exactly when q exceeds the total by more than one unit. */
  lemma ApplyIsQueueStep(lots: seq<Lot>, t: Transaction)
    requires AboveEpsilon(lots)
    ensures t.quantity <= EPSILON ==> Apply(lots, t) == Ok(lots)
    ensures t.quantity > EPSILON && t.side.Buy? ==>
              Apply(lots, t).Ok? && AboveEpsilon(Apply(lots, t).value)
              && Queue(Apply(lots, t).value)
                 == Queue(lots) + seq(t.quantity, _ => Share(t.tradedOn, PositivePrice(t.price)))
    ensures t.quantity > EPSILON && t.side.Adjust? ==>
              Apply(lots, t).Ok? && AboveEpsilon(Apply(lots, t).value)
              && Queue(Apply(lots, t).value)
                 == seq(t.quantity, _ => Share(t.tradedOn, PositivePrice(t.price)))
    ensures t.quantity > EPSILON && t.side.Sell? ==>
              && (Apply(lots, t).Err? <==> t.quantity > Total(lots) + EPSILON)
              && (Apply(lots, t).Ok? ==>
                    var k := UnitsTaken(SortLots(lots), t.quantity);
                    && -1 <= k - t.quantity <= 1
                    && 0 <= k <= |Queue(SortLots(lots))|
                    && AboveEpsilon(Apply(lots, t).value)
                    && Queue(Apply(lots, t).value) == Queue(SortLots(lots))[k..])
  {
    if t.quantity > EPSILON {
      match t.side {
        case Buy =>
          var lot := Lot(t.quantity, t.tradedOn, PositivePrice(t.price));
          QueueAppend(lots, [lot]);
          assert [lot][1..] == [];
          assert Queue([lot]) == seq(t.quantity, _ => Share(t.tradedOn, PositivePrice(t.price)));
        case Adjust =>
          var lot := Lot(t.quantity, t.tradedOn, PositivePrice(t.price));
          assert [lot][1..] == [];
          assert Queue([lot]) == seq(t.quantity, _ => Share(t.tradedOn, PositivePrice(t.price)));
        case Sell =>
          SortLotsKeeps(lots);
          SortLotsAboveEpsilon(lots);
          SellFromQueue(SortLots(lots), t.quantity);
      }
    }
  }

  /** Exact conservation holds for a sale if and only if no lot ends one unit away from it. */
  lemma SellConservesIff(lots: seq<Lot>, t: Transaction)
    requires AboveEpsilon(lots) && t.side.Sell? && EPSILON < t.quantity <= Total(lots) + EPSILON
    ensures Apply(lots, t).Ok?
    ensures Total(Apply(lots, t).value) == Total(lots) - t.quantity
            <==> !LotBoundary(SortLots(lots), t.quantity - 1)
                 && !LotBoundary(SortLots(lots), t.quantity + 1)
  {
    ApplyIsQueueStep(lots, t);
    SortLotsKeeps(lots);
    SortLotsAboveEpsilon(lots);
    QueueLength(SortLots(lots));
    QueueLength(Apply(lots, t).value);
  }

  /** A sale of 3 units from a lot of 4 empties it: one unit is lost. */
  lemma ConservationFails()
    ensures var t := Transaction(1, Key("X", FUND), Sell, 3, None, CNY, 1, 1);
            Apply([Lot(4, 0, None)], t) == Ok([])
  {
    var lots := [Lot(4, 0, None)];
    assert SortLots(lots[1..]) == [];
    assert SortLots(lots) == lots;
    assert SellFrom(lots[1..], -1) == ([], -1);
  }
}
