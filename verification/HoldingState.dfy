/** The mutable projection state: transactions are applied one by one to a lot list. */
module HoldingState {
  import opened Fixed
  import opened Wrappers
  import opened Trades
  import opened Lots
  import opened Projection

  class ProjectedState {
    var lots: seq<Lot>

    constructor ()
      ensures lots == []
    {
      lots := [];
    }

    /** Applies one transaction.  A refused sale leaves the lots as they were. */
    method ApplyTransaction(t: Transaction) returns (accepted: bool)
      modifies this
      ensures accepted <==> Apply(old(lots), t).Ok?
      ensures lots == if accepted then Apply(old(lots), t).value else old(lots)
    {
      var quantity := Max(t.quantity, 0);
      if quantity <= EPSILON {
        return true;
      }
      if t.side.Adjust? {
        lots := [Lot(quantity, t.tradedOn, PositivePrice(t.price))];
        return true;
      }
      if t.side.Buy? {
        lots := lots + [Lot(quantity, t.tradedOn, PositivePrice(t.price))];
        return true;
      }
      var queue := SortLots(lots);
      var remaining := quantity;
      var next: seq<Lot> := [];
      assert queue[0..] == queue && [] + SellFrom(queue, quantity).0 == SellFrom(queue, quantity).0;
      for i := 0 to |queue|
        invariant SellFrom(queue, quantity)
               == (next + SellFrom(queue[i..], remaining).0, SellFrom(queue[i..], remaining).1)
        invariant lots == old(lots)
      {
        var lot := queue[i];
        assert queue[i..][1..] == queue[i + 1..];
        ghost var done, left := next, remaining;
        if remaining <= EPSILON {
          next := next + [lot];
        } else if lot.quantity <= remaining + EPSILON {
          remaining := remaining - lot.quantity;
        } else {
          next := next + [lot.(quantity := lot.quantity - remaining)];
          remaining := 0;
        }
        assert next + SellFrom(queue[i + 1..], remaining).0 == done + SellFrom(queue[i..], left).0;
      }
      assert queue[|queue|..] == [];
      if remaining > EPSILON {
        return false;
      }
      lots := next;
      return true;
    }
  }

  /** Projects a symbol's rows, given in any order. */
  method ProjectState(transactions: seq<Transaction>) returns (projected: Projected)
    ensures projected == Project(transactions)
  {
    if transactions == [] {
      return Empty;
    }
    var sorted := Sort(transactions);
    SortSorts(transactions);
    var state := new ProjectedState();
    for i := 0 to |sorted|
      invariant Replay(sorted[..i]) == Ok(state.lots)
      invariant fresh(state)
    {
      assert sorted[..i + 1][..i] == sorted[..i];
      var accepted := state.ApplyTransaction(sorted[i]);
      if !accepted {
        if Replay(sorted).Ok? { PrefixAccepted(sorted, i + 1); }
        return Rejected;
      }
    }
    assert sorted[..|sorted|] == sorted;
    return if Quantity(state.lots) <= EPSILON then Empty else Held(state.lots);
  }
}
