/** Hour buckets and hourly prices: the grid on which history is rebuilt. */
module HourGrid {
  import opened Fixed
  import opened Wrappers

  /** Moments are microseconds; an hour bucket is named by its number. */
  const HOUR: int := 3_600_000_000

  function HourOf(moment: int): int { moment / HOUR }

  /** Every hour from first to last, once. */
  function HourRange(first: int, last: int): seq<int> {
    if last < first then [] else seq(last - first + 1, i => first + i)
  }

  method BuildHourBuckets(startAt: int, endAt: int) returns (hours: seq<int>)
    ensures hours == HourRange(HourOf(startAt), HourOf(endAt))
  {
    var first, last := HourOf(startAt), HourOf(endAt);
    if last < first {
      return [];
    }
    hours := [];
    var cursor := first;
    while cursor <= last
      invariant first <= cursor <= last + 1
      invariant hours == seq(cursor - first, i => first + i)
    {
      hours := hours + [cursor];
      cursor := cursor + 1;
    }
  }

  /** Prices from outside have any number of decimals: an exact fraction of units. */
  datatype Fraction = Fraction(n: int, d: int)
  type Ratio = r: Fraction | r.d > 0 witness Fraction(0, 1)

  function Quantized(r: Ratio): int { RoundDiv(r.n, r.d) }

  datatype Point = Point(at: int, price: Ratio)

  /** The price of an hour among the known points: positive ones only, the last one wins. */
  function KnownPrice(points: seq<Point>, h: int): Option<int> {
    if points == [] then None
    else
      var p := points[|points| - 1];
      if p.price.n > 0 && HourOf(p.at) == h then Some(Quantized(p.price))
      else KnownPrice(points[..|points| - 1], h)
  }

  /** A positive price stamped within the hour. */
  predicate PricedIn(p: Point, h: int) {
    p.price.n > 0 && h * 3_600_000_000 <= p.at < (h + 1) * 3_600_000_000
  }

  /** The last of the points priced within the hour. */
  predicate LastIn(points: seq<Point>, h: int, i: int) {
    0 <= i < |points| && PricedIn(points[i], h) && forall j :: i < j < |points| ==> !PricedIn(points[j], h)
  }

  /** Its price, to the nearest unit. */
  ghost predicate KnownAt(points: seq<Point>, h: int, price: int) {
    exists i :: LastIn(points, h, i) && IsNearest(points[i].price.n, points[i].price.d, price)
  }

  lemma HourContains(moment: int, h: int)
    ensures HourOf(moment) == h <==> h * 3_600_000_000 <= moment < (h + 1) * 3_600_000_000
  {
    DivBounds(moment, HOUR);
    if h * HOUR <= moment < (h + 1) * HOUR { MultipleGap(h, HourOf(moment), HOUR); }
  }

  /** Among several points of one hour the last positive one is known. */
  lemma {:induction false} KnownPriceIsLast(points: seq<Point>, h: int, price: int)
    ensures KnownPrice(points, h) == Some(price) <==> KnownAt(points, h, price)
  {
    if points == [] {
    } else {
      var n := |points| - 1;
      HourContains(points[n].at, h);
      if PricedIn(points[n], h) {
        NearestIsUnique(points[n].price.n, points[n].price.d, price);
        assert LastIn(points, h, n) && forall i :: LastIn(points, h, i) ==> i == n;
      } else {
        KnownPriceIsLast(points[..n], h, price);
        forall i ensures LastIn(points, h, i) <==> LastIn(points[..n], h, i) {}
      }
    }
  }

  /** The price used before any known one: the fallback if it is positive, or else the smallest
      known price, or else nothing. */
  ghost predicate IsDefault(points: seq<Point>, fallback: Ratio, price: int) {
    if Quantized(fallback) > 0 then price == Quantized(fallback)
    else if forall h :: KnownPrice(points, h).None? then price == 0
    else
      && (exists h :: KnownPrice(points, h) == Some(price))
      && NoneCheaper(points, price)
  }

  ghost predicate NoneCheaper(points: seq<Point>, price: int) {
    forall h :: KnownPrice(points, h).Some? ==> price <= KnownPrice(points, h).value
  }

  /** The price of the earliest known hour. */
  ghost predicate EarliestKnown(points: seq<Point>, g: int) {
    KnownPrice(points, g).Some? && forall h :: h < g ==> KnownPrice(points, h).None?
  }

  /** The default is the earliest known price exactly when the fallback says the same, or there is no fallback and no
      known price is smaller. */
  lemma DefaultIsEarliestExactlyWhen(points: seq<Point>, fallback: Ratio, price: int, g: int)
    requires IsDefault(points, fallback, price) && EarliestKnown(points, g)
    ensures var earliest := KnownPrice(points, g).value;
      price == earliest <==>
        if Quantized(fallback) > 0 then Quantized(fallback) == earliest
        else NoneCheaper(points, earliest)
  {
    if Quantized(fallback) <= 0 { SmallestIsUnique(points, price, g); }
  }

  lemma SmallestIsUnique(points: seq<Point>, price: int, g: int)
    requires KnownPrice(points, g).Some? && NoneCheaper(points, price)
    requires exists h :: KnownPrice(points, h) == Some(price)
    ensures price == KnownPrice(points, g).value <==> NoneCheaper(points, KnownPrice(points, g).value)
  {
    var h :| KnownPrice(points, h) == Some(price);
  }

  /** A price of 9 at the first hour and of 5 an hour later: without a fallback the default is 5. */
  lemma DefaultCanBeALaterPrice()
    ensures var points := [Point(0, Fraction(9, 1)), Point(HOUR, Fraction(5, 1))];
      EarliestKnown(points, 0) && KnownPrice(points, 0) == Some(9) && IsDefault(points, Fraction(0, 1), 5)
      && !IsDefault(points, Fraction(0, 1), 9)
  {
    var points := [Point(0, Fraction(9, 1)), Point(HOUR, Fraction(5, 1))];
    assert points[..1] == [points[0]] && points[..1][..0] == [];
    RoundDivByOne(9);
    RoundDivByOne(5);
    forall h ensures KnownPrice(points, h) == if h == 0 then Some(9) else if h == 1 then Some(5) else None {
      assert KnownPrice(points[..1], h) == if h == 0 then Some(9) else None;
    }
    assert KnownPrice(points, 1) == Some(5);
  }

  /** The known price carried to an hour from the first hour on. */
  function Carried(points: seq<Point>, first: int, h: int): Option<int>
    decreases if h < first then 0 else h - first
  {
    if KnownPrice(points, h).Some? || h <= first then KnownPrice(points, h)
    else Carried(points, first, h - 1)
  }

  function FillAt(points: seq<Point>, start: int, first: int, h: int): int {
    var carried := Carried(points, first, h);
    if carried.Some? then carried.value else start
  }

  /** g is the latest known hour from first to h. */
  ghost predicate LatestKnown(points: seq<Point>, first: int, h: int, g: int) {
    && first <= g <= h && KnownPrice(points, g).Some?
    && forall k :: g < k <= h ==> KnownPrice(points, k).None?
  }

  /** Forward fill is exact: the price of an hour is that of the latest known hour since the first
      one, or the starting price when there is none. */
  lemma {:induction false} FillIsLatestKnown(points: seq<Point>, start: int, first: int, h: int)
    requires first <= h
    ensures forall g :: LatestKnown(points, first, h, g) ==>
              FillAt(points, start, first, h) == KnownPrice(points, g).value
    ensures (forall g :: first <= g <= h ==> KnownPrice(points, g).None?) ==> FillAt(points, start, first, h) == start
    decreases h - first
  {
    if first < h {
      FillIsLatestKnown(points, start, first, h - 1);
      forall g | LatestKnown(points, first, h, g)
        ensures FillAt(points, start, first, h) == KnownPrice(points, g).value
      {
        if g < h { assert LatestKnown(points, first, h - 1, g); }
      }
    }
  }

  /** Collects the known prices by hour. */
  method KnownPrices(points: seq<Point>) returns (known: map<int, int>)
    ensures forall h :: h in known <==> KnownPrice(points, h).Some?
    ensures forall h :: h in known ==> known[h] == KnownPrice(points, h).value
  {
    known := map[];
    for i := 0 to |points|
      invariant forall h :: h in known <==> KnownPrice(points[..i], h).Some?
      invariant forall h :: h in known ==> known[h] == KnownPrice(points[..i], h).value
    {
      assert points[..i + 1][..i] == points[..i];
      var p := points[i];
      if p.price.n > 0 {
        known := known[HourOf(p.at) := Quantized(p.price)];
      }
    }
    assert points[..|points|] == points;
  }

  /** The smallest of the known prices. */
  method SmallestPrice(known: map<int, int>) returns (smallest: Option<int>)
    ensures smallest.None? <==> known == map[]
    ensures smallest.Some? ==> (exists h :: h in known && known[h] == smallest.value)
    ensures smallest.Some? ==> forall h :: h in known ==> smallest.value <= known[h]
  {
    smallest := None;
    var pending := known.Keys;
    while pending != {}
      invariant pending <= known.Keys
      invariant smallest.None? <==> pending == known.Keys
      invariant smallest.Some? ==> exists h :: h in known && known[h] == smallest.value
      invariant smallest.Some? ==> forall h :: h in known && h !in pending ==> smallest.value <= known[h]
      decreases pending
    {
      ghost var member := Member(pending);
      var h :| h in pending;
      if smallest.None? || known[h] < smallest.value {
        smallest := Some(known[h]);
      }
      pending := pending - {h};
    }
    if known.Keys == {} { assert known == map[]; }
  }

  method StartingPrice(points: seq<Point>, known: map<int, int>, fallback: Ratio) returns (price: int)
    requires forall h :: h in known <==> KnownPrice(points, h).Some?
    requires forall h :: h in known ==> known[h] == KnownPrice(points, h).value
    ensures IsDefault(points, fallback, price)
  {
    var smallest := SmallestPrice(known);
    price := if Quantized(fallback) > 0 then Quantized(fallback)
             else if smallest.Some? then smallest.value else 0;
    if smallest.Some? {
      var h :| h in known && known[h] == smallest.value;
      assert KnownPrice(points, h) == Some(smallest.value);
    }
  }

  method FillForward(hours: seq<int>, ghost first: int, ghost last: int, ghost points: seq<Point>,
                     known: map<int, int>, price: int)
    returns (filled: map<int, int>)
    requires hours == HourRange(first, last)
    requires forall h :: h in known <==> KnownPrice(points, h).Some?
    requires forall h :: h in known ==> known[h] == KnownPrice(points, h).value
    ensures forall h :: first <= h <= last ==> h in filled && filled[h] == FillAt(points, price, first, h)
  {
    var lastKnown: Option<int> := None;
    filled := map[];
    for i := 0 to |hours|
      invariant forall h :: first <= h < first + i ==> h in filled && filled[h] == FillAt(points, price, first, h)
      invariant lastKnown == if i == 0 then None else Carried(points, first, first + i - 1)
    {
      var hour := hours[i];
      if hour in known {
        lastKnown := Some(known[hour]);
        filled := filled[hour := known[hour]];
      } else if lastKnown.Some? {
        filled := filled[hour := lastKnown.value];
      } else {
        filled := filled[hour := price];
      }
      assert lastKnown == Carried(points, first, hour);
    }
  }

  /** Every hour has the carried price, or the starting one. */
  ghost predicate FilledFrom(filled: map<int, int>, start: int, points: seq<Point>, first: int, last: int) {
    forall h :: first <= h <= last ==> h in filled && filled[h] == FillAt(points, start, first, h)
  }

  method FillHourlyPrices(hours: seq<int>, ghost first: int, ghost last: int, points: seq<Point>, fallback: Ratio)
    returns (filled: map<int, int>)
    requires hours == HourRange(first, last)
    ensures exists start :: IsDefault(points, fallback, start) && FilledFrom(filled, start, points, first, last)
  {
    var known := KnownPrices(points);
    var start := StartingPrice(points, known, fallback);
    filled := FillForward(hours, first, last, points, known, start);
    assert FilledFrom(filled, start, points, first, last);
  }
}
