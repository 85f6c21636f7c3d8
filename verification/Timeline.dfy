/** Timelines: the latest snapshot of each reporting bucket. */
module Timeline {
  import opened Fixed
  import opened Wrappers

  /** Local time: year, month, day, hour, minute, second, microsecond. */
  const FIRST: seq<int> := [1, 1, 1, 0, 0, 0, 0]

  type Stamp = s: seq<int> | |s| == 7 witness [1, 1, 1, 0, 0, 0, 0]

  datatype Granularity = Year | Month | Day | Hour | Minute | Second

  function Kept(g: Granularity): nat {
    match g case Year => 1 case Month => 2 case Day => 3 case Hour => 4 case Minute => 5 case Second => 6
  }

  function Bucket(t: Stamp, g: Granularity): Stamp { t[..Kept(g)] + FIRST[Kept(g)..] }

  /** A bucket begins where every smaller part of the local time has its first value. */
  lemma BucketBegins(t: Stamp, g: Granularity)
    ensures Bucket(t, g) ==
      match g
      case Year => [t[0], 1, 1, 0, 0, 0, 0]
      case Month => [t[0], t[1], 1, 0, 0, 0, 0]
      case Day => [t[0], t[1], t[2], 0, 0, 0, 0]
      case Hour => [t[0], t[1], t[2], t[3], 0, 0, 0]
      case Minute => [t[0], t[1], t[2], t[3], t[4], 0, 0]
      case Second => [t[0], t[1], t[2], t[3], t[4], t[5], 0]
  {
    forall i | 0 <= i < 7 ensures Bucket(t, g)[i] == if i < Kept(g) then t[i] else FIRST[i] {}
  }

  // ---- the order of timestamps ----

  predicate EarlierFrom(a: Stamp, b: Stamp, i: nat)
    decreases 7 - i
  {
    i < 7 && (a[i] < b[i] || (a[i] == b[i] && EarlierFrom(a, b, i + 1)))
  }

  predicate Earlier(a: Stamp, b: Stamp) { EarlierFrom(a, b, 0) }

  /** The first part in which two times differ decides. */
  predicate DiffersAt(a: Stamp, b: Stamp, k: int) {
    0 <= k < 7 && a[k] < b[k] && forall j :: 0 <= j < k ==> a[j] == b[j]
  }

  lemma {:induction false} EarlierFromIsFirstDifference(a: Stamp, b: Stamp, i: nat)
    requires i <= 7 && forall j :: 0 <= j < i ==> a[j] == b[j]
    ensures EarlierFrom(a, b, i) <==> exists k :: i <= k && DiffersAt(a, b, k)
    decreases 7 - i
  {
    if i < 7 && a[i] == b[i] {
      EarlierFromIsFirstDifference(a, b, i + 1);
    } else if i < 7 && a[i] < b[i] {
      assert DiffersAt(a, b, i);
    }
  }

  lemma EarlierIsFirstDifference(a: Stamp, b: Stamp)
    ensures Earlier(a, b) <==> exists k :: DiffersAt(a, b, k)
  {
    EarlierFromIsFirstDifference(a, b, 0);
  }

  lemma {:induction false} TotalFrom(a: Stamp, b: Stamp, i: nat)
    requires i <= 7
    ensures EarlierFrom(a, b, i) || EarlierFrom(b, a, i) <==> a[i..] != b[i..]
    ensures !(EarlierFrom(a, b, i) && EarlierFrom(b, a, i))
    decreases 7 - i
  {
    if i == 7 {
    } else {
      TotalFrom(a, b, i + 1);
      assert a[i..] == [a[i]] + a[i + 1..] && b[i..] == [b[i]] + b[i + 1..];
    }
  }

  lemma Total(a: Stamp, b: Stamp)
    ensures Earlier(a, b) || Earlier(b, a) <==> a != b
    ensures !(Earlier(a, b) && Earlier(b, a))
  {
    TotalFrom(a, b, 0);
    assert a[0..] == a && b[0..] == b;
  }

  lemma {:induction false} TransitiveFrom(a: Stamp, b: Stamp, c: Stamp, i: nat)
    requires i <= 7 && EarlierFrom(a, b, i) && EarlierFrom(b, c, i)
    ensures EarlierFrom(a, c, i)
    decreases 7 - i
  {
    if a[i] == b[i] == c[i] { TransitiveFrom(a, b, c, i + 1); }
  }

  lemma Transitive(a: Stamp, b: Stamp, c: Stamp)
    requires !Earlier(b, a) && !Earlier(c, b)
    ensures !Earlier(c, a)
  {
    Total(a, b);
    Total(b, c);
    Total(a, c);
    if Earlier(a, b) && Earlier(b, c) { TransitiveFrom(a, b, c, 0); }
  }

  lemma {:induction false} BucketKeepsOrderFrom(a: Stamp, b: Stamp, g: Granularity, i: nat)
    requires i <= 7 && EarlierFrom(Bucket(a, g), Bucket(b, g), i)
    ensures EarlierFrom(a, b, i)
    decreases 7 - i
  {
    var x, y := Bucket(a, g), Bucket(b, g);
    assert i < Kept(g) ==> x[i] == a[i] && y[i] == b[i];
    assert i >= Kept(g) ==> x[i] == y[i];
    if x[i] == y[i] { BucketKeepsOrderFrom(a, b, g, i + 1); }
    if i >= Kept(g) { SameTail(x, y, g, i); }
  }

  lemma {:induction false} SameTail(x: Stamp, y: Stamp, g: Granularity, i: nat)
    requires Kept(g) <= i <= 7 && forall k :: i <= k < 7 ==> x[k] == y[k]
    ensures !EarlierFrom(x, y, i)
    decreases 7 - i
  {
    if i == 7 {
    } else {
      SameTail(x, y, g, i + 1);
    }
  }

  /** A stamp that is not later has a bucket that is not later. */
  lemma BucketIsMonotone(a: Stamp, b: Stamp, g: Granularity)
    requires !Earlier(b, a)
    ensures !Earlier(Bucket(b, g), Bucket(a, g))
  {
    if Earlier(Bucket(b, g), Bucket(a, g)) { BucketKeepsOrderFrom(b, a, g, 0); }
  }

  /** Bucketing finely first changes nothing. */
  lemma BucketsNest(t: Stamp, fine: Granularity, coarse: Granularity)
    requires Kept(coarse) <= Kept(fine)
    ensures Bucket(Bucket(t, fine), coarse) == Bucket(t, coarse)
  {
  }

  // ---- the latest snapshot of a bucket ----

  datatype Snapshot = Snapshot(at: Stamp, value: int)

  datatype Point = Point(at: Stamp, value: int, corrected: bool)

  lemma DisplayIsStable(v: int)
    ensures Display(Display(v)) == Display(v)
  {
    RoundDivExact(RoundDiv(v, CENT), CENT);
  }

  /** The snapshot a one-pass scan keeps: a later or equally late one replaces it. */
  function Winner(items: seq<Snapshot>, g: Granularity, b: Stamp): (w: Option<nat>)
    ensures w.Some? ==> w.value < |items|
  {
    if items == [] then None
    else
      var n := |items| - 1;
      var before := Winner(items[..n], g, b);
      if Bucket(items[n].at, g) == b && (before.None? || !Earlier(items[n].at, items[before.value].at)) then Some(n)
      else before
  }

  predicate InBucket(items: seq<Snapshot>, g: Granularity, b: Stamp, i: int) {
    0 <= i < |items| && Bucket(items[i].at, g) == b
  }

  /** In the bucket, not earlier than any other there, and the last of the equally late. */
  ghost predicate IsLatest(items: seq<Snapshot>, g: Granularity, b: Stamp, i: nat) {
    && InBucket(items, g, b, i)
    && forall j :: InBucket(items, g, b, j) ==>
         !Earlier(items[i].at, items[j].at) && (items[j].at == items[i].at ==> j <= i)
  }

  ghost predicate KeepsLatest(items: seq<Snapshot>, g: Granularity, b: Stamp) {
    var w := Winner(items, g, b);
    if w.None? then forall j :: !InBucket(items, g, b, j) else IsLatest(items, g, b, w.value)
  }

  lemma {:induction false} ScanKeepsLatest(items: seq<Snapshot>, g: Granularity, b: Stamp)
    ensures KeepsLatest(items, g, b)
  {
    if items == [] {
    } else {
      var n := |items| - 1;
      var rest := items[..n];
      ScanKeepsLatest(rest, g, b);
      assert forall j :: 0 <= j < n ==> rest[j] == items[j];
      assert forall j :: InBucket(items, g, b, j) ==> j == n || InBucket(rest, g, b, j);
      var w := Winner(items, g, b);
      if w.Some? {
        forall j | InBucket(items, g, b, j)
          ensures !Earlier(items[w.value].at, items[j].at) && (items[j].at == items[w.value].at ==> j <= w.value)
        {
          LaterOf(items, g, b, j);
        }
      }
    }
  }

  lemma LaterOf(items: seq<Snapshot>, g: Granularity, b: Stamp, j: nat)
    requires items != [] && InBucket(items, g, b, j) && Winner(items, g, b).Some?
    requires KeepsLatest(items[..|items| - 1], g, b)
    ensures var w := Winner(items, g, b).value;
      !Earlier(items[w].at, items[j].at) && (items[j].at == items[w].at ==> j <= w)
  {
    var n := |items| - 1;
    var before := Winner(items[..n], g, b);
    Total(items[n].at, items[j].at);
    if j < n { assert InBucket(items[..n], g, b, j); }
    if before.Some? {
      Total(items[n].at, items[before.value].at);
      if j < n && Winner(items, g, b) == Some(n) {
        Transitive(items[j].at, items[before.value].at, items[n].at);
      }
    }
  }

  /** The scan's result is the latest snapshot, and there is only one. */
  lemma WinnerIsLatest(items: seq<Snapshot>, g: Granularity, b: Stamp, i: nat)
    ensures Winner(items, g, b) == Some(i) <==> IsLatest(items, g, b, i)
  {
    ScanKeepsLatest(items, g, b);
    var w := Winner(items, g, b);
    if IsLatest(items, g, b, i) && w.Some? { Total(items[i].at, items[w.value].at); }
  }

  // ---- timelines ----

  predicate Increasing(points: seq<Point>) {
    forall i, j :: 0 <= i < j < |points| ==> Earlier(points[i].at, points[j].at)
  }

  predicate Shows(p: Point, items: seq<Snapshot>, g: Granularity) {
    Winner(items, g, p.at).Some? && p == Point(p.at, Display(items[Winner(items, g, p.at).value].value), false)
  }

  predicate HasPoint(points: seq<Point>, b: Stamp) { exists i :: 0 <= i < |points| && points[i].at == b }

  predicate Covers(points: seq<Point>, items: seq<Snapshot>, g: Granularity) {
    forall j :: 0 <= j < |items| ==> HasPoint(points, Bucket(items[j].at, g))
  }

  /** One point for each bucket that holds a snapshot, in time order, showing the latest. */
  predicate IsTimeline(points: seq<Point>, items: seq<Snapshot>, g: Granularity) {
    && Increasing(points)
    && (forall i :: 0 <= i < |points| ==> Shows(points[i], items, g))
    && Covers(points, items, g)
  }

  ghost predicate SamePoints(p: seq<Point>, q: seq<Point>) { forall x :: x in p <==> x in q }

  lemma {:induction false} IncreasingIsUnique(p: seq<Point>, q: seq<Point>)
    requires Increasing(p) && Increasing(q) && SamePoints(p, q)
    ensures p == q
  {
    assert |p| > 0 ==> p[0] in q;
    assert |q| > 0 ==> q[0] in p;
    if p == [] || q == [] {
    } else {
      FrontsMatch(p, q);
      IncreasingIsUnique(p[..|p| - 1], q[..|q| - 1]);
      assert p == p[..|p| - 1] + [p[|p| - 1]] && q == q[..|q| - 1] + [q[|q| - 1]];
    }
  }

  lemma FrontsMatch(p: seq<Point>, q: seq<Point>)
    requires Increasing(p) && Increasing(q) && p != [] && q != [] && SamePoints(p, q)
    ensures p[|p| - 1] == q[|q| - 1] && SamePoints(p[..|p| - 1], q[..|q| - 1])
  {
    LastIsLast(p, q);
    FrontHasTheRest(p);
    FrontHasTheRest(q);
    var m, n := |p| - 1, |q| - 1;
    forall x ensures x in p[..m] <==> x in q[..n] {
      assert x in p[..m] <==> x in p && x != p[m];
      assert x in q[..n] <==> x in q && x != q[n];
    }
  }

  lemma FrontHasTheRest(p: seq<Point>)
    requires Increasing(p) && p != []
    ensures forall x :: x in p[..|p| - 1] <==> x in p && x != p[|p| - 1]
  {
    var front, last := p[..|p| - 1], p[|p| - 1];
    assert p == front + [last];
    forall i | 0 <= i < |front| ensures front[i] != last { Total(p[i].at, last.at); }
  }

  lemma LastIsLast(p: seq<Point>, q: seq<Point>)
    requires Increasing(p) && Increasing(q) && p != [] && q != []
    requires p[|p| - 1] in q && q[|q| - 1] in p
    ensures p[|p| - 1] == q[|q| - 1]
  {
    var i :| 0 <= i < |q| && q[i] == p[|p| - 1];
    var j :| 0 <= j < |p| && p[j] == q[|q| - 1];
    Total(p[|p| - 1].at, q[|q| - 1].at);
  }

  lemma PointIsShared(p: seq<Point>, q: seq<Point>, items: seq<Snapshot>, g: Granularity, x: Point)
    requires IsTimeline(p, items, g) && IsTimeline(q, items, g) && x in p
    ensures x in q
  {
    assert Shows(x, items, g);
    ScanKeepsLatest(items, g, x.at);
    var w := Winner(items, g, x.at).value;
    assert HasPoint(q, Bucket(items[w].at, g));
    var j :| 0 <= j < |q| && q[j].at == x.at;
    assert Shows(q[j], items, g);
  }

  /** The snapshots determine the timeline. */
  lemma TimelineIsUnique(p: seq<Point>, q: seq<Point>, items: seq<Snapshot>, g: Granularity)
    requires IsTimeline(p, items, g) && IsTimeline(q, items, g)
    ensures p == q
  {
    forall x ensures x in p <==> x in q {
      if x in p { PointIsShared(p, q, items, g, x); }
      if x in q { PointIsShared(q, p, items, g, x); }
    }
    IncreasingIsUnique(p, q);
  }

  // ---- collapsing in two steps ----

  /** A timeline read as snapshots taken at its timestamps. */
  function AsSnapshots(points: seq<Point>): seq<Snapshot> {
    seq(|points|, i requires 0 <= i < |points| => Snapshot(points[i].at, points[i].value))
  }

  lemma FinePointInCoarse(fine: seq<Point>, items: seq<Snapshot>, gf: Granularity, gc: Granularity, y: nat)
    requires IsTimeline(fine, items, gf) && Kept(gc) <= Kept(gf) && y < |fine|
    ensures var w := Winner(items, gf, fine[y].at);
      w.Some? && IsLatest(items, gf, fine[y].at, w.value) && InBucket(items, gc, Bucket(fine[y].at, gc), w.value)
  {
    assert Shows(fine[y], items, gf);
    ScanKeepsLatest(items, gf, fine[y].at);
    BucketsNest(items[Winner(items, gf, fine[y].at).value].at, gf, gc);
  }

  predicate Mirrors(s: seq<Snapshot>, points: seq<Point>) {
    |s| == |points| && forall i :: 0 <= i < |s| ==> s[i] == Snapshot(points[i].at, points[i].value)
  }

  lemma NoneThrough(fine: seq<Point>, s: seq<Snapshot>, items: seq<Snapshot>, gf: Granularity, gc: Granularity,
                    b: Stamp)
    requires IsTimeline(fine, items, gf) && Kept(gc) <= Kept(gf) && Mirrors(s, fine)
    ensures Winner(s, gc, b).Some? ==> Winner(items, gc, b).Some?
  {
    ScanKeepsLatest(items, gc, b);
    ScanKeepsLatest(s, gc, b);
    var x := Winner(s, gc, b);
    if x.Some? { FinePointInCoarse(fine, items, gf, gc, x.value); }
  }

  lemma LatestStaysLatest(items: seq<Snapshot>, gf: Granularity, gc: Granularity, b: Stamp, w: nat)
    requires Kept(gc) <= Kept(gf) && IsLatest(items, gc, b, w)
    ensures IsLatest(items, gf, Bucket(items[w].at, gf), w)
  {
    forall j | InBucket(items, gf, Bucket(items[w].at, gf), j) ensures InBucket(items, gc, b, j) {
      BucketsNest(items[j].at, gf, gc);
      BucketsNest(items[w].at, gf, gc);
    }
  }

  lemma NotLaterThrough(fine: seq<Point>, items: seq<Snapshot>, gf: Granularity, gc: Granularity, b: Stamp,
                        w: nat, y: nat)
    requires IsTimeline(fine, items, gf) && Kept(gc) <= Kept(gf) && IsLatest(items, gc, b, w)
    requires y < |fine| && Bucket(fine[y].at, gc) == b
    ensures !Earlier(Bucket(items[w].at, gf), fine[y].at)
  {
    FinePointInCoarse(fine, items, gf, gc, y);
    BucketIsMonotone(items[Winner(items, gf, fine[y].at).value].at, items[w].at, gf);
  }

  /** The fine point that shows the latest snapshot of a coarse bucket. */
  lemma LatestIsShown(fine: seq<Point>, items: seq<Snapshot>, gf: Granularity, gc: Granularity, b: Stamp, w: nat)
    returns (x: nat)
    requires IsTimeline(fine, items, gf) && Kept(gc) <= Kept(gf) && IsLatest(items, gc, b, w)
    ensures x < |fine| && fine[x].at == Bucket(items[w].at, gf) && fine[x].value == Display(items[w].value)
    ensures Bucket(fine[x].at, gc) == b
  {
    LatestStaysLatest(items, gf, gc, b, w);
    var f := Bucket(items[w].at, gf);
    WinnerIsLatest(items, gf, f, w);
    assert HasPoint(fine, f);
    x :| 0 <= x < |fine| && fine[x].at == f;
    assert Shows(fine[x], items, gf);
    BucketsNest(items[w].at, gf, gc);
  }

  lemma ShownIsLatest(fine: seq<Point>, s: seq<Snapshot>, items: seq<Snapshot>, gf: Granularity, gc: Granularity,
                      b: Stamp, w: nat, x: nat)
    requires IsTimeline(fine, items, gf) && Kept(gc) <= Kept(gf) && IsLatest(items, gc, b, w) && Mirrors(s, fine)
    requires x < |fine| && fine[x].at == Bucket(items[w].at, gf) && Bucket(fine[x].at, gc) == b
    ensures IsLatest(s, gc, b, x)
  {
    forall y | InBucket(s, gc, b, y) ensures !Earlier(s[x].at, s[y].at) && (s[y].at == s[x].at ==> y <= x) {
      NotLaterThrough(fine, items, gf, gc, b, w, y);
      if x < y { Total(fine[x].at, fine[y].at); }
    }
  }

  lemma WinnerThrough(fine: seq<Point>, s: seq<Snapshot>, items: seq<Snapshot>, gf: Granularity, gc: Granularity,
                      b: Stamp)
    returns (x: nat)
    requires IsTimeline(fine, items, gf) && Kept(gc) <= Kept(gf) && Winner(items, gc, b).Some? && Mirrors(s, fine)
    ensures Winner(s, gc, b) == Some(x) && s[x].value == Display(items[Winner(items, gc, b).value].value)
  {
    var w := Winner(items, gc, b).value;
    WinnerIsLatest(items, gc, b, w);
    x := LatestIsShown(fine, items, gf, gc, b, w);
    ShownIsLatest(fine, s, items, gf, gc, b, w, x);
    WinnerIsLatest(s, gc, b, x);
  }

  lemma SameBucketShown(fine: seq<Point>, s: seq<Snapshot>, items: seq<Snapshot>, gf: Granularity, gc: Granularity,
                        p: Point)
    requires IsTimeline(fine, items, gf) && Kept(gc) <= Kept(gf) && Mirrors(s, fine)
    ensures Shows(p, items, gc) <==> Shows(p, s, gc)
  {
    NoneThrough(fine, s, items, gf, gc, p.at);
    if Winner(items, gc, p.at).Some? {
      var x := WinnerThrough(fine, s, items, gf, gc, p.at);
      DisplayIsStable(items[Winner(items, gc, p.at).value].value);
    }
  }

  lemma FineIsCovered(coarse: seq<Point>, fine: seq<Point>, s: seq<Snapshot>, items: seq<Snapshot>,
                      gf: Granularity, gc: Granularity)
    requires IsTimeline(fine, items, gf) && Kept(gc) <= Kept(gf) && Mirrors(s, fine) && Covers(coarse, items, gc)
    ensures Covers(coarse, s, gc)
  {
    forall y | 0 <= y < |s| ensures HasPoint(coarse, Bucket(s[y].at, gc)) {
      FinePointInCoarse(fine, items, gf, gc, y);
    }
  }

  lemma ItemsAreCovered(coarse: seq<Point>, fine: seq<Point>, s: seq<Snapshot>, items: seq<Snapshot>,
                        gf: Granularity, gc: Granularity)
    requires IsTimeline(fine, items, gf) && Kept(gc) <= Kept(gf) && Mirrors(s, fine) && Covers(coarse, s, gc)
    ensures Covers(coarse, items, gc)
  {
    forall j | 0 <= j < |items| ensures HasPoint(coarse, Bucket(items[j].at, gc)) {
      assert HasPoint(fine, Bucket(items[j].at, gf));
      var y :| 0 <= y < |fine| && fine[y].at == Bucket(items[j].at, gf);
      assert s[y].at == fine[y].at;
      BucketsNest(items[j].at, gf, gc);
    }
  }

  /** Collapsing to a coarse granularity is collapsing to a finer one and collapsing that again. */
  lemma TimelinesCompose(coarse: seq<Point>, fine: seq<Point>, items: seq<Snapshot>, gf: Granularity, gc: Granularity)
    requires IsTimeline(fine, items, gf) && Kept(gc) <= Kept(gf)
    ensures IsTimeline(coarse, items, gc) <==> IsTimeline(coarse, AsSnapshots(fine), gc)
  {
    var s := AsSnapshots(fine);
    forall i | 0 <= i < |coarse| ensures Shows(coarse[i], items, gc) <==> Shows(coarse[i], s, gc) {
      SameBucketShown(fine, s, items, gf, gc, coarse[i]);
    }
    if Covers(coarse, items, gc) { FineIsCovered(coarse, fine, s, items, gf, gc); }
    if Covers(coarse, s, gc) { ItemsAreCovered(coarse, fine, s, items, gf, gc); }
  }

  // ---- the timeline builder ----

  predicate AllNotEarlier(s: set<Stamp>, t: Stamp) { forall u :: u in s ==> !Earlier(u, t) }

  method Earliest(keys: set<Stamp>) returns (t: Stamp)
    requires keys != {}
    ensures t in keys && AllNotEarlier(keys, t)
  {
    ghost var member := Member(keys);
    t :| t in keys;
    var todo := keys - {t};
    Total(t, t);
    while todo != {}
      invariant t in keys && todo <= keys
      invariant AllNotEarlier(keys - todo, t)
      decreases |todo|
    {
      ghost var member := Member(todo);
      var u :| u in todo;
      Total(u, u);
      if Earlier(u, t) {
        forall v | v in keys - todo ensures !Earlier(v, u) { Total(t, u); Transitive(u, t, v); }
        t := u;
      }
      todo := todo - {u};
    }
    assert keys - todo == keys;
  }

  predicate Ordered(order: seq<Stamp>) { forall i, j :: 0 <= i < j < |order| ==> Earlier(order[i], order[j]) }

  predicate AllBefore(order: seq<Stamp>, rest: set<Stamp>) {
    forall i, u :: 0 <= i < |order| && u in rest ==> Earlier(order[i], u)
  }

  lemma TakeEarliest(order: seq<Stamp>, rest: set<Stamp>, t: Stamp)
    requires Ordered(order) && AllBefore(order, rest) && t in rest && AllNotEarlier(rest, t)
    ensures Ordered(order + [t]) && AllBefore(order + [t], rest - {t})
  {
    forall u | u in rest - {t} ensures Earlier(t, u) { Total(t, u); }
  }

  method Sorted(keys: set<Stamp>) returns (order: seq<Stamp>)
    ensures Ordered(order) && forall t :: t in order <==> t in keys
  {
    order := [];
    var rest := keys;
    while rest != {}
      invariant Ordered(order) && AllBefore(order, rest) && rest <= keys
      invariant forall t :: t in keys <==> t in order || t in rest
      decreases |rest|
    {
      var t := Earliest(rest);
      TakeEarliest(order, rest, t);
      order, rest := order + [t], rest - {t};
    }
  }

  /** What the scan has kept for a bucket. */
  predicate Holds(buckets: map<Stamp, Snapshot>, items: seq<Snapshot>, g: Granularity, b: Stamp) {
    var w := Winner(items, g, b);
    if w.Some? then b in buckets && buckets[b] == items[w.value] else b !in buckets
  }

  ghost predicate HoldsAll(buckets: map<Stamp, Snapshot>, items: seq<Snapshot>, g: Granularity) {
    forall b: Stamp :: Holds(buckets, items, g, b)
  }

  method KeepLatest(buckets: map<Stamp, Snapshot>, items: seq<Snapshot>, g: Granularity, n: nat)
    returns (kept: map<Stamp, Snapshot>)
    requires n < |items| && HoldsAll(buckets, items[..n], g)
    ensures HoldsAll(kept, items[..n + 1], g)
  {
    var snapshot := items[n];
    var bucket := Bucket(snapshot.at, g);
    kept := buckets;
    assert items[..n + 1][..n] == items[..n];
    assert Holds(buckets, items[..n], g, bucket);
    if bucket !in buckets || !Earlier(snapshot.at, buckets[bucket].at) { kept := buckets[bucket := snapshot]; }
    var now := items[..n + 1];
    forall b: Stamp ensures Holds(kept, now, g, b) {
      assert Holds(buckets, items[..n], g, b);
    }
  }

  lemma KeptIsTimeline(points: seq<Point>, buckets: map<Stamp, Snapshot>, items: seq<Snapshot>, g: Granularity,
                       order: seq<Stamp>)
    requires HoldsAll(buckets, items, g) && Ordered(order) && forall t :: t in order <==> t in buckets
    requires |points| == |order| && forall i :: 0 <= i < |order| ==>
      order[i] in buckets && points[i] == Point(order[i], Display(buckets[order[i]].value), false)
    ensures IsTimeline(points, items, g)
  {
    forall i | 0 <= i < |points| ensures Shows(points[i], items, g) {
      assert Holds(buckets, items, g, order[i]);
    }
    forall j | 0 <= j < |items| ensures HasPoint(points, Bucket(items[j].at, g)) {
      var b := Bucket(items[j].at, g);
      ScanKeepsLatest(items, g, b);
      assert InBucket(items, g, b, j);
      assert Holds(buckets, items, g, b);
      var i :| 0 <= i < |order| && order[i] == b;
      assert points[i].at == b;
    }
  }

  method BuildTimeline(snapshots: seq<Snapshot>, g: Granularity) returns (points: seq<Point>)
    ensures IsTimeline(points, snapshots, g)
  {
    var buckets: map<Stamp, Snapshot> := map[];
    assert snapshots[..0] == [];
    for n := 0 to |snapshots|
      invariant HoldsAll(buckets, snapshots[..n], g)
    {
      buckets := KeepLatest(buckets, snapshots, g, n);
    }
    assert snapshots[..|snapshots|] == snapshots;
    var order := Sorted(buckets.Keys);
    points := [];
    for i := 0 to |order|
      invariant |points| == i
      invariant forall k :: 0 <= k < i ==>
        order[k] in buckets && points[k] == Point(order[k], Display(buckets[order[k]].value), false)
    {
      assert order[i] in order;
      points := points + [Point(order[i], Display(buckets[order[i]].value), false)];
    }
    KeptIsTimeline(points, buckets, snapshots, g, order);
  }
}
