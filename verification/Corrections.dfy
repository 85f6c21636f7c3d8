/** Dashboard corrections: stored overrides and deletions of single timeline points. */
module Corrections {
  import opened Fixed
  import opened Wrappers
  import opened Timeline

  datatype Scope = PortfolioTotal | HoldingsReturnTotal | HoldingReturn

  datatype Action = Override | Delete

  datatype Correction = Correction(scope: Scope, symbol: Option<string>, granularity: Granularity, bucket: Stamp,
                                   action: Action, value: Option<int>, updatedAt: int)

  datatype Key = Key(scope: Scope, symbol: string, granularity: Granularity, at: Stamp)

  function UpperChar(c: char): char {
    if 'a' <= c <= 'z' then ((c as int) - 32) as char else c
  }

  function Upper(s: string): string { seq(|s|, i requires 0 <= i < |s| => UpperChar(s[i])) }

  function CorrectionKey(scope: Scope, symbol: Option<string>, g: Granularity, at: Stamp): Key {
    Key(scope, if symbol.Some? then Upper(symbol.value) else "", g, at)
  }

  /** The same letter, in either case. */
  predicate SameLetter(c: char, d: char) {
    c == d || ('a' <= c <= 'z' && c as int == d as int + 32) || ('a' <= d <= 'z' && d as int == c as int + 32)
  }

  /** Symbols are told apart by their letters only. */
  predicate SameLetters(s: string, u: string) {
    |s| == |u| && forall i :: 0 <= i < |s| ==> SameLetter(s[i], u[i])
  }

  lemma SymbolsMatchByLetters(scope: Scope, s: string, u: string, g: Granularity, at: Stamp)
    ensures CorrectionKey(scope, Some(s), g, at) == CorrectionKey(scope, Some(u), g, at) <==> SameLetters(s, u)
    ensures CorrectionKey(scope, None, g, at) == CorrectionKey(scope, Some(u), g, at) <==> u == ""
  {
    forall i | 0 <= i < |s| && i < |u| ensures SameLetter(s[i], u[i]) <==> Upper(s)[i] == Upper(u)[i] {}
  }

  function KeyOf(c: Correction): Key { CorrectionKey(c.scope, c.symbol, c.granularity, c.bucket) }

  // ---- creating a correction ----

  datatype Payload = Payload(scope: Scope, symbol: Option<string>, granularity: Granularity, at: Stamp,
                             action: Action, value: Option<int>)

  datatype Error = UnsupportedGranularity

  function Create(p: Payload, now: int): Result<Correction, Error> {
    if p.granularity == Second || p.granularity == Minute then Err(UnsupportedGranularity)
    else
      Ok(Correction(p.scope, if p.symbol.Some? && p.symbol.value != "" then Some(Upper(p.symbol.value)) else None,
                    p.granularity, Bucket(p.at, p.granularity), p.action,
                    if p.value.Some? then Some(Display(p.value.value)) else None, now))
  }

  /** A correction made at any moment of a bucket, in any letter case, is keyed to the bucket's point. */
  lemma CreatedForItsBucket(p: Payload, now: int, t: Stamp, symbol: Option<string>)
    requires Create(p, now).Ok?
    requires Bucket(t, p.granularity) == Bucket(p.at, p.granularity)
    requires CorrectionKey(p.scope, symbol, p.granularity, t) == CorrectionKey(p.scope, p.symbol, p.granularity, t)
    ensures KeyOf(Create(p, now).value) == CorrectionKey(p.scope, symbol, p.granularity, Bucket(t, p.granularity))
  {
    if p.symbol.Some? {
      assert Upper(Upper(p.symbol.value)) == Upper(p.symbol.value);
      assert p.symbol.value == "" ==> Upper(p.symbol.value) == "";
    }
  }

  // ---- the lookup ----

  /** The order rows are loaded in: by bucket, then by update time. */
  predicate Loaded(rows: seq<Correction>) {
    forall i, j :: 0 <= i < j < |rows| ==>
      Earlier(rows[i].bucket, rows[j].bucket) ||
      (rows[i].bucket == rows[j].bucket && rows[i].updatedAt <= rows[j].updatedAt)
  }

  function LastFor(rows: seq<Correction>, key: Key): Option<Correction> {
    if rows == [] then None
    else if KeyOf(rows[|rows| - 1]) == key then Some(rows[|rows| - 1])
    else LastFor(rows[..|rows| - 1], key)
  }

  /** The row found is of that key, and no row of that key was updated after it. */
  lemma {:induction false} LastUpdateWins(rows: seq<Correction>, key: Key)
    requires Loaded(rows)
    ensures LastFor(rows, key).None? <==> NoRowFor(rows, key)
    ensures LastFor(rows, key).Some? ==> UpdatedLast(LastFor(rows, key).value, rows, key)
  {
    if rows == [] {
    } else {
      var n := |rows| - 1;
      LastUpdateWins(rows[..n], key);
      forall i | 0 <= i < n && KeyOf(rows[i]) == KeyOf(rows[n]) ensures rows[i].updatedAt <= rows[n].updatedAt {
        Total(rows[i].bucket, rows[n].bucket);
      }
      assert rows == rows[..n] + [rows[n]];
    }
  }

  predicate NoRowFor(rows: seq<Correction>, key: Key) { forall i :: 0 <= i < |rows| ==> KeyOf(rows[i]) != key }

  predicate UpdatedLast(c: Correction, rows: seq<Correction>, key: Key) {
    && c in rows && KeyOf(c) == key
    && forall i :: 0 <= i < |rows| && KeyOf(rows[i]) == key ==> rows[i].updatedAt <= c.updatedAt
  }

  method LoadLookup(rows: seq<Correction>) returns (lookup: map<Key, Correction>)
    requires Loaded(rows)
    ensures Same(lookup, rows)
  {
    lookup := map[];
    assert rows[..0] == [];
    for n := 0 to |rows|
      invariant forall key :: Found(lookup, key) == LastFor(rows[..n], key)
    {
      lookup := lookup[KeyOf(rows[n]) := rows[n]];
      assert rows[..n + 1][..n] == rows[..n];
    }
    assert rows[..|rows|] == rows;
  }

  function Found(lookup: map<Key, Correction>, key: Key): Option<Correction> {
    if key in lookup then Some(lookup[key]) else None
  }

  // ---- applying corrections ----

  function Correct(p: Point, c: Option<Correction>): Option<Point> {
    if c.None? then Some(p)
    else if c.value.action == Delete then None
    else if c.value.value.None? then Some(p.(corrected := true))
    else Some(Point(p.at, Display(c.value.value.value), true))
  }

  /** What a timeline shows. */
  datatype Series = Series(scope: Scope, symbol: Option<string>, granularity: Granularity)

  function KeyAt(series: Series, at: Stamp): Key { CorrectionKey(series.scope, series.symbol, series.granularity, at) }

  function Fix(p: Point, lookup: map<Key, Correction>, series: Series): Option<Point> {
    Correct(p, Found(lookup, KeyAt(series, p.at)))
  }

  ghost predicate Origin(q: Point, points: seq<Point>, lookup: map<Key, Correction>, series: Series) {
    exists p :: p in points && Fix(p, lookup, series) == Some(q)
  }

  /** Each point is kept, changed or removed by the correction of its own key; nothing is added, and time order is
      kept. */
  ghost predicate IsCorrected(result: seq<Point>, points: seq<Point>, lookup: map<Key, Correction>, series: Series) {
    Increasing(result) && forall q :: q in result <==> Origin(q, points, lookup, series)
  }

  predicate Precede(points: seq<Point>, t: Stamp) { forall i :: 0 <= i < |points| ==> Earlier(points[i].at, t) }

  method ApplyCorrections(points: seq<Point>, lookup: map<Key, Correction>, series: Series) returns (result: seq<Point>)
    requires Increasing(points)
    ensures IsCorrected(result, points, lookup, series)
  {
    result := [];
    for n := 0 to |points|
      invariant IsCorrected(result, points[..n], lookup, series)
      invariant forall i :: n <= i < |points| ==> Precede(result, points[i].at)
    {
      ghost var next := points[n].at;
      var correction := Found(lookup, KeyAt(series, points[n].at));
      LaterPoints(result, points, n, Fix(points[n], lookup, series));
      if correction.None? {
        result := result + [points[n]];
      } else if correction.value.action == Override {
        var value := if correction.value.value.Some? then Display(correction.value.value.value) else points[n].value;
        result := result + [points[n].(value := value, corrected := true)];
      }
    }
    assert points[..|points|] == points;
  }

  function Followed(result: seq<Point>, p: Option<Point>): seq<Point> { if p.Some? then result + [p.value] else result }

  lemma LaterPoints(result: seq<Point>, points: seq<Point>, n: nat, fixed: Option<Point>)
    requires n < |points| && Increasing(points) && (fixed.Some? ==> fixed.value.at == points[n].at)
    requires forall i :: n <= i < |points| ==> Precede(result, points[i].at)
    ensures forall i :: n + 1 <= i < |points| ==> Precede(Followed(result, fixed), points[i].at)
  {
  }

  // ---- what one correction changes ----

  ghost predicate Same(lookup: map<Key, Correction>, rows: seq<Correction>) {
    forall key :: Found(lookup, key) == LastFor(rows, key)
  }

  lemma {:induction false} LastForAppended(front: seq<Correction>, back: seq<Correction>, key: Key)
    ensures LastFor(front + back, key) == if LastFor(back, key).Some? then LastFor(back, key) else LastFor(front, key)
  {
    if back == [] {
      assert front + back == front;
    } else {
      assert (front + back)[..|front + back| - 1] == front + back[..|back| - 1];
      LastForAppended(front, back[..|back| - 1], key);
    }
  }

  lemma NoLaterRow(front: seq<Correction>, back: seq<Correction>, c: Correction)
    requires Loaded(front + [c] + back)
    requires forall d :: d in back && KeyOf(d) == KeyOf(c) ==> d.updatedAt < c.updatedAt
    ensures forall i :: 0 <= i < |back| ==> KeyOf(back[i]) != KeyOf(c)
  {
    var rows := front + [c] + back;
    forall i | 0 <= i < |back| ensures KeyOf(back[i]) != KeyOf(c) {
      assert rows[|front|] == c && rows[|front| + 1 + i] == back[i];
      Total(c.bucket, back[i].bucket);
      assert back[i] in back;
    }
  }

  /** A new row, updated after every row of its own key, decides that key and no other. */
  lemma NewRowDecidesItsKey(front: seq<Correction>, back: seq<Correction>, c: Correction, key: Key)
    requires Loaded(front + [c] + back)
    requires forall d :: d in back && KeyOf(d) == KeyOf(c) ==> d.updatedAt < c.updatedAt
    ensures LastFor(front + [c] + back, key) == if key == KeyOf(c) then Some(c) else LastFor(front + back, key)
  {
    var rows := front + [c] + back;
    LastForAppended(front + [c], back, key);
    LastForAppended(front, [c], key);
    LastForAppended(front, back, key);
    assert LastFor([], key) == None && [c][..0] == [];
    if key == KeyOf(c) {
      NoLaterRow(front, back, c);
      NoRowNoneFound(back, key);
    }
  }

  lemma {:induction false} NoRowNoneFound(rows: seq<Correction>, key: Key)
    requires forall i :: 0 <= i < |rows| ==> KeyOf(rows[i]) != key
    ensures LastFor(rows, key) == None
  {
    if rows == [] {
    } else {
      NoRowNoneFound(rows[..|rows| - 1], key);
    }
  }

  /** The point a timeline shows at a time. */
  ghost predicate ShowsAt(points: seq<Point>, t: Stamp, p: Option<Point>) {
    if p.Some? then p.value in points && p.value.at == t else !HasPoint(points, t)
  }

  lemma OnePointPerTime(points: seq<Point>, p: Point, q: Point)
    requires Increasing(points) && p in points && q in points && p.at == q.at
    ensures p == q
  {
    Total(p.at, p.at);
  }

  lemma CorrectedAt(result: seq<Point>, points: seq<Point>, lookup: map<Key, Correction>, series: Series,
                    t: Stamp, p: Option<Point>)
    requires Increasing(points) && IsCorrected(result, points, lookup, series) && ShowsAt(points, t, p)
    ensures ShowsAt(result, t, if p.Some? then Fix(p.value, lookup, series) else None)
  {
    if HasPoint(result, t) {
      var i :| 0 <= i < |result| && result[i].at == t;
      var o := CameFrom(result, points, lookup, series, i);
      if p.Some? { OnePointPerTime(points, p.value, o); }
    }
    assert p.Some? && Fix(p.value, lookup, series).Some? ==>
      Origin(Fix(p.value, lookup, series).value, points, lookup, series);
  }

  lemma CameFrom(result: seq<Point>, points: seq<Point>, lookup: map<Key, Correction>, series: Series, i: nat)
    returns (o: Point)
    requires IsCorrected(result, points, lookup, series) && i < |result|
    ensures o in points && Fix(o, lookup, series) == Some(result[i]) && HasPoint(points, result[i].at)
  {
    assert result[i] in result;
    o :| o in points && Fix(o, lookup, series) == Some(result[i]);
  }

  /** Creating a correction overrides or removes the one point of its bucket, whatever was stored before, and every
      other point of every timeline is shown as it was. */
  lemma CorrectionHitsOnePoint(payload: Payload, now: int, front: seq<Correction>, back: seq<Correction>,
                               was: map<Key, Correction>, lookup: map<Key, Correction>,
                               points: seq<Point>, before: seq<Point>, after: seq<Point>, series: Series,
                               t: Stamp, p: Option<Point>, shown: Option<Point>)
    requires Create(payload, now).Ok?
    requires var c := Create(payload, now).value;
      && Loaded(front + [c] + back) && (forall d :: d in back && KeyOf(d) == KeyOf(c) ==> d.updatedAt < now)
      && Same(was, front + back) && Same(lookup, front + [c] + back)
    requires Increasing(points) && ShowsAt(points, t, p)
    requires IsCorrected(before, points, was, series) && IsCorrected(after, points, lookup, series)
    requires ShowsAt(before, t, shown)
    ensures var hit := KeyAt(series, t) == CorrectionKey(payload.scope, payload.symbol, payload.granularity,
                                                         Bucket(payload.at, payload.granularity));
      ShowsAt(after, t,
              if !hit then shown
              else if p.None? || payload.action == Delete then None
              else Some(Point(t, if payload.value.Some? then Display(payload.value.value) else p.value.value, true)))
  {
    var c := Create(payload, now).value;
    BucketsNest(payload.at, payload.granularity, payload.granularity);
    CreatedForItsBucket(payload, now, Bucket(payload.at, payload.granularity), payload.symbol);
    NewRowDecidesItsKey(front, back, c, KeyAt(series, t));
    CorrectedAt(before, points, was, series, t, p);
    CorrectedAt(after, points, lookup, series, t, p);
    if payload.value.Some? { DisplayIsStable(payload.value.value); }
    SameShown(before, t, shown, if p.Some? then Fix(p.value, was, series) else None);
  }

  lemma SameShown(points: seq<Point>, t: Stamp, p: Option<Point>, q: Option<Point>)
    requires Increasing(points) && ShowsAt(points, t, p) && ShowsAt(points, t, q)
    ensures p == q
  {
    if p.Some? && q.Some? { OnePointPerTime(points, p.value, q.value); }
    else if p.Some? { assert HasPoint(points, t); }
    else if q.Some? { assert HasPoint(points, t); }
  }
}
