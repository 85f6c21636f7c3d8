/** The tagged JSON codec for runtime values. */
module RuntimeCodec {
  import opened Wrappers

  datatype Json =
    | JNull | JBool(b: bool) | JInt(n: int) | JStr(s: string)
    | JList(items: seq<Json>) | JObject(fields: map<string, Json>)

  datatype ReturnPoint = ReturnPoint(symbol: string, name: string, pct: string)

  /** Runtime values.  Timestamps and decimals are their canonical texts, and a dashboard is its JSON
      dump; dictionaries have string keys. */
  datatype Value =
    | VNull | VBool(b: bool) | VInt(n: int) | VStr(s: string)
    | VDatetime(text: string) | VDecimal(text: string)
    | VTuple(items: seq<Value>) | VList(items: seq<Value>) | VDict(entries: map<string, Value>)
    | VDashboard(dump: map<string, Json>)
    | VCacheEntry(dashboard: map<string, Json>, generatedAt: string)
    | VLivePortfolio(hourBucket: string, latestValue: string, latestAt: string, hasAssets: bool)
    | VReturnPoint(point: ReturnPoint)
    | VLiveReturns(hourBucket: string, latestAt: string, aggregate: Option<string>,
                   points: seq<ReturnPoint>, tracked: bool)
    | VLoginAttempts(attempts: seq<string>, failed: int, lastAt: string)

  const TYPE_KEY := "__type__"

  function Typed(name: string, fields: map<string, Json>): Json {
    JObject(fields[TYPE_KEY := JStr(name)])
  }

  function DatetimeJson(text: string): Json { Typed("datetime", map["value" := JStr(text)]) }

  function DecimalJson(text: string): Json { Typed("decimal", map["value" := JStr(text)]) }

  function DashboardJson(dump: map<string, Json>): Json {
    Typed("DashboardResponse", map["value" := JObject(dump)])
  }

  function PointJson(p: ReturnPoint): Json {
    Typed("LiveHoldingReturnPoint",
          map["symbol" := JStr(p.symbol), "name" := JStr(p.name), "return_pct" := DecimalJson(p.pct)])
  }

  function AggregateJson(aggregate: Option<string>): Json {
    if aggregate.Some? then DecimalJson(aggregate.value) else JNull
  }

  function PointsJson(points: seq<ReturnPoint>): Json {
    JList(seq(|points|, i requires 0 <= i < |points| => PointJson(points[i])))
  }

  function StampsJson(stamps: seq<string>): Json {
    JList(seq(|stamps|, i requires 0 <= i < |stamps| => DatetimeJson(stamps[i])))
  }

  function Encode(v: Value): Json {
    match v
    case VNull => JNull
    case VBool(b) => JBool(b)
    case VInt(n) => JInt(n)
    case VStr(s) => JStr(s)
    case VDatetime(text) => DatetimeJson(text)
    case VDecimal(text) => DecimalJson(text)
    case VTuple(items) =>
      Typed("tuple", map["items" := JList(seq(|items|, i requires 0 <= i < |items| => Encode(items[i])))])
    case VList(items) => JList(seq(|items|, i requires 0 <= i < |items| => Encode(items[i])))
    case VDict(entries) => JObject(map k | k in entries :: Encode(entries[k]))
    case VDashboard(dump) => DashboardJson(dump)
    case VCacheEntry(dashboard, generatedAt) =>
      Typed("DashboardCacheEntry",
            map["dashboard" := DashboardJson(dashboard), "generated_at" := DatetimeJson(generatedAt)])
    case VLivePortfolio(hourBucket, latestValue, latestAt, hasAssets) =>
      Typed("LivePortfolioState",
            map["hour_bucket" := DatetimeJson(hourBucket), "latest_value_cny" := DecimalJson(latestValue),
                "latest_generated_at" := DatetimeJson(latestAt), "has_assets_in_bucket" := JBool(hasAssets)])
    case VReturnPoint(p) => PointJson(p)
    case VLiveReturns(hourBucket, latestAt, aggregate, points, tracked) =>
      Typed("LiveHoldingsReturnState",
            map["hour_bucket" := DatetimeJson(hourBucket), "latest_generated_at" := DatetimeJson(latestAt),
                "aggregate_return_pct" := AggregateJson(aggregate),
                "holding_points" := PointsJson(points),
                "has_tracked_holdings_in_bucket" := JBool(tracked)])
    case VLoginAttempts(attempts, failed, lastAt) =>
      Typed("LoginAttemptState",
            map["attempt_timestamps" := StampsJson(attempts),
                "consecutive_failed_attempts" := JInt(failed), "last_attempt_at" := DatetimeJson(lastAt)])
  }

  // ---- decoding ----

  function Get(fields: map<string, Json>, name: string): Option<Json> {
    if name in fields then Some(fields[name]) else None
  }

  function Text(j: Option<Json>): Option<string> {
    if j.Some? && j.value.JStr? then Some(j.value.s) else None
  }

  /** The marker of an object: absent and null both mean a plain dictionary. */
  datatype Marker = Plain | Marked(name: string) | BadMarker

  function TypeName(fields: map<string, Json>): Marker {
    if TYPE_KEY !in fields || fields[TYPE_KEY].JNull? then Plain
    else if fields[TYPE_KEY].JStr? then Marked(fields[TYPE_KEY].s)
    else BadMarker
  }

  function IsDatetime(v: Option<Value>): bool { v.Some? && v.value.VDatetime? }

  function IsDecimal(v: Option<Value>): bool { v.Some? && v.value.VDecimal? }

  /** Objects whose fields are plain texts or JSON. */
  function DecodeLeaf(name: string, fields: map<string, Json>): Option<Value> {
    var value := Get(fields, "value");
    if name == "datetime" then (if Text(value).Some? then Some(VDatetime(Text(value).value)) else None)
    else if name == "decimal" then (if Text(value).Some? then Some(VDecimal(Text(value).value)) else None)
    else if name == "DashboardResponse" then
      (if value.Some? && value.value.JObject? then Some(VDashboard(value.value.fields)) else None)
    else None
  }

  predicate IsLeaf(name: string) { name == "datetime" || name == "decimal" || name == "DashboardResponse" }

  function DecodeCacheEntry(dashboard: Option<Value>, at: Option<Value>): Option<Value> {
    if dashboard.Some? && dashboard.value.VDashboard? && IsDatetime(at)
    then Some(VCacheEntry(dashboard.value.dump, at.value.text)) else None
  }

  function DecodeLivePortfolio(hour: Option<Value>, latest: Option<Value>, at: Option<Value>, hasAssets: Option<Json>)
    : Option<Value>
  {
    if IsDatetime(hour) && IsDecimal(latest) && IsDatetime(at) && hasAssets.Some? && hasAssets.value.JBool?
    then Some(VLivePortfolio(hour.value.text, latest.value.text, at.value.text, hasAssets.value.b)) else None
  }

  function DecodePoint(symbol: Option<string>, name: Option<string>, pct: Option<Value>): Option<Value> {
    if symbol.Some? && name.Some? && IsDecimal(pct)
    then Some(VReturnPoint(ReturnPoint(symbol.value, name.value, pct.value.text))) else None
  }

  function DecodeLiveReturns(hour: Option<Value>, at: Option<Value>, aggregate: Option<Value>,
                             points: Option<seq<Value>>, tracked: Option<Json>): Option<Value>
  {
    if IsDatetime(hour) && IsDatetime(at) && aggregate.Some? && (aggregate.value.VNull? || aggregate.value.VDecimal?)
       && points.Some? && (forall i :: 0 <= i < |points.value| ==> points.value[i].VReturnPoint?)
       && tracked.Some? && tracked.value.JBool?
    then
      var ps := points.value;
      Some(VLiveReturns(hour.value.text, at.value.text,
                        if aggregate.value.VNull? then None else Some(aggregate.value.text),
                        seq(|ps|, i requires 0 <= i < |ps| && ps[i].VReturnPoint? => ps[i].point), tracked.value.b))
    else None
  }

  function DecodeLogin(attempts: Option<seq<Value>>, failed: Option<Json>, lastAt: Option<Value>): Option<Value> {
    if attempts.Some? && (forall i :: 0 <= i < |attempts.value| ==> attempts.value[i].VDatetime?)
       && failed.Some? && failed.value.JInt? && IsDatetime(lastAt)
    then
      var ts := attempts.value;
      Some(VLoginAttempts(seq(|ts|, i requires 0 <= i < |ts| && ts[i].VDatetime? => ts[i].text),
                          failed.value.n, lastAt.value.text))
    else None
  }

  /** Decoding; None stands for the exceptions the codec turns into a missing value. */
  function Decode(j: Json): Option<Value> {
    match j
    case JNull => Some(VNull)
    case JBool(b) => Some(VBool(b))
    case JInt(n) => Some(VInt(n))
    case JStr(s) => Some(VStr(s))
    case JList(_) => var items := DecodeList(j); if items.Some? then Some(VList(items.value)) else None
    case JObject(fields) =>
      match TypeName(fields)
      case BadMarker => None
      case Plain =>
        if forall k :: k in fields ==> Decode(fields[k]).Some?
        then Some(VDict(map k | k in fields :: Decode(fields[k]).value)) else None
      case Marked(name) =>
        if IsLeaf(name) then DecodeLeaf(name, fields)
        else if name == "tuple" then
          var items := if "items" in fields then DecodeList(fields["items"]) else None;
          if items.Some? then Some(VTuple(items.value)) else None
        else if name == "DashboardCacheEntry" then
          DecodeCacheEntry(if "dashboard" in fields then Decode(fields["dashboard"]) else None,
                           if "generated_at" in fields then Decode(fields["generated_at"]) else None)
        else if name == "LivePortfolioState" then
          DecodeLivePortfolio(if "hour_bucket" in fields then Decode(fields["hour_bucket"]) else None,
                              if "latest_value_cny" in fields then Decode(fields["latest_value_cny"]) else None,
                              if "latest_generated_at" in fields then Decode(fields["latest_generated_at"]) else None,
                              Get(fields, "has_assets_in_bucket"))
        else if name == "LiveHoldingReturnPoint" then
          DecodePoint(Text(Get(fields, "symbol")), Text(Get(fields, "name")),
                      if "return_pct" in fields then Decode(fields["return_pct"]) else None)
        else if name == "LiveHoldingsReturnState" then
          DecodeLiveReturns(if "hour_bucket" in fields then Decode(fields["hour_bucket"]) else None,
                            if "latest_generated_at" in fields then Decode(fields["latest_generated_at"]) else None,
                            if "aggregate_return_pct" in fields then Decode(fields["aggregate_return_pct"]) else None,
                            if "holding_points" in fields then DecodeList(fields["holding_points"]) else None,
                            Get(fields, "has_tracked_holdings_in_bucket"))
        else if name == "LoginAttemptState" then
          DecodeLogin(if "attempt_timestamps" in fields then DecodeList(fields["attempt_timestamps"]) else None,
                      Get(fields, "consecutive_failed_attempts"),
                      if "last_attempt_at" in fields then Decode(fields["last_attempt_at"]) else None)
        else None
  }

  function DecodeList(j: Json): Option<seq<Value>>
    decreases j, 0
  {
    if j.JList? && forall i :: 0 <= i < |j.items| ==> Decode(j.items[i]).Some?
    then Some(seq(|j.items|, i requires 0 <= i < |j.items| && Decode(j.items[i]).Some? => Decode(j.items[i]).value))
    else None
  }

  // ---- the round trip ----

  /** No dictionary in the value, at any depth, has a type marker that is not null. */
  predicate Clean(v: Value) {
    match v
    case VTuple(items) => forall i :: 0 <= i < |items| ==> Clean(items[i])
    case VList(items) => forall i :: 0 <= i < |items| ==> Clean(items[i])
    case VDict(entries) =>
      (TYPE_KEY in entries ==> entries[TYPE_KEY].VNull?) && forall k :: k in entries ==> Clean(entries[k])
    case _ => true
  }

  lemma TextsDecode(text: string)
    ensures Decode(DatetimeJson(text)) == Some(VDatetime(text))
    ensures Decode(DecimalJson(text)) == Some(VDecimal(text))
  {
  }

  predicate Restored(v: Value) { Decode(Encode(v)) == Some(v) }

  lemma MarkedIsNoDict(fields: map<string, Json>)
    requires TypeName(fields) != Plain
    ensures var v := Decode(JObject(fields)); v.Some? ==> !v.value.VDict?
  {
  }

  function EncodeAll(items: seq<Value>): Json {
    JList(seq(|items|, i requires 0 <= i < |items| => Encode(items[i])))
  }

  lemma AllRestored(items: seq<Value>)
    ensures DecodeList(EncodeAll(items)) == Some(items) <==> forall i :: 0 <= i < |items| ==> Restored(items[i])
  {
    var j := EncodeAll(items);
    assert forall i :: 0 <= i < |items| ==> j.items[i] == Encode(items[i]);
    if DecodeList(j) == Some(items) {
      forall i | 0 <= i < |items| ensures Restored(items[i]) {
        assert Decode(j.items[i]).value == DecodeList(j).value[i];
      }
    }
    if forall i :: 0 <= i < |items| ==> Restored(items[i]) {
      assert forall i :: 0 <= i < |j.items| ==> Decode(j.items[i]) == Some(items[i]);
      assert DecodeList(j).value == items;
    }
  }

  lemma TupleRestored(items: seq<Value>)
    ensures Restored(VTuple(items)) <==> forall i :: 0 <= i < |items| ==> Restored(items[i])
  {
    AllRestored(items);
    var v := VTuple(items);
    assert Encode(v) == Typed("tuple", map["items" := EncodeAll(items)]);
  }

  lemma ListRestored(items: seq<Value>)
    ensures Restored(VList(items)) <==> forall i :: 0 <= i < |items| ==> Restored(items[i])
  {
    AllRestored(items);
    assert Encode(VList(items)) == EncodeAll(items);
  }

  predicate NullMarker(entries: map<string, Value>) {
    TYPE_KEY in entries ==> entries[TYPE_KEY].VNull?
  }

  lemma OnlyNullEncodesToNull(v: Value)
    ensures Encode(v).JNull? <==> v.VNull?
  {
  }

  lemma DictRestored(entries: map<string, Value>)
    ensures Restored(VDict(entries)) <==> NullMarker(entries) && forall k :: k in entries ==> Restored(entries[k])
  {
    var fields := Encode(VDict(entries)).fields;
    assert forall k :: k in entries <==> k in fields;
    assert forall k :: k in entries ==> fields[k] == Encode(entries[k]);
    if TYPE_KEY in entries { OnlyNullEncodesToNull(entries[TYPE_KEY]); }
    if !NullMarker(entries) {
      MarkedIsNoDict(fields);
    }
    if NullMarker(entries) && Restored(VDict(entries)) {
      forall k | k in entries ensures Restored(entries[k]) {
        assert Decode(fields[k]).value == Decode(JObject(fields)).value.entries[k];
      }
    }
    if NullMarker(entries) && forall k :: k in entries ==> Restored(entries[k]) {
      assert forall k :: k in fields ==> Decode(fields[k]) == Some(entries[k]);
      assert Decode(JObject(fields)).value.entries == entries;
    }
  }

  lemma PointRestored(p: ReturnPoint)
    ensures Decode(PointJson(p)) == Some(VReturnPoint(p))
  {
    TextsDecode(p.pct);
  }

  lemma CacheEntryRestored(dashboard: map<string, Json>, generatedAt: string)
    ensures Restored(VCacheEntry(dashboard, generatedAt))
  {
    TextsDecode(generatedAt);
  }

  lemma LivePortfolioRestored(hourBucket: string, latestValue: string, latestAt: string, hasAssets: bool)
    ensures Restored(VLivePortfolio(hourBucket, latestValue, latestAt, hasAssets))
  {
    TextsDecode(hourBucket);
    TextsDecode(latestValue);
    TextsDecode(latestAt);
  }

  lemma PointsRestored(points: seq<ReturnPoint>)
    ensures var d := DecodeList(PointsJson(points));
      d.Some? && |d.value| == |points| && forall i :: 0 <= i < |points| ==> d.value[i] == VReturnPoint(points[i])
  {
    var j := PointsJson(points);
    forall i | 0 <= i < |points| ensures Decode(j.items[i]) == Some(VReturnPoint(points[i])) {
      PointRestored(points[i]);
    }
  }

  lemma StampsRestored(stamps: seq<string>)
    ensures var d := DecodeList(StampsJson(stamps));
      d.Some? && |d.value| == |stamps| && forall i :: 0 <= i < |stamps| ==> d.value[i] == VDatetime(stamps[i])
  {
    var j := StampsJson(stamps);
    forall i | 0 <= i < |stamps| ensures Decode(j.items[i]) == Some(VDatetime(stamps[i])) {
      TextsDecode(stamps[i]);
    }
  }

  lemma LiveReturnsFields(hourBucket: string, latestAt: string, aggregate: Option<string>, points: seq<ReturnPoint>,
                          tracked: bool, fields: map<string, Json>)
    requires JObject(fields) == Encode(VLiveReturns(hourBucket, latestAt, aggregate, points, tracked))
    ensures Get(fields, TYPE_KEY) == Some(JStr("LiveHoldingsReturnState"))
    ensures Get(fields, "hour_bucket") == Some(DatetimeJson(hourBucket))
    ensures Get(fields, "latest_generated_at") == Some(DatetimeJson(latestAt))
    ensures Get(fields, "aggregate_return_pct") == Some(AggregateJson(aggregate))
    ensures Get(fields, "holding_points") == Some(PointsJson(points))
    ensures Get(fields, "has_tracked_holdings_in_bucket") == Some(JBool(tracked))
  {
  }

  lemma LiveReturnsAssembled(hourBucket: string, latestAt: string, aggregate: Option<string>, points: seq<ReturnPoint>,
                             tracked: bool, decoded: Option<seq<Value>>)
    requires decoded.Some? && |decoded.value| == |points|
    requires forall i :: 0 <= i < |points| ==> decoded.value[i] == VReturnPoint(points[i])
    ensures DecodeLiveReturns(Some(VDatetime(hourBucket)), Some(VDatetime(latestAt)),
                              Some(if aggregate.Some? then VDecimal(aggregate.value) else VNull),
                              decoded, Some(JBool(tracked)))
         == Some(VLiveReturns(hourBucket, latestAt, aggregate, points, tracked))
  {
    var ps := decoded.value;
    assert points == seq(|ps|, i requires 0 <= i < |ps| && ps[i].VReturnPoint? => ps[i].point);
  }

  lemma LiveReturnsRestored(hourBucket: string, latestAt: string, aggregate: Option<string>, points: seq<ReturnPoint>,
                            tracked: bool)
    ensures Restored(VLiveReturns(hourBucket, latestAt, aggregate, points, tracked))
  {
    TextsDecode(hourBucket);
    TextsDecode(latestAt);
    PointsRestored(points);
    var fields := Encode(VLiveReturns(hourBucket, latestAt, aggregate, points, tracked)).fields;
    LiveReturnsFields(hourBucket, latestAt, aggregate, points, tracked, fields);
    LiveReturnsAssembled(hourBucket, latestAt, aggregate, points, tracked, DecodeList(PointsJson(points)));
  }

  lemma LoginAttemptsRestored(attempts: seq<string>, failed: int, lastAt: string)
    ensures Restored(VLoginAttempts(attempts, failed, lastAt))
  {
    StampsRestored(attempts);
    TextsDecode(lastAt);
    var back := Decode(Encode(VLoginAttempts(attempts, failed, lastAt)));
    assert back.Some? && back.value.VLoginAttempts?;
    assert back.value.attempts == attempts;
  }

  /** A value survives encoding and decoding exactly when no dictionary inside it carries a type marker. */
  lemma {:induction false} RoundTrip(v: Value)
    ensures Decode(Encode(v)) == Some(v) <==> Clean(v)
  {
    match v
    case VTuple(items) =>
      forall i | 0 <= i < |items| ensures Restored(items[i]) <==> Clean(items[i]) { RoundTrip(items[i]); }
      TupleRestored(items);
      assert Restored(v) <==> Clean(v);
    case VList(items) =>
      forall i | 0 <= i < |items| ensures Restored(items[i]) <==> Clean(items[i]) { RoundTrip(items[i]); }
      ListRestored(items);
      assert Restored(v) <==> Clean(v);
    case VDict(entries) =>
      forall k | k in entries ensures Restored(entries[k]) <==> Clean(entries[k]) { RoundTrip(entries[k]); }
      DictRestored(entries);
      assert Restored(v) <==> Clean(v);
    case VCacheEntry(dashboard, generatedAt) =>
      CacheEntryRestored(dashboard, generatedAt);
      assert Restored(v);
    case VLivePortfolio(hourBucket, latestValue, latestAt, hasAssets) =>
      LivePortfolioRestored(hourBucket, latestValue, latestAt, hasAssets);
      assert Restored(v);
    case VLiveReturns(hourBucket, latestAt, aggregate, points, tracked) =>
      LiveReturnsRestored(hourBucket, latestAt, aggregate, points, tracked);
      assert Restored(v);
    case VLoginAttempts(attempts, failed, lastAt) =>
      LoginAttemptsRestored(attempts, failed, lastAt);
      assert Restored(v);
    case VReturnPoint(p) => PointRestored(p);
    case VDashboard(_) =>
    case VDatetime(text) => TextsDecode(text);
    case VDecimal(text) => TextsDecode(text);
    case _ =>
  }

  /** Distinct values the codec can restore never share an encoding. */
  lemma EncodingIsInjective(v: Value, w: Value)
    requires Clean(v) && Clean(w) && Encode(v) == Encode(w)
    ensures v == w
  {
    RoundTrip(v);
    RoundTrip(w);
  }

  /** A plain dictionary that looks like an encoded timestamp comes back as the timestamp. */
  lemma MarkedDictIsLost()
    ensures var v := VDict(map[TYPE_KEY := VStr("datetime"), "value" := VStr("2024-01-01T00:00:00+00:00")]);
      Encode(v) == Encode(VDatetime("2024-01-01T00:00:00+00:00")) && !Clean(v)
  {
    var v := VDict(map[TYPE_KEY := VStr("datetime"), "value" := VStr("2024-01-01T00:00:00+00:00")]);
    assert Encode(v).fields == DatetimeJson("2024-01-01T00:00:00+00:00").fields;
  }

  // ---- the versioned envelope ----

  const VERSION := 2

  function Dumps(v: Value): Json { JObject(map["version" := JInt(VERSION), "value" := Encode(v)]) }

  /** Loading; None when nothing is stored, the envelope is of another version, or its value does not decode.
      A stored null is indistinguishable from those. */
  function Loads(raw: Option<Json>): Option<Value> {
    if raw.Some? && raw.value.JObject? && Get(raw.value.fields, "version") == Some(JInt(VERSION))
       && "value" in raw.value.fields
    then
      var v := Decode(raw.value.fields["value"]);
      if v == Some(VNull) then None else v
    else None
  }

  /** What is stored is read back exactly when it is clean and not null. */
  lemma StoredValueIsLoaded(v: Value)
    ensures Loads(Some(Dumps(v))) == Some(v) <==> Clean(v) && v != VNull
  {
    RoundTrip(v);
  }
}
