/** Dictionaries kept under a prefix of a shared key/value store. */
module RedisDict {
  import opened Wrappers
  import opened RuntimeCodec

  /** How a key's payload is written as text: JSON, then URL-safe base64. */
  datatype Text = Text(write: Json -> string, read: string -> Option<Json>)

  /** Writing can be undone, and never produces the separator. */
  ghost predicate Faithful(t: Text) {
    forall j: Json :: t.read(t.write(j)) == Some(j) && ':' !in t.write(j)
  }

  type Rows = map<string, Json>

  function Home(prefix: string): string { prefix + ":" }

  function EntryKey(t: Text, prefix: string, key: Value): string { Home(prefix) + t.write(Dumps(key)) }

  function KeyOf(t: Text, prefix: string, row: string): Option<Value>
    requires Home(prefix) <= row
  {
    Loads(t.read(row[|prefix| + 1..]))
  }

  function Read(rows: Rows, row: string): Option<Value> {
    Loads(if row in rows then Some(rows[row]) else None)
  }

  /** Values the codec restores and that are not read as missing. */
  predicate Usable(v: Value) { Clean(v) && v != VNull }

  predicate Canonical(t: Text, prefix: string, row: string) {
    Home(prefix) <= row && KeyOf(t, prefix, row).Some? && EntryKey(t, prefix, KeyOf(t, prefix, row).value) == row
  }

  // ---- the finite map a prefix stands for ----

  function Keys(t: Text, prefix: string, rows: Rows): set<Value> {
    set row | row in rows && Canonical(t, prefix, row) && Read(rows, row).Some? :: KeyOf(t, prefix, row).value
  }

  function Stored(t: Text, prefix: string, rows: Rows, key: Value): Option<Value> {
    Read(rows, EntryKey(t, prefix, key))
  }

  function View(t: Text, prefix: string, rows: Rows): map<Value, Value> {
    map key | key in Keys(t, prefix, rows) && Stored(t, prefix, rows, key).Some? :: Stored(t, prefix, rows, key).value
  }

  function At<K, V>(m: map<K, V>, key: K): Option<V> { if key in m then Some(m[key]) else None }

  lemma KeyIsRead(t: Text, prefix: string, key: Value)
    requires Faithful(t)
    ensures KeyOf(t, prefix, EntryKey(t, prefix, key)) == Loads(Some(Dumps(key)))
  {
    assert EntryKey(t, prefix, key)[|prefix| + 1..] == t.write(Dumps(key));
  }

  lemma LoadedFromItself(v: Value)
    requires Loads(Some(Dumps(v))) == Some(v)
    ensures Usable(v)
  {
    StoredValueIsLoaded(v);
  }

  lemma CanonicalIsUsable(t: Text, prefix: string, row: string)
    requires Faithful(t) && Canonical(t, prefix, row)
    ensures Usable(KeyOf(t, prefix, row).value)
  {
    var key := KeyOf(t, prefix, row).value;
    KeyIsRead(t, prefix, key);
    LoadedFromItself(key);
  }

  /** A key is in the map exactly when the codec can restore it and a readable row is stored for it. */
  lemma ViewAt(t: Text, prefix: string, rows: Rows, key: Value)
    requires Faithful(t)
    ensures At(View(t, prefix, rows), key) == if Usable(key) then Stored(t, prefix, rows, key) else None
  {
    if Usable(key) {
      KeyIsRead(t, prefix, key);
      StoredValueIsLoaded(key);
      if Stored(t, prefix, rows, key).Some? {
        assert Canonical(t, prefix, EntryKey(t, prefix, key));
      }
    } else if key in Keys(t, prefix, rows) {
      var row :| row in rows && Canonical(t, prefix, row) && Read(rows, row).Some?
        && KeyOf(t, prefix, row).value == key;
      CanonicalIsUsable(t, prefix, row);
      assert false;
    }
  }

  lemma SameView(t: Text, prefix: string, rows: Rows, m: map<Value, Value>)
    requires Faithful(t)
    requires forall key :: At(m, key) == if Usable(key) then Stored(t, prefix, rows, key) else None
    ensures View(t, prefix, rows) == m
  {
    forall key ensures At(View(t, prefix, rows), key) == At(m, key) { ViewAt(t, prefix, rows, key); }
    SameEverywhere(View(t, prefix, rows), m);
  }

  lemma SameEverywhere<K(!new), V(!new)>(m: map<K, V>, n: map<K, V>)
    requires forall key :: At(m, key) == At(n, key)
    ensures m == n
  {
    forall key ensures (key in m <==> key in n) && (key in m ==> m[key] == n[key]) {
      assert At(m, key) == At(n, key);
    }
  }

  // ---- rows of different keys and prefixes ----

  lemma HomeEndsAtColon(p: string, q: string, tail: string)
    requires ':' !in tail && Home(p) <= Home(q) + tail
    ensures Home(p) <= Home(q)
  {
    var row := Home(q) + tail;
    assert row[|p|] == Home(p)[|p|] == ':';
    assert forall i :: |q| < i < |row| ==> row[i] == tail[i - |q| - 1];
    assert Home(q) == row[..|q| + 1];
  }

  /** No two rows collide: a row names its dictionary and, for keys the codec restores, its key. */
  lemma RowsAreSeparate(t: Text, p: string, q: string, k: Value, l: Value)
    requires Faithful(t) && Usable(k) && Usable(l)
    ensures EntryKey(t, p, k) == EntryKey(t, q, l) <==> p == q && k == l
  {
    if EntryKey(t, p, k) == EntryKey(t, q, l) {
      HomeEndsAtColon(p, q, t.write(Dumps(l)));
      HomeEndsAtColon(q, p, t.write(Dumps(k)));
      assert |Home(p)| == |Home(q)|;
      assert p == Home(p)[..|p|] && q == Home(q)[..|q|];
      KeyIsRead(t, p, k);
      KeyIsRead(t, q, l);
      StoredValueIsLoaded(k);
      StoredValueIsLoaded(l);
    }
  }

  // ---- what each command does to the store ----

  datatype Command =
    | Put(prefix: string, key: Value, value: Value)
    | Drop(prefix: string, key: Value)
    | Wipe(prefix: string)

  predicate KeyIsUsable(c: Command) { c.Wipe? || Usable(c.key) }

  function Without(rows: Rows, prefix: string): Rows {
    map row | row in rows && !(Home(prefix) <= row) :: rows[row]
  }

  function Effect(t: Text, rows: Rows, c: Command): Rows {
    match c
    case Put(prefix, key, value) => rows[EntryKey(t, prefix, key) := Dumps(value)]
    case Drop(prefix, key) => rows - {EntryKey(t, prefix, key)}
    case Wipe(prefix) => Without(rows, prefix)
  }

  /** The same command on a finite map.  Storing null or a value the codec cannot read removes the key. */
  function MapEffect(m: map<Value, Value>, c: Command): map<Value, Value> {
    match c
    case Put(_, key, value) =>
      var kept := Loads(Some(Dumps(value)));
      if kept.Some? then m[key := kept.value] else m - {key}
    case Drop(_, key) => m - {key}
    case Wipe(_) => map[]
  }

  /** On its own dictionary a command acts as it does on a finite map. */
  lemma CommandRefinesMap(t: Text, rows: Rows, c: Command)
    requires Faithful(t) && KeyIsUsable(c)
    ensures View(t, c.prefix, Effect(t, rows, c)) == MapEffect(View(t, c.prefix, rows), c)
  {
    var p := c.prefix;
    var view := View(t, p, rows);
    var after := Effect(t, rows, c);
    forall key ensures At(MapEffect(view, c), key) == if Usable(key) then Stored(t, p, after, key) else None {
      ViewAt(t, p, rows, key);
      if !c.Wipe? && Usable(key) { RowsAreSeparate(t, p, p, c.key, key); }
    }
    SameView(t, p, after, MapEffect(view, c));
  }

  predicate Spares(c: Command, q: string) {
    if c.Wipe? then !(Home(c.prefix) <= Home(q)) else c.prefix != q
  }

  /** Commands on other dictionaries change nothing here, clearing included. */
  lemma CommandSparesOthers(t: Text, rows: Rows, c: Command, q: string)
    requires Faithful(t) && KeyIsUsable(c) && Spares(c, q)
    ensures View(t, q, Effect(t, rows, c)) == View(t, q, rows)
  {
    var view := View(t, q, rows);
    var after := Effect(t, rows, c);
    forall key ensures At(view, key) == if Usable(key) then Stored(t, q, after, key) else None {
      ViewAt(t, q, rows, key);
      if Usable(key) {
        if c.Wipe? {
          if Home(c.prefix) <= EntryKey(t, q, key) {
            HomeEndsAtColon(c.prefix, q, t.write(Dumps(key)));
          }
        } else {
          RowsAreSeparate(t, c.prefix, q, c.key, key);
        }
      }
    }
    SameView(t, q, after, view);
  }

  ghost predicate ClearSpares(t: Text, p: string, q: string) {
    forall rows: Rows :: View(t, q, Without(rows, p)) == View(t, q, rows)
  }

  /** Clearing one dictionary leaves another alone exactly when its prefix does not open the other's. */
  lemma ClearSparesExactlyWhen(t: Text, p: string, q: string)
    requires Faithful(t)
    ensures ClearSpares(t, p, q) <==> !(Home(p) <= Home(q))
  {
    if Home(p) <= Home(q) {
      var key := VInt(0);
      var row := EntryKey(t, q, key);
      var rows: Rows := map[row := Dumps(key)];
      StoredValueIsLoaded(key);
      ViewAt(t, q, rows, key);
      ViewAt(t, q, Without(rows, p), key);
      assert Home(p) == Home(q)[..|p| + 1] == row[..|p| + 1];
    } else {
      forall rows: Rows ensures View(t, q, Without(rows, p)) == View(t, q, rows) {
        CommandSparesOthers(t, rows, Wipe(p), q);
      }
    }
  }

  // ---- whole runs over several dictionaries ----

  function Run(t: Text, rows: Rows, cs: seq<Command>): Rows {
    if cs == [] then rows else Effect(t, Run(t, rows, cs[..|cs| - 1]), cs[|cs| - 1])
  }

  function MapRun(m: map<Value, Value>, cs: seq<Command>, q: string): map<Value, Value> {
    if cs == [] then m
    else
      var before := MapRun(m, cs[..|cs| - 1], q);
      if cs[|cs| - 1].prefix == q then MapEffect(before, cs[|cs| - 1]) else before
  }

  /** However the commands of several dictionaries interleave, each dictionary is the finite map its own commands
      make. */
  lemma {:induction false} EachDictionaryIsItsOwnMap(t: Text, rows: Rows, cs: seq<Command>, q: string)
    requires Faithful(t)
    requires forall i :: 0 <= i < |cs| ==> KeyIsUsable(cs[i]) && (cs[i].prefix == q || Spares(cs[i], q))
    ensures View(t, q, Run(t, rows, cs)) == MapRun(View(t, q, rows), cs, q)
  {
    if cs == [] {
    } else {
      var before, c := cs[..|cs| - 1], cs[|cs| - 1];
      EachDictionaryIsItsOwnMap(t, rows, before, q);
      if c.prefix == q { CommandRefinesMap(t, Run(t, rows, before), c); }
      else { CommandSparesOthers(t, Run(t, rows, before), c, q); }
    }
  }

  // ---- the dictionaries of the runtime ----

  const RUNTIME_KEY_PREFIX := "asset-tracker:v2:runtime"

  function RuntimePrefix(name: string): string { RUNTIME_KEY_PREFIX + ":" + name }

  predicate Diverge(a: string, b: string, i: nat) { i < |a| && i < |b| && a[i] != b[i] }

  lemma DivergingNames(t: Text, a: string, b: string, i: nat)
    requires Faithful(t) && Diverge(a, b, i)
    ensures ClearSpares(t, RuntimePrefix(a), RuntimePrefix(b)) && ClearSpares(t, RuntimePrefix(b), RuntimePrefix(a))
  {
    var p, q := Home(RuntimePrefix(a)), Home(RuntimePrefix(b));
    var k := |RUNTIME_KEY_PREFIX| + 1 + i;
    assert p[k] == a[i] && q[k] == b[i];
    ClearSparesExactlyWhen(t, RuntimePrefix(a), RuntimePrefix(b));
    ClearSparesExactlyWhen(t, RuntimePrefix(b), RuntimePrefix(a));
  }

  const DICTIONARIES := ["dashboard-cache", "live-portfolio", "live-holdings-return", "login-attempts"]

  /** None of the four runtime dictionaries can clear another. */
  lemma RuntimeDictionariesAreIndependent(t: Text, i: nat, j: nat)
    requires Faithful(t) && i < |DICTIONARIES| && j < |DICTIONARIES| && i != j
    ensures ClearSpares(t, RuntimePrefix(DICTIONARIES[i]), RuntimePrefix(DICTIONARIES[j]))
  {
    var a, b := DICTIONARIES[i], DICTIONARIES[j];
    if i == 0 || j == 0 { DivergingNames(t, a, b, 0); }
    else if i == 3 || j == 3 { DivergingNames(t, a, b, 1); }
    else { DivergingNames(t, a, b, 5); }
  }

  // ---- the dictionary object ----

  class Store {
    var rows: Rows
    constructor () ensures rows == map[] { rows := map[]; }
  }

  /** Every readable row under the prefix was written by the dictionary. */
  predicate Tidy(t: Text, prefix: string, rows: Rows) {
    forall row :: row in rows && Readable(t, prefix, rows, row) ==> Canonical(t, prefix, row)
  }

  function Scan(rows: Rows, prefix: string): set<string> { set row | row in rows && Home(prefix) <= row }

  predicate Reads(t: Text, prefix: string, rows: Rows, row: string, pair: (Value, Value)) {
    Home(prefix) <= row && KeyOf(t, prefix, row) == Some(pair.0) && Read(rows, row) == Some(pair.1)
  }

  predicate Readable(t: Text, prefix: string, rows: Rows, row: string) {
    Home(prefix) <= row && KeyOf(t, prefix, row).Some? && Read(rows, row).Some?
  }

  /** The pairs are those readable in some of the rows. */
  predicate Lists(t: Text, prefix: string, rows: Rows, seen: set<string>, pairs: seq<(Value, Value)>) {
    && (forall row :: row in seen && Readable(t, prefix, rows, row) ==>
          (KeyOf(t, prefix, row).value, Read(rows, row).value) in pairs)
    && (forall pair :: pair in pairs ==> exists row :: row in seen && Reads(t, prefix, rows, row, pair))
  }

  /** Each key once, and only keys of the rows seen. */
  predicate Once(t: Text, prefix: string, seen: set<string>, pairs: seq<(Value, Value)>) {
    && (forall i, j :: 0 <= i < j < |pairs| ==> pairs[i].0 != pairs[j].0)
    && (forall i :: 0 <= i < |pairs| ==> EntryKey(t, prefix, pairs[i].0) in seen)
  }

  /** What the scan has listed so far. */
  predicate Listing(t: Text, prefix: string, rows: Rows, seen: set<string>, pairs: seq<(Value, Value)>) {
    Lists(t, prefix, rows, seen, pairs) && (Tidy(t, prefix, rows) ==> Once(t, prefix, seen, pairs))
  }

  function Listed(t: Text, prefix: string, rows: Rows, pairs: seq<(Value, Value)>, row: string): seq<(Value, Value)> {
    if Readable(t, prefix, rows, row) then pairs + [(KeyOf(t, prefix, row).value, Read(rows, row).value)] else pairs
  }

  lemma ListMore(t: Text, prefix: string, rows: Rows, seen: set<string>, pairs: seq<(Value, Value)>, row: string)
    requires row in rows && row !in seen && Listing(t, prefix, rows, seen, pairs)
    ensures Listing(t, prefix, rows, seen + {row}, Listed(t, prefix, rows, pairs, row))
  {
    var more := Listed(t, prefix, rows, pairs, row);
    forall pair | pair in more ensures exists r :: r in seen + {row} && Reads(t, prefix, rows, r, pair) {
      if pair in pairs {
        var r :| r in seen && Reads(t, prefix, rows, r, pair);
        assert r in seen + {row};
      } else {
        assert Reads(t, prefix, rows, row, pair);
      }
    }
    forall r | r in seen + {row} && Readable(t, prefix, rows, r)
      ensures (KeyOf(t, prefix, r).value, Read(rows, r).value) in more
    {
      if r == row { assert more[|pairs|] == (KeyOf(t, prefix, r).value, Read(rows, r).value); }
    }
  }

  lemma TidyPairsAreView(t: Text, prefix: string, rows: Rows, pairs: seq<(Value, Value)>, key: Value, value: Value)
    requires Faithful(t) && Tidy(t, prefix, rows) && Lists(t, prefix, rows, Scan(rows, prefix), pairs)
    ensures (key, value) in pairs <==> (key, value) in View(t, prefix, rows).Items
  {
    ViewAt(t, prefix, rows, key);
    if (key, value) in View(t, prefix, rows).Items {
      var row := EntryKey(t, prefix, key);
      KeyIsRead(t, prefix, key);
      StoredValueIsLoaded(key);
      assert row in Scan(rows, prefix);
    }
    if (key, value) in pairs {
      var row :| row in Scan(rows, prefix) && Reads(t, prefix, rows, row, (key, value));
      assert Canonical(t, prefix, row);
      CanonicalIsUsable(t, prefix, row);
    }
  }

  /** The pairs of a map, each once. */
  ghost predicate ListsMap(pairs: seq<(Value, Value)>, m: map<Value, Value>) {
    && (forall pair :: pair in pairs <==> pair in m.Items)
    && (forall i, j :: 0 <= i < j < |pairs| ==> pairs[i].0 != pairs[j].0)
  }

  lemma TidyListing(t: Text, prefix: string, rows: Rows, pairs: seq<(Value, Value)>)
    requires Faithful(t) && Tidy(t, prefix, rows) && Lists(t, prefix, rows, Scan(rows, prefix), pairs)
    requires Once(t, prefix, Scan(rows, prefix), pairs)
    ensures ListsMap(pairs, View(t, prefix, rows))
  {
    forall pair ensures pair in pairs <==> pair in View(t, prefix, rows).Items {
      TidyPairsAreView(t, prefix, rows, pairs, pair.0, pair.1);
    }
  }

  /** The rows the dictionary can read back as its own. */
  function Own(t: Text, prefix: string, rows: Rows): set<string> {
    set row | row in rows && Canonical(t, prefix, row) && Read(rows, row).Some?
  }

  lemma {:induction false} KeysOfRows(t: Text, prefix: string, some: set<string>, keys: set<Value>)
    requires forall row :: row in some ==> Canonical(t, prefix, row) && KeyOf(t, prefix, row).value in keys
    requires forall key :: key in keys ==> EntryKey(t, prefix, key) in some
    requires forall key :: key in keys ==> KeyOf(t, prefix, EntryKey(t, prefix, key)) == Some(key)
    ensures |keys| == |some|
  {
    if some == {} {
      forall key ensures key !in keys { assert key in keys ==> EntryKey(t, prefix, key) in some; }
    } else {
      var row :| row in some;
      var key := KeyOf(t, prefix, row).value;
      KeysOfRows(t, prefix, some - {row}, keys - {key});
    }
  }

  /** The length counts every row under the prefix, readable or not. */
  lemma LengthIsSizeExactlyWhen(t: Text, prefix: string, rows: Rows)
    requires Faithful(t)
    ensures |View(t, prefix, rows)| <= |Scan(rows, prefix)|
    ensures |View(t, prefix, rows)| == |Scan(rows, prefix)| <==>
      forall row :: row in Scan(rows, prefix) ==> Canonical(t, prefix, row) && Read(rows, row).Some?
  {
    var own, keys, scan := Own(t, prefix, rows), View(t, prefix, rows).Keys, Scan(rows, prefix);
    forall row | row in own ensures KeyOf(t, prefix, row).value in keys {
      CanonicalIsUsable(t, prefix, row);
      ViewAt(t, prefix, rows, KeyOf(t, prefix, row).value);
    }
    forall key | key in keys
      ensures EntryKey(t, prefix, key) in own && KeyOf(t, prefix, EntryKey(t, prefix, key)) == Some(key)
    {
      ViewAt(t, prefix, rows, key);
      KeyIsRead(t, prefix, key);
      StoredValueIsLoaded(key);
    }
    KeysOfRows(t, prefix, own, keys);
    SubsetSize(own, scan);
  }

  /** Storing null leaves a row that counts, though the map stays empty. */
  lemma UnreadableRowIsCounted(t: Text, prefix: string)
    requires Faithful(t)
    ensures var rows := Run(t, map[], [Put(prefix, VInt(1), VNull)]);
      |Scan(rows, prefix)| == 1 && View(t, prefix, rows) == map[]
  {
    var put := Put(prefix, VInt(1), VNull);
    var none: Rows := map[];
    assert [put][..0] == [] && Run(t, none, [put][..0]) == none;
    var rows := Run(t, none, [put]);
    assert rows == Effect(t, none, put) == map[EntryKey(t, prefix, VInt(1)) := Dumps(VNull)];
    assert Scan(rows, prefix) == {EntryKey(t, prefix, VInt(1))};
    assert Keys(t, prefix, rows) == {};
  }

  lemma SubsetSize(part: set<string>, whole: set<string>)
    requires part <= whole
    ensures |part| <= |whole| && (|part| == |whole| <==> part == whole)
  {
    assert whole == part + (whole - part);
  }

  // ---- stores that only dictionaries have written ----

  /** Every row under the prefix is one the dictionary writes. */
  ghost predicate OwnRows(t: Text, q: string, rows: Rows) {
    forall row :: row in rows && Home(q) <= row ==> Canonical(t, q, row)
  }

  /** Every row under the prefix has a payload that can be read. */
  ghost predicate OwnPayloads(q: string, rows: Rows) {
    forall row :: row in rows && Home(q) <= row ==> Read(rows, row).Some?
  }

  /** The command is the dictionary's own, or neither writes under its prefix nor clears it. */
  predicate Apart(c: Command, q: string) {
    c.prefix == q || (!(Home(q) <= Home(c.prefix)) && Spares(c, q))
  }

  predicate StoresUsable(c: Command, q: string) { c.Put? && c.prefix == q ==> Usable(c.value) }

  /** No command puts a foreign row under the prefix. */
  lemma CommandKeepsOwnRows(t: Text, rows: Rows, c: Command, q: string)
    requires Faithful(t) && KeyIsUsable(c) && Apart(c, q) && OwnRows(t, q, rows)
    ensures OwnRows(t, q, Effect(t, rows, c))
    ensures OwnPayloads(q, rows) && StoresUsable(c, q) ==> OwnPayloads(q, Effect(t, rows, c))
  {
    var after := Effect(t, rows, c);
    if c.Put? {
      var written := EntryKey(t, c.prefix, c.key);
      KeyIsRead(t, c.prefix, c.key);
      StoredValueIsLoaded(c.key);
      StoredValueIsLoaded(c.value);
      if Home(q) <= written { HomeEndsAtColon(q, c.prefix, t.write(Dumps(c.key))); }
    }
    forall row | row in after && Home(q) <= row
      ensures Canonical(t, q, row)
      ensures OwnPayloads(q, rows) && StoresUsable(c, q) ==> Read(after, row).Some?
    {
      assert (c.Put? && row == EntryKey(t, c.prefix, c.key)) || (row in rows && after[row] == rows[row]);
    }
  }

  lemma {:induction false} RunKeepsOwnRows(t: Text, rows: Rows, cs: seq<Command>, q: string)
    requires Faithful(t) && OwnRows(t, q, rows)
    requires forall i :: 0 <= i < |cs| ==> KeyIsUsable(cs[i]) && Apart(cs[i], q)
    ensures OwnRows(t, q, Run(t, rows, cs))
    ensures OwnPayloads(q, rows) && (forall i :: 0 <= i < |cs| ==> StoresUsable(cs[i], q))
      ==> OwnPayloads(q, Run(t, rows, cs))
  {
    if cs == [] {
    } else {
      var n := |cs| - 1;
      RunKeepsOwnRows(t, rows, cs[..n], q);
      CommandKeepsOwnRows(t, Run(t, rows, cs[..n]), cs[n], q);
    }
  }

  /** The store had no row under the prefix, and then only commands that keep apart or are the dictionary's own. */
  ghost predicate OnlyOwnCommands(rows: Rows, cs: seq<Command>, q: string) {
    Scan(rows, q) == {} && forall i :: 0 <= i < |cs| ==> KeyIsUsable(cs[i]) && Apart(cs[i], q)
  }

  /** From a store with no row under the prefix, whatever else it holds, every run leaves rows the dictionary can
      list: they are its finite map, and its length is the size of that map when only usable values were stored. */
  lemma RunIsListed(t: Text, rows: Rows, cs: seq<Command>, q: string)
    requires Faithful(t) && OnlyOwnCommands(rows, cs, q)
    ensures var after := Run(t, rows, cs);
      && Tidy(t, q, after) && View(t, q, after) == MapRun(map[], cs, q)
      && ((forall i :: 0 <= i < |cs| ==> StoresUsable(cs[i], q)) ==> |Scan(after, q)| == |MapRun(map[], cs, q)|)
  {
    assert forall row :: row in rows && Home(q) <= row ==> row in Scan(rows, q);
    assert Keys(t, q, rows) == {} && View(t, q, rows) == map[];
    EachDictionaryIsItsOwnMap(t, rows, cs, q);
    RunKeepsOwnRows(t, rows, cs, q);
    LengthIsSizeExactlyWhen(t, q, Run(t, rows, cs));
  }

  /** A command of one of the four runtime dictionaries. */
  predicate OfRuntime(c: Command) {
    KeyIsUsable(c) && exists j :: 0 <= j < |DICTIONARIES| && c.prefix == RuntimePrefix(DICTIONARIES[j])
  }

  /** So each of the four runtime dictionaries lists, and counts, exactly what its own commands stored, however
      theirs interleave with those of the other three. */
  lemma RuntimeDictionariesListTheirMaps(t: Text, rows: Rows, cs: seq<Command>, i: nat)
    requires Faithful(t) && i < |DICTIONARIES| && Scan(rows, RuntimePrefix(DICTIONARIES[i])) == {}
    requires forall k :: 0 <= k < |cs| ==> OfRuntime(cs[k])
    ensures var after, q := Run(t, rows, cs), RuntimePrefix(DICTIONARIES[i]);
      && Tidy(t, q, after) && View(t, q, after) == MapRun(map[], cs, q)
      && ((forall k :: 0 <= k < |cs| ==> StoresUsable(cs[k], q)) ==> |Scan(after, q)| == |MapRun(map[], cs, q)|)
  {
    var q := RuntimePrefix(DICTIONARIES[i]);
    forall k | 0 <= k < |cs| ensures KeyIsUsable(cs[k]) && Apart(cs[k], q) {
      var j :| 0 <= j < |DICTIONARIES| && cs[k].prefix == RuntimePrefix(DICTIONARIES[j]);
      if i != j {
        RuntimeDictionariesAreIndependent(t, i, j);
        RuntimeDictionariesAreIndependent(t, j, i);
        ClearSparesExactlyWhen(t, q, cs[k].prefix);
        ClearSparesExactlyWhen(t, cs[k].prefix, q);
      }
    }
    RunIsListed(t, rows, cs, q);
  }

  /** What is returned is what the map holds, and dropping the row drops the key, also when there is none. */
  lemma Popped(t: Text, prefix: string, rows: Rows, key: Value)
    requires Faithful(t)
    ensures Usable(key) ==>
      && At(View(t, prefix, rows), key) == Stored(t, prefix, rows, key)
      && View(t, prefix, Effect(t, rows, Drop(prefix, key))) == View(t, prefix, rows) - {key}
      && (Stored(t, prefix, rows, key).None? ==> View(t, prefix, rows) - {key} == View(t, prefix, rows))
  {
    ViewAt(t, prefix, rows, key);
    if Usable(key) { CommandRefinesMap(t, rows, Drop(prefix, key)); }
  }

  class RedisBackedDict {
    const redis: Store
    const prefix: string
    const text: Text

    constructor (redis: Store, prefix: string, text: Text)
      ensures this.redis == redis && this.prefix == prefix && this.text == text
    {
      this.redis, this.prefix, this.text := redis, prefix, text;
    }

    ghost function Contents(): map<Value, Value>
      reads this, redis
    {
      View(text, prefix, redis.rows)
    }

    method Get(key: Value, default: Option<Value>) returns (r: Option<Value>)
      requires Faithful(text)
      ensures Usable(key) ==> r == if key in Contents() then Some(Contents()[key]) else default
    {
      ViewAt(text, prefix, redis.rows, key);
      var value := Read(redis.rows, EntryKey(text, prefix, key));
      r := if value.None? then default else value;
    }

    /** The key error is None. */
    method GetItem(key: Value) returns (r: Option<Value>)
      requires Faithful(text)
      ensures Usable(key) ==> r == At(Contents(), key)
    {
      r := Get(key, None);
    }

    method SetItem(key: Value, value: Value)
      requires Faithful(text)
      modifies redis
      ensures redis.rows == Effect(text, old(redis.rows), Put(prefix, key, value))
      ensures Usable(key) ==> Contents() == MapEffect(old(Contents()), Put(prefix, key, value))
      ensures Usable(key) && Usable(value) ==> Contents() == old(Contents())[key := value]
    {
      if Usable(key) { CommandRefinesMap(text, redis.rows, Put(prefix, key, value)); }
      StoredValueIsLoaded(value);
      redis.rows := redis.rows[EntryKey(text, prefix, key) := Dumps(value)];
    }

    /** Fails, for a missing row, without effect.  A row that cannot be read is deleted without failing. */
    method DelItem(key: Value) returns (ok: bool)
      requires Faithful(text)
      modifies redis
      ensures ok == (EntryKey(text, prefix, key) in old(redis.rows))
      ensures redis.rows == Effect(text, old(redis.rows), Drop(prefix, key))
      ensures Usable(key) ==> Contents() == old(Contents()) - {key} && (key in old(Contents()) ==> ok)
    {
      ViewAt(text, prefix, redis.rows, key);
      if Usable(key) { CommandRefinesMap(text, redis.rows, Drop(prefix, key)); }
      ok := EntryKey(text, prefix, key) in redis.rows;
      redis.rows := redis.rows - {EntryKey(text, prefix, key)};
    }

    method Pop(key: Value, default: Option<Value>) returns (r: Option<Value>)
      requires Faithful(text)
      modifies redis
      ensures Usable(key) ==> r == if key in old(Contents()) then Some(old(Contents())[key]) else default
      ensures Usable(key) ==> Contents() == old(Contents()) - {key}
      ensures redis.rows == old(redis.rows) || redis.rows == Effect(text, old(redis.rows), Drop(prefix, key))
    {
      Popped(text, prefix, redis.rows, key);
      var value := Get(key, None);
      if value.None? { return default; }
      redis.rows := redis.rows - {EntryKey(text, prefix, key)};
      r := value;
    }

    method Clear()
      requires Faithful(text)
      modifies redis
      ensures redis.rows == Effect(text, old(redis.rows), Wipe(prefix)) && Contents() == map[]
    {
      CommandRefinesMap(text, redis.rows, Wipe(prefix));
      redis.rows := map row | row in redis.rows && !(Home(prefix) <= row) :: redis.rows[row];
    }

    method Length() returns (n: nat)
      requires Faithful(text)
      ensures n == |Scan(redis.rows, prefix)|
      ensures OwnRows(text, prefix, redis.rows) && OwnPayloads(prefix, redis.rows) ==> n == |Contents()|
    {
      LengthIsSizeExactlyWhen(text, prefix, redis.rows);
      n := |Scan(redis.rows, prefix)|;
    }

    /** Lists exactly the map, each key once, when every readable row under the prefix is the dictionary's own, as
        it is after every run of commands. */
    method Items() returns (pairs: seq<(Value, Value)>)
      requires Faithful(text)
      ensures Tidy(text, prefix, redis.rows) ==> ListsMap(pairs, Contents())
      ensures forall rows, cs :: OnlyOwnCommands(rows, cs, prefix) && redis.rows == Run(text, rows, cs) ==>
                ListsMap(pairs, MapRun(map[], cs, prefix))
      ensures Lists(text, prefix, redis.rows, Scan(redis.rows, prefix), pairs)
    {
      pairs := [];
      var rows := redis.rows;
      var todo := Scan(rows, prefix);
      ghost var seen: set<string> := {};
      while todo != {}
        invariant seen + todo == Scan(rows, prefix) && seen !! todo
        invariant Listing(text, prefix, rows, seen, pairs)
        decreases |todo|
      {
        var row :| row in todo;
        ListMore(text, prefix, rows, seen, pairs, row);
        pairs := Append(text, prefix, rows, pairs, row);
        MoveOne(seen, todo, row);
        todo, seen := todo - {row}, seen + {row};
      }
      assert seen == seen + todo == Scan(rows, prefix);
      if Tidy(text, prefix, rows) { TidyListing(text, prefix, rows, pairs); }
      forall was, cs | OnlyOwnCommands(was, cs, prefix) && redis.rows == Run(text, was, cs)
        ensures ListsMap(pairs, MapRun(map[], cs, prefix))
      {
        RunIsListed(text, was, cs, prefix);
      }
    }
  }

  method Append(t: Text, prefix: string, rows: Rows, pairs: seq<(Value, Value)>, row: string)
    returns (more: seq<(Value, Value)>)
    requires row in rows && Home(prefix) <= row
    ensures more == Listed(t, prefix, rows, pairs, row)
  {
    more := pairs;
    var key, value := KeyOf(t, prefix, row), Loads(Some(rows[row]));
    if key.Some? && value.Some? { more := more + [(key.value, value.value)]; }
  }

  lemma MoveOne(seen: set<string>, todo: set<string>, row: string)
    requires row in todo && seen !! todo
    ensures (seen + {row}) + (todo - {row}) == seen + todo && seen + {row} !! todo - {row}
  {
  }
}
