/** The request normaliser of `src/predict.py` (`normalize_input_any`),
    stated over any field table: the lookup of each field in the request, in
    order of precedence, and the defaults for fields the request lacks. */
module Normalize {
  import opened PyStr
  import opened Dicts

  // ---------------------------------------------------------------------------
  // The case- and whitespace-insensitive view of the request
  // ---------------------------------------------------------------------------

  /** `str(k).strip().lower()`. */
  function Fold(k: string): string {
    Lower(Strip(k))
  }

  /** The items of the request with their keys folded. */
  function FoldKeys(d: Dict<Value>): (r: Dict<Value>)
    ensures |r| == |d|
  {
    seq(|d|, i requires 0 <= i < |d| => (Fold(d[i].0), d[i].1))
  }

  /** `lowered`: a dict comprehension over the folded items. */
  function Lowered(d: Dict<Value>): Dict<Value> {
    FromItems(FoldKeys(d))
  }

  /** Some request key folds to `key`. */
  predicate FoldMatch(d: Dict<Value>, key: string) {
    HasKey(FoldKeys(d), key)
  }

  /** The last request item whose key folds to `key`. */
  function LastFolded(d: Dict<Value>, key: string): nat
    requires FoldMatch(d, key)
  {
    LastKey(FoldKeys(d), key)
  }

  /** Some request key folds to `key` exactly when one of its items has a
      key that folds to `key`; the last such item is the one found. */
  lemma LastFoldedSpec(d: Dict<Value>, key: string)
    ensures FoldMatch(d, key) <==> exists j | 0 <= j < |d| :: Fold(d[j].0) == key
    ensures FoldMatch(d, key) ==>
      var j := LastFolded(d, key);
      && j < |d| && Fold(d[j].0) == key
      && forall j' | j < j' < |d| :: Fold(d[j'].0) != key
  {
    var items := FoldKeys(d);
    if FoldMatch(d, key) {
      var j := LastFolded(d, key);
      assert items[j] == (Fold(d[j].0), d[j].1);
      forall j' | j < j' < |d| ensures Fold(d[j'].0) != key {
        assert items[j'] == (Fold(d[j'].0), d[j'].1);
      }
    }
    if exists j | 0 <= j < |d| :: Fold(d[j].0) == key {
      var j :| 0 <= j < |d| && Fold(d[j].0) == key;
      assert items[j].0 == key;
    }
  }

  /** A folded key is in `lowered` exactly when some request key folds to
      it, and then it holds the value of the last such item: when two
      request keys fold alike, the later one wins. */
  lemma LoweredSpec(d: Dict<Value>, key: string)
    ensures HasKey(Lowered(d), key) <==> FoldMatch(d, key)
    ensures FoldMatch(d, key) ==> HasKey(Lowered(d), key) && Get(Lowered(d), key) == d[LastFolded(d, key)].1
  {
    if FoldMatch(d, key) {
      FromItemsGet(FoldKeys(d), key);
      assert FoldKeys(d)[LastFolded(d, key)].1 == d[LastFolded(d, key)].1;
    }
  }

  // ---------------------------------------------------------------------------
  // normalize_input_any, over any field table
  // ---------------------------------------------------------------------------

  /** A field table as `COLUMN_MAP.items()`: (clean name, raw name) rows. */
  type Table = seq<(string, string)>

  /** As the items of a dict, the rows never repeat a clean name. */
  predicate WellFormed(table: Table) {
    forall i, j | 0 <= i < j < |table| :: table[i].0 != table[j].0
  }

  /** The value an unresolved field gets: 0 for a numeric field, "Unknown" otherwise. */
  function Default(numeric: set<string>, clean: string): (v: Value)
    ensures clean in numeric <==> v == Int(0)
    ensures clean !in numeric <==> v == Str("Unknown")
  {
    if clean in numeric then Int(0) else Str("Unknown")
  }

  /** The value chosen for one field, in the order the checks are made. */
  function Resolve(d: Dict<Value>, lowered: Dict<Value>, numeric: set<string>, clean: string, raw: string): Value {
    if HasKey(d, clean) then Get(d, clean)
    else if HasKey(d, raw) then Get(d, raw)
    else if HasKey(lowered, Lower(raw)) then Get(lowered, Lower(raw))
    else if HasKey(lowered, Lower(clean)) then Get(lowered, Lower(clean))
    else Default(numeric, clean)
  }

  /** The normalised record for field table `table` and numeric fields
      `numeric`: one item per row, in table order. */
  function NormalizeWith(table: Table, numeric: set<string>, d: Dict<Value>, lowered: Dict<Value>): (r: Dict<Value>)
    ensures |r| == |table|
    ensures forall i | 0 <= i < |table| :: r[i].0 == table[i].0
  {
    if table == [] then []
    else
      var init, last := table[..|table| - 1], table[|table| - 1];
      var r := NormalizeWith(init, numeric, d, lowered) + [(last.0, Resolve(d, lowered, numeric, last.0, last.1))];
      assert forall i | 0 <= i < |init| :: r[i].0 == init[i].0 == table[i].0;
      r
  }

  /** Row `i` of the normalised record holds the value resolved for row `i` of the table. */
  lemma {:induction false} NormalizeAt(table: Table, numeric: set<string>, d: Dict<Value>, lowered: Dict<Value>, i: int)
    requires 0 <= i < |table|
    ensures NormalizeWith(table, numeric, d, lowered)[i] == (table[i].0, Resolve(d, lowered, numeric, table[i].0, table[i].1))
  {
    var init := table[..|table| - 1];
    if i < |init| {
      NormalizeAt(init, numeric, d, lowered, i);
      assert init[i] == table[i];
    }
  }

  /** The loop of `normalize_input_any` over the rows of `table`, filling `out`
      with `continue`-style precedence. */
  method NormalizeTable(table: Table, numeric: set<string>, input: Dict<Value>) returns (out: Dict<Value>)
    requires WellFormed(table)
    ensures out == NormalizeWith(table, numeric, input, Lowered(input))
  {
    out := [];
    var lowered := Lowered(input);
    for i := 0 to |table|
      invariant out == NormalizeWith(table[..i], numeric, input, lowered)
    {
      var clean, raw := table[i].0, table[i].1;
      var v: Value;
      if HasKey(input, clean) {
        v := Get(input, clean);
      } else if HasKey(input, raw) {
        v := Get(input, raw);
      } else if HasKey(lowered, Lower(raw)) {
        v := Get(lowered, Lower(raw));
      } else if HasKey(lowered, Lower(clean)) {
        v := Get(lowered, Lower(clean));
      } else if clean in numeric {
        v := Int(0);
      } else {
        v := Str("Unknown");
      }
      assert v == Resolve(input, lowered, numeric, clean, raw);
      NormalizeStep(table, numeric, input, lowered, i);
      out := Put(out, clean, v);
    }
    assert table[..|table|] == table;
  }

  /** One more row of the table appends its field to the record built so far,
      which does not hold that name yet. */
  lemma NormalizeStep(table: Table, numeric: set<string>, d: Dict<Value>, lowered: Dict<Value>, i: int)
    requires WellFormed(table) && 0 <= i < |table|
    ensures var n := NormalizeWith(table[..i], numeric, d, lowered);
      && DistinctKeys(n) && !HasKey(n, table[i].0)
      && NormalizeWith(table[..i + 1], numeric, d, lowered) == n + [(table[i].0, Resolve(d, lowered, numeric, table[i].0, table[i].1))]
  {
    var n := NormalizeWith(table[..i], numeric, d, lowered);
    assert forall j | 0 <= j < |n| :: n[j].0 == table[j].0 by {
      forall j | 0 <= j < |n| ensures n[j].0 == table[j].0 {
        assert table[..i][j] == table[j];
      }
    }
    assert table[..i + 1][..i] == table[..i];
  }

  /** The result holds exactly the clean names of the table, each once, in table order. */
  lemma NormalizeKeys(table: Table, numeric: set<string>, d: Dict<Value>, lowered: Dict<Value>)
    requires WellFormed(table)
    ensures KeysOf(NormalizeWith(table, numeric, d, lowered)) == KeysOf(table)
    ensures DistinctKeys(NormalizeWith(table, numeric, d, lowered))
    ensures forall k :: HasKey(NormalizeWith(table, numeric, d, lowered), k) <==> k in KeysOf(table)
  {
    var n := NormalizeWith(table, numeric, d, lowered);
    KeysAre(n, KeysOf(table));
    HasKeyInKeys(n);
  }

  /** The value resolved for one field, stated against the request itself:
      an exact clean key wins over an exact raw key, which wins over a key
      folding to the lowered raw name, which wins over a key folding to the
      lowered clean name; the value found is copied unchanged; with no match
      the field gets its default. */
  lemma ResolveSpec(d: Dict<Value>, numeric: set<string>, c: string, raw: string)
    ensures var r := Resolve(d, Lowered(d), numeric, c, raw);
      && (HasKey(d, c) ==> r == Get(d, c))
      && (!HasKey(d, c) && HasKey(d, raw) ==> r == Get(d, raw))
      && (!HasKey(d, c) && !HasKey(d, raw) && FoldMatch(d, Lower(raw)) ==>
            r == d[LastFolded(d, Lower(raw))].1)
      && (!HasKey(d, c) && !HasKey(d, raw) && !FoldMatch(d, Lower(raw)) && FoldMatch(d, Lower(c)) ==>
            r == d[LastFolded(d, Lower(c))].1)
      && (!HasKey(d, c) && !HasKey(d, raw) && !FoldMatch(d, Lower(raw)) && !FoldMatch(d, Lower(c)) ==>
            r == Default(numeric, c))
  {
    LoweredSpec(d, Lower(raw));
    LoweredSpec(d, Lower(c));
  }

  /** Row `i`'s clean name is in the normalised record with the value
      `ResolveSpec` describes. */
  lemma NormalizeValue(table: Table, numeric: set<string>, d: Dict<Value>, lowered: Dict<Value>, i: int)
    requires WellFormed(table) && 0 <= i < |table|
    ensures var n := NormalizeWith(table, numeric, d, lowered);
      HasKey(n, table[i].0) && Get(n, table[i].0) == Resolve(d, lowered, numeric, table[i].0, table[i].1)
  {
    NormalizeKeys(table, numeric, d, lowered);
    NormalizeAt(table, numeric, d, lowered, i);
    GetAt(NormalizeWith(table, numeric, d, lowered), i);
  }

  /** Normalising a normalised record changes nothing: every clean key is
      present, so each row takes its own value back, whatever the folded
      view of the record holds. */
  lemma NormalizeIdempotent(table: Table, numeric: set<string>, d: Dict<Value>, lowered: Dict<Value>, lowered': Dict<Value>)
    requires WellFormed(table)
    ensures var n := NormalizeWith(table, numeric, d, lowered);
      NormalizeWith(table, numeric, n, lowered') == n
  {
    var n := NormalizeWith(table, numeric, d, lowered);
    NormalizeKeys(table, numeric, d, lowered);
    forall i | 0 <= i < |table| ensures NormalizeWith(table, numeric, n, lowered')[i] == n[i] {
      NormalizeAt(table, numeric, n, lowered', i);
      GetAt(n, i);
    }
  }

  /** A key that is no clean or raw name of the table, and that does not
      fold to a lowered clean or raw name, plays no part in the lookup. */
  predicate IgnoredBy(table: Table, k: string) {
    forall i | 0 <= i < |table| ::
      && k != table[i].0 && k != table[i].1
      && Fold(k) != Lower(table[i].0) && Fold(k) != Lower(table[i].1)
  }

  /** A key without surrounding whitespace whose length is that of no name
      of the table is ignored by it. */
  lemma IgnoredByLength(table: Table, k: string, n: nat)
    requires Strip(k) == k && |k| == n
    requires forall i | 0 <= i < |table| :: |table[i].0| != n && |table[i].1| != n
    ensures IgnoredBy(table, k)
  {
    assert |Fold(k)| == |k|;
  }

  /** Adding an item under a key none of the four lookups of a field can
      reach leaves that field's value as it was. */
  lemma ResolveIgnoresKey(d: Dict<Value>, numeric: set<string>, c: string, raw: string, k: string, v: Value)
    requires k != c && k != raw && Fold(k) != Lower(c) && Fold(k) != Lower(raw)
    ensures Resolve(d + [(k, v)], Lowered(d + [(k, v)]), numeric, c, raw) == Resolve(d, Lowered(d), numeric, c, raw)
  {
    var e, lowered := d + [(k, v)], Lowered(d);
    GetAppend(d, (k, v));
    LoweredAppend(d, k, v);
    PutSpec(lowered, Fold(k), v);
    SameLookups(e, Lowered(e), d, lowered, numeric, c, raw);
  }

  /** A field's value depends only on the four lookups it makes. */
  lemma SameLookups(d: Dict<Value>, l: Dict<Value>, d': Dict<Value>, l': Dict<Value>, numeric: set<string>, c: string, raw: string)
    requires HasKey(d, c) == HasKey(d', c) && (HasKey(d, c) ==> Get(d, c) == Get(d', c))
    requires HasKey(d, raw) == HasKey(d', raw) && (HasKey(d, raw) ==> Get(d, raw) == Get(d', raw))
    requires HasKey(l, Lower(raw)) == HasKey(l', Lower(raw)) && (HasKey(l, Lower(raw)) ==> Get(l, Lower(raw)) == Get(l', Lower(raw)))
    requires HasKey(l, Lower(c)) == HasKey(l', Lower(c)) && (HasKey(l, Lower(c)) ==> Get(l, Lower(c)) == Get(l', Lower(c)))
    ensures Resolve(d, l, numeric, c, raw) == Resolve(d', l', numeric, c, raw)
  {
  }

  /** Appending an item to the request assigns its value to its folded key in `lowered`. */
  lemma LoweredAppend(d: Dict<Value>, k: string, v: Value)
    ensures Lowered(d + [(k, v)]) == Put(Lowered(d), Fold(k), v)
  {
    var items := FoldKeys(d + [(k, v)]);
    assert items[..|items| - 1] == FoldKeys(d);
    assert items[|items| - 1] == (Fold(k), v);
  }

  /** Adding an ignored key to a request leaves the normalised record as it was. */
  lemma NormalizeIgnoresKey(table: Table, numeric: set<string>, d: Dict<Value>, k: string, v: Value)
    requires IgnoredBy(table, k)
    ensures NormalizeWith(table, numeric, d + [(k, v)], Lowered(d + [(k, v)])) == NormalizeWith(table, numeric, d, Lowered(d))
  {
    var e := d + [(k, v)];
    forall i | 0 <= i < |table| ensures NormalizeWith(table, numeric, e, Lowered(e))[i] == NormalizeWith(table, numeric, d, Lowered(d))[i] {
      NormalizeAt(table, numeric, e, Lowered(e), i);
      NormalizeAt(table, numeric, d, Lowered(d), i);
      ResolveIgnoresKey(d, numeric, table[i].0, table[i].1, k, v);
    }
  }
}
