/** Python values and insertion-ordered dictionaries, as the service passes
    them around: a request body, the normalised record and the one-row frame
    handed to the model are all `str`-keyed dicts whose iteration order is the
    order in which keys were first inserted. */
module Dicts {

  /** A cell value: a Python `int`, a `float`, a `str`, or a missing value
      (`None`, or the `NaN` pandas uses for one). */
  datatype Value = Int(i: int) | Float(x: real) | Str(s: string) | Null

  /** A `str`-keyed dict as the list of its items in insertion order. */
  type Dict<V> = seq<(string, V)>

  /** `list(d.keys())`. */
  function KeysOf<V>(d: Dict<V>): (ks: seq<string>)
    ensures |ks| == |d|
    ensures forall i | 0 <= i < |d| :: ks[i] == d[i].0
  {
    if d == [] then [] else [d[0].0] + KeysOf(d[1..])
  }

  /** `k in d`. */
  predicate HasKey<V>(d: Dict<V>, k: string) {
    exists i | 0 <= i < |d| :: d[i].0 == k
  }

  /** A list laid out as the keys of `d`, position by position, is `list(d.keys())`. */
  lemma KeysAre<V>(d: Dict<V>, ks: seq<string>)
    requires |ks| == |d|
    requires forall i | 0 <= i < |d| :: ks[i] == d[i].0
    ensures KeysOf(d) == ks
  {
    assert forall i | 0 <= i < |d| :: KeysOf(d)[i] == ks[i];
  }

  /** `k in d` exactly when `k in list(d.keys())`. */
  lemma HasKeyInKeys<V>(d: Dict<V>)
    ensures forall k :: HasKey(d, k) <==> k in KeysOf(d)
  {
    forall k ensures HasKey(d, k) <==> k in KeysOf(d) {
      if k in KeysOf(d) {
        var i :| 0 <= i < |d| && KeysOf(d)[i] == k;
        assert d[i].0 == k;
      }
    }
  }

  /** A real dict never holds a key twice. */
  predicate DistinctKeys<V>(d: Dict<V>) {
    forall i, j | 0 <= i < j < |d| :: d[i].0 != d[j].0
  }

  /** The position of the first item with key `k`. */
  function FindKey<V>(d: Dict<V>, k: string): (i: nat)
    requires HasKey(d, k)
    ensures i < |d| && d[i].0 == k
    ensures forall j | 0 <= j < i :: d[j].0 != k
  {
    if d[0].0 == k then 0
    else
      assert HasKey(d[1..], k) by {
        var i :| 0 <= i < |d| && d[i].0 == k;
        assert d[1..][i - 1].0 == k;
      }
      1 + FindKey(d[1..], k)
  }

  /** The position of the last item with key `k`. */
  function LastKey<V>(d: Dict<V>, k: string): (i: nat)
    requires HasKey(d, k)
    ensures i < |d| && d[i].0 == k
    ensures forall j | i < j < |d| :: d[j].0 != k
  {
    if d[|d| - 1].0 == k then |d| - 1
    else
      assert HasKey(d[..|d| - 1], k) by {
        var i :| 0 <= i < |d| && d[i].0 == k;
        assert d[..|d| - 1][i].0 == k;
      }
      LastKey(d[..|d| - 1], k)
  }

  /** `d[k]`: the value stored under the first (in a real dict, the only) item with key `k`. */
  function Get<V>(d: Dict<V>, k: string): V
    requires HasKey(d, k)
  {
    d[FindKey(d, k)].1
  }

  /** In a dict with distinct keys, looking up the key of an item gives that item's value. */
  lemma GetAt<V>(d: Dict<V>, i: int)
    requires DistinctKeys(d)
    requires 0 <= i < |d|
    ensures HasKey(d, d[i].0)
    ensures Get(d, d[i].0) == d[i].1
  {
    var j := FindKey(d, d[i].0);
    assert !(j < i) && !(i < j);
  }

  /** Appending an item adds its key and leaves every earlier lookup alone. */
  lemma GetAppend<V>(d: Dict<V>, x: (string, V))
    ensures forall k :: HasKey(d + [x], k) <==> HasKey(d, k) || k == x.0
    ensures forall k | HasKey(d, k) :: Get(d + [x], k) == Get(d, k)
    ensures !HasKey(d, x.0) ==> Get(d + [x], x.0) == x.1
  {
    var e := d + [x];
    forall k ensures HasKey(e, k) <==> HasKey(d, k) || k == x.0 {
      if HasKey(d, k) {
        var i :| 0 <= i < |d| && d[i].0 == k;
        assert e[i].0 == k;
      }
      if k == x.0 {
        assert e[|d|].0 == k;
      }
    }
    forall k | HasKey(d, k) ensures Get(e, k) == Get(d, k) {
      var i := FindKey(d, k);
      assert e[i] == d[i];
      assert forall j | 0 <= j < i :: e[j] == d[j];
      assert FindKey(e, k) == i by {
        var j := FindKey(e, k);
        assert !(j < i);
      }
    }
    if !HasKey(d, x.0) {
      assert forall j | 0 <= j < |d| :: e[j].0 != x.0;
    }
  }

  /** `d[k] = v`: an existing key keeps its place and takes the new value; a
      new key is appended at the end. */
  function Put<V>(d: Dict<V>, k: string, v: V): (r: Dict<V>)
    requires DistinctKeys(d)
    ensures |r| == if HasKey(d, k) then |d| else |d| + 1
    ensures forall i | 0 <= i < |d| :: r[i] == if d[i].0 == k then (k, v) else d[i]
    ensures !HasKey(d, k) ==> r[|d|] == (k, v)
  {
    if HasKey(d, k) then d[FindKey(d, k) := (k, v)] else d + [(k, v)]
  }

  /** What assignment does to a dict with distinct keys: the keys stay
      distinct, `k` is added if it was missing, `k` now holds `v`, and every
      other key keeps its value. */
  lemma PutSpec<V>(d: Dict<V>, k: string, v: V)
    requires DistinctKeys(d)
    ensures DistinctKeys(Put(d, k, v))
    ensures HasKey(Put(d, k, v), k) && Get(Put(d, k, v), k) == v
    ensures forall k' :: HasKey(Put(d, k, v), k') <==> HasKey(d, k') || k' == k
    ensures forall k' | k' != k && HasKey(d, k') :: Get(Put(d, k, v), k') == Get(d, k')
  {
    var r := Put(d, k, v);
    assert forall i | 0 <= i < |r| :: r[i].0 == if i < |d| then d[i].0 else k;
    assert DistinctKeys(r);
    assert r[FindKey(r, k)] == (k, v) by {
      var j := FindKey(r, k);
      if j < |d| { assert d[j].0 == k; }
    }
    forall k' ensures HasKey(r, k') <==> HasKey(d, k') || k' == k {
      if HasKey(d, k') {
        var i :| 0 <= i < |d| && d[i].0 == k';
        assert r[i].0 == k';
      }
      if k' == k && !HasKey(d, k) {
        assert r[|d|].0 == k';
      }
    }
    forall k' | k' != k && HasKey(d, k') ensures Get(r, k') == Get(d, k') {
      var i := FindKey(d, k');
      GetAt(r, i);
    }
  }

  /** `df.drop(columns=[k])` on a frame that has column `k`. */
  function DropColumn<V>(df: Dict<V>, k: string): (r: Dict<V>)
    requires HasKey(df, k)
    ensures |r| == |df| - 1
  {
    var j := FindKey(df, k);
    df[..j] + df[j + 1..]
  }

  /** The items before the dropped one keep their places; the later ones
      move up by one. */
  lemma DropColumnAt<V>(df: Dict<V>, k: string, i: int)
    requires HasKey(df, k) && 0 <= i < |df| - 1
    ensures DropColumn(df, k)[i] == df[if i < FindKey(df, k) then i else i + 1]
  {
  }

  /** Dropping a column of a real dict removes that key and nothing else. */
  lemma DropColumnSpec<V>(df: Dict<V>, k: string)
    requires DistinctKeys(df) && HasKey(df, k)
    ensures DistinctKeys(DropColumn(df, k))
    ensures forall k' :: HasKey(DropColumn(df, k), k') <==> HasKey(df, k') && k' != k
    ensures forall k' | HasKey(df, k') && k' != k :: Get(DropColumn(df, k), k') == Get(df, k')
  {
    DropColumnDistinct(df, k);
    DropColumnKeys(df, k);
    forall k' | HasKey(df, k') && k' != k ensures Get(DropColumn(df, k), k') == Get(df, k') {
      DropColumnGet(df, k, k');
    }
  }

  lemma DropColumnDistinct<V>(df: Dict<V>, k: string)
    requires DistinctKeys(df) && HasKey(df, k)
    ensures DistinctKeys(DropColumn(df, k))
  {
    var r := DropColumn(df, k);
    forall a, b | 0 <= a < b < |r| ensures r[a].0 != r[b].0 {
      DropColumnAt(df, k, a);
      DropColumnAt(df, k, b);
    }
  }

  lemma DropColumnKeys<V>(df: Dict<V>, k: string)
    requires DistinctKeys(df) && HasKey(df, k)
    ensures forall k' :: HasKey(DropColumn(df, k), k') <==> HasKey(df, k') && k' != k
  {
    var j := FindKey(df, k);
    var r := DropColumn(df, k);
    forall k' ensures HasKey(r, k') <==> HasKey(df, k') && k' != k {
      if HasKey(df, k') && k' != k {
        var i := FindKey(df, k');
        DropColumnAt(df, k, if i < j then i else i - 1);
      }
      if HasKey(r, k') {
        var a :| 0 <= a < |r| && r[a].0 == k';
        DropColumnAt(df, k, a);
      }
    }
  }

  lemma DropColumnGet<V>(df: Dict<V>, k: string, k': string)
    requires DistinctKeys(df) && HasKey(df, k) && HasKey(df, k') && k' != k
    ensures HasKey(DropColumn(df, k), k') && Get(DropColumn(df, k), k') == Get(df, k')
  {
    var j := FindKey(df, k);
    var i := FindKey(df, k');
    var a := if i < j then i else i - 1;
    DropColumnDistinct(df, k);
    DropColumnAt(df, k, a);
    GetAt(df, i);
    GetAt(DropColumn(df, k), a);
  }

  /** `dict(items)` or a dict comprehension over `items`: keys in order of
      first appearance, a repeated key keeping the value of its last item. */
  function FromItems<V>(items: seq<(string, V)>): (d: Dict<V>)
    ensures DistinctKeys(d)
    ensures forall k :: HasKey(d, k) <==> HasKey(items, k)
  {
    if items == [] then []
    else
      var init := items[..|items| - 1];
      var last := items[|items| - 1];
      var d := FromItems(init);
      assert forall k :: HasKey(items, k) <==> HasKey(init, k) || k == last.0 by {
        forall k ensures HasKey(items, k) <==> HasKey(init, k) || k == last.0 {
          if HasKey(init, k) {
            var i :| 0 <= i < |init| && init[i].0 == k;
            assert items[i].0 == k;
          }
          if HasKey(items, k) && k != last.0 {
            var i :| 0 <= i < |items| && items[i].0 == k;
            assert init[i].0 == k;
          }
        }
      }
      PutSpec(d, last.0, last.1);
      Put(d, last.0, last.1)
  }

  /** A key maps to the value of its last item. */
  lemma {:induction false} FromItemsLast<V>(items: seq<(string, V)>, i: int)
    requires 0 <= i < |items|
    requires forall j | i < j < |items| :: items[j].0 != items[i].0
    ensures HasKey(FromItems(items), items[i].0)
    ensures Get(FromItems(items), items[i].0) == items[i].1
  {
    var init := items[..|items| - 1];
    var last := items[|items| - 1];
    PutSpec(FromItems(init), last.0, last.1);
    if i < |items| - 1 {
      assert init[i] == items[i];
      assert forall j | i < j < |init| :: init[j].0 != init[i].0 by {
        forall j | i < j < |init| ensures init[j].0 != init[i].0 {
          assert init[j] == items[j];
        }
      }
      FromItemsLast(init, i);
    }
  }

  /** Each key of a comprehension maps to the value of the last item with that key. */
  lemma FromItemsGet<V>(items: seq<(string, V)>, k: string)
    requires HasKey(items, k)
    ensures HasKey(FromItems(items), k) && Get(FromItems(items), k) == items[LastKey(items, k)].1
  {
    FromItemsLast(items, LastKey(items, k));
  }

  /** Items with distinct keys make a dict holding exactly those items, in order. */
  lemma {:induction false} FromItemsDistinct<V>(items: seq<(string, V)>)
    requires DistinctKeys(items)
    ensures FromItems(items) == items
  {
    if items != [] {
      var init := items[..|items| - 1];
      var last := items[|items| - 1];
      DistinctInit(items);
      FromItemsDistinct(init);
      assert FromItems(items) == Put(init, last.0, last.1);
      assert init + [last] == items;
    }
  }

  /** Dropping the last item of a list with distinct keys keeps the keys
      distinct, and the last key is not among the others. */
  lemma DistinctInit<V>(items: seq<(string, V)>)
    requires DistinctKeys(items) && items != []
    ensures DistinctKeys(items[..|items| - 1])
    ensures !HasKey(items[..|items| - 1], items[|items| - 1].0)
  {
    var init := items[..|items| - 1];
    assert forall i | 0 <= i < |init| :: init[i] == items[i];
  }
}
