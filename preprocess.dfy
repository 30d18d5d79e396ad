/** The one-row frame handed to the model (`src/preprocess.py`): the
    normalised record with any "Name" column dropped, clean names renamed to
    raw column headers, every missing raw column added as 0, and missing
    values replaced by 0. A frame with one row is modelled as its list of
    (column, cell) pairs in column order. */
module Preprocess {
  import opened Dicts
  import opened Columns

  /** The column a key becomes under `rename(columns=COLUMN_MAP)`: a clean
      name becomes its raw name, any other name is kept. */
  function RawName(k: string): (r: string)
    ensures IsClean(k) ==> IsRaw(r)
    ensures !IsClean(k) ==> r == k
  {
    if IsClean(k) then RawOf(k) else k
  }

  /** `rename_to_raw_columns(df)`. */
  function RenameToRawColumns(df: Dict<Value>): (r: Dict<Value>)
    ensures |r| == |df|
    ensures forall i | 0 <= i < |df| :: r[i] == (RawName(df[i].0), df[i].1)
  {
    seq(|df|, i requires 0 <= i < |df| => (RawName(df[i].0), df[i].1))
  }

  /** The `for raw_col in COLUMN_MAP.values()` loop: each listed column that
      is not yet in the frame is added at the end with the value 0. */
  function AddMissing(df: Dict<Value>, cols: seq<string>): Dict<Value>
    decreases |cols|
  {
    if cols == [] then df
    else AddMissing(if HasKey(df, cols[0]) then df else df + [(cols[0], Int(0))], cols[1..])
  }

  /** A cell after `fillna(0)`. */
  function ZeroIfNull(v: Value): (w: Value)
    ensures w != Null
    ensures v == Null ==> w == Int(0)
    ensures v != Null ==> w == v
  {
    if v == Null then Int(0) else v
  }

  /** `df.fillna(0)`. */
  function FillNa(df: Dict<Value>): (r: Dict<Value>)
    ensures |r| == |df|
    ensures forall i | 0 <= i < |df| :: r[i] == (df[i].0, ZeroIfNull(df[i].1))
  {
    seq(|df|, i requires 0 <= i < |df| => (df[i].0, ZeroIfNull(df[i].1)))
  }

  /** The frame after the "Name" drop. */
  function Named(data: Dict<Value>): Dict<Value> {
    if HasKey(data, "Name") then DropColumn(data, "Name") else data
  }

  /** The frame after the rename. */
  function Renamed(data: Dict<Value>): Dict<Value> {
    RenameToRawColumns(Named(data))
  }

  /** The frame after the fill loop. */
  function Filled(data: Dict<Value>): Dict<Value> {
    AddMissing(Renamed(data), RawKeys())
  }

  /** The frame `preprocess_input(data)` returns. */
  function Preprocessed(data: Dict<Value>): Dict<Value> {
    FillNa(Filled(data))
  }

  /** `preprocess_input(data)`. */
  method PreprocessInput(data: Dict<Value>) returns (df: Dict<Value>)
    ensures df == Preprocessed(data)
  {
    df := data;
    if HasKey(df, "Name") {
      df := DropColumn(df, "Name");
    }
    df := RenameToRawColumns(df);
    ghost var renamed := df;
    var raws := RawKeys();
    for i := 0 to |raws|
      invariant AddMissing(df, raws[i..]) == AddMissing(renamed, raws)
    {
      assert raws[i..][1..] == raws[i + 1..];
      if !HasKey(df, raws[i]) {
        df := df + [(raws[i], Int(0))];
      }
    }
    df := FillNa(df);
  }

  // ---------------------------------------------------------------------------
  // Properties of each step
  // ---------------------------------------------------------------------------

  /** "Name" is neither a clean nor a raw name. */
  lemma NameIsNoColumn()
    ensures !IsClean("Name") && !IsRaw("Name")
  {
    forall i | 0 <= i < |ColumnMap| ensures ColumnMap[i].0 != "Name" && ColumnMap[i].1 != "Name" {
      assert CleanKeys()[i] == ColumnMap[i].0 && RawKeys()[i] == ColumnMap[i].1;
    }
  }

  /** A frame whose raw-named columns are all also clean names (the only such
      names are the four rows whose clean and raw names coincide). */
  predicate NoRenameClash(df: Dict<Value>) {
    forall i | 0 <= i < |df| :: IsRaw(df[i].0) ==> IsClean(df[i].0)
  }

  /** Renaming cannot send two such names to one column. */
  lemma RawNameInjective(a: string, b: string)
    requires IsRaw(a) ==> IsClean(a)
    requires IsRaw(b) ==> IsClean(b)
    requires RawName(a) == RawName(b)
    ensures a == b
  {
    RawDistinct();
    if IsClean(a) && IsClean(b) {
      RawOfAt(CleanRow(a));
      RawOfAt(CleanRow(b));
    }
  }

  /** Without clashes the renamed frame is still a real dict, and each column
      holds the value of the key renamed to it. */
  lemma RenameSpec(df: Dict<Value>)
    requires DistinctKeys(df) && NoRenameClash(df)
    ensures DistinctKeys(RenameToRawColumns(df))
    ensures forall i | 0 <= i < |df| :: Get(RenameToRawColumns(df), RawName(df[i].0)) == df[i].1
  {
    var r := RenameToRawColumns(df);
    forall i, j | 0 <= i < j < |r| ensures r[i].0 != r[j].0 {
      if r[i].0 == r[j].0 {
        RawNameInjective(df[i].0, df[j].0);
      }
    }
    forall i | 0 <= i < |df| ensures Get(r, RawName(df[i].0)) == df[i].1 {
      GetAt(r, i);
    }
  }

  /** The fill loop adds exactly the missing listed columns, with 0, and
      leaves the columns already present as they were. */
  lemma {:induction false} AddMissingSpec(df: Dict<Value>, cols: seq<string>)
    ensures forall k :: HasKey(AddMissing(df, cols), k) <==> HasKey(df, k) || k in cols
    ensures forall k | HasKey(df, k) :: Get(AddMissing(df, cols), k) == Get(df, k)
    ensures forall k | k in cols && !HasKey(df, k) :: Get(AddMissing(df, cols), k) == Int(0)
    ensures DistinctKeys(df) ==> DistinctKeys(AddMissing(df, cols))
    decreases |cols|
  {
    if cols != [] {
      var next := if HasKey(df, cols[0]) then df else df + [(cols[0], Int(0))];
      GetAppend(df, (cols[0], Int(0)));
      AddMissingSpec(next, cols[1..]);
      assert forall k :: k in cols <==> k == cols[0] || k in cols[1..];
      if DistinctKeys(df) && !HasKey(df, cols[0]) {
        assert forall i | 0 <= i < |df| :: next[i].0 != cols[0];
      }
    }
  }

  /** `fillna(0)` keeps the columns and zeroes the missing cells. */
  lemma FillNaSpec(df: Dict<Value>)
    ensures KeysOf(FillNa(df)) == KeysOf(df)
    ensures forall k :: HasKey(FillNa(df), k) <==> HasKey(df, k)
    ensures forall k | HasKey(df, k) :: Get(FillNa(df), k) == ZeroIfNull(Get(df, k))
    ensures DistinctKeys(df) ==> DistinctKeys(FillNa(df))
  {
    var r := FillNa(df);
    forall k | HasKey(df, k) ensures Get(r, k) == ZeroIfNull(Get(df, k)) {
      var i := FindKey(df, k);
      assert FindKey(r, k) == i by {
        var j := FindKey(r, k);
        assert !(j < i);
      }
    }
    forall k ensures HasKey(r, k) <==> HasKey(df, k) {
      if HasKey(df, k) {
        var i :| 0 <= i < |df| && df[i].0 == k;
        assert r[i].0 == k;
      }
    }
  }

  // ---------------------------------------------------------------------------
  // What comes out of `preprocess_input`
  // ---------------------------------------------------------------------------

  /** Dropping "Name" from a real dict removes that key alone, keeps every
      other value, and keeps a frame free of rename clashes free of them. */
  lemma NamedSpec(data: Dict<Value>)
    requires DistinctKeys(data)
    ensures DistinctKeys(Named(data))
    ensures NoRenameClash(data) ==> NoRenameClash(Named(data))
    ensures forall k :: HasKey(Named(data), k) <==> HasKey(data, k) && k != "Name"
    ensures forall k | HasKey(data, k) && k != "Name" :: Get(Named(data), k) == Get(data, k)
  {
    var named := Named(data);
    if HasKey(data, "Name") {
      DropColumnSpec(data, "Name");
    }
    if NoRenameClash(data) {
      forall i | 0 <= i < |named| && IsRaw(named[i].0) ensures IsClean(named[i].0) {
        var j := FindKey(data, named[i].0);
      }
    }
  }

  /** After the rename: a clean key's value sits under its raw name, any
      other surviving key under its own name, and nothing else is there. */
  lemma RenamedSpec(data: Dict<Value>)
    requires DistinctKeys(data) && NoRenameClash(data)
    ensures DistinctKeys(Renamed(data))
    ensures forall k | HasKey(Renamed(data), k) :: IsRaw(k) || (HasKey(data, k) && !IsClean(k) && k != "Name")
    ensures forall c | IsClean(c) && HasKey(data, c) :: HasKey(Renamed(data), RawOf(c)) && Get(Renamed(data), RawOf(c)) == Get(data, c)
    ensures forall k | HasKey(data, k) && !IsClean(k) && k != "Name" :: HasKey(Renamed(data), k) && Get(Renamed(data), k) == Get(data, k)
    ensures forall c | IsClean(c) && !HasKey(data, c) :: !HasKey(Renamed(data), RawOf(c))
  {
    NameIsNoColumn();
    NamedSpec(data);
    var named := Named(data);
    var renamed := Renamed(data);
    RenameSpec(named);
    forall k | HasKey(renamed, k) ensures IsRaw(k) || (HasKey(data, k) && !IsClean(k) && k != "Name") {
      var i := FindKey(renamed, k);
      assert HasKey(named, named[i].0);
    }
    forall c | IsClean(c) && HasKey(data, c) ensures HasKey(renamed, RawOf(c)) && Get(renamed, RawOf(c)) == Get(data, c) {
      var j := FindKey(named, c);
      assert renamed[j].0 == RawOf(c);
    }
    forall k | HasKey(data, k) && !IsClean(k) && k != "Name" ensures HasKey(renamed, k) && Get(renamed, k) == Get(data, k) {
      var j := FindKey(named, k);
      assert renamed[j].0 == k;
    }
    forall c | IsClean(c) && !HasKey(data, c) ensures !HasKey(renamed, RawOf(c)) {
      if HasKey(renamed, RawOf(c)) {
        var j := FindKey(renamed, RawOf(c));
        var k := named[j].0;
        assert HasKey(data, k);
        assert IsRaw(RawName(k));
        RawNameInjective(k, c);
        assert false;
      }
    }
  }

  /** For a real dict without rename clashes: every raw column is present, no
      "Name" column survives, and the only other columns are the input's keys
      that are neither clean names nor "Name", under their own names; the
      frame has no repeated column and no missing cell. */
  lemma PreprocessedColumns(data: Dict<Value>)
    requires DistinctKeys(data) && NoRenameClash(data)
    ensures DistinctKeys(Preprocessed(data))
    ensures forall k :: HasKey(Preprocessed(data), k) <==> IsRaw(k) || (HasKey(data, k) && !IsClean(k) && k != "Name")
    ensures !HasKey(Preprocessed(data), "Name")
    ensures forall i | 0 <= i < |Preprocessed(data)| :: Preprocessed(data)[i].1 != Null
  {
    NameIsNoColumn();
    PreprocessedKeys(data);
    RenamedSpec(data);
    AddMissingSpec(Renamed(data), RawKeys());
    FillNaSpec(Filled(data));
  }

  /** The columns of the frame: the raw names and the input's other keys. */
  lemma PreprocessedKeys(data: Dict<Value>)
    requires DistinctKeys(data) && NoRenameClash(data)
    ensures forall k :: HasKey(Preprocessed(data), k) <==> IsRaw(k) || (HasKey(data, k) && !IsClean(k) && k != "Name")
  {
    var renamed, p := Renamed(data), Preprocessed(data);
    RenamedSpec(data);
    AddMissingSpec(renamed, RawKeys());
    FillNaSpec(Filled(data));
    forall k ensures HasKey(p, k) <==> IsRaw(k) || (HasKey(data, k) && !IsClean(k) && k != "Name") {
      assert HasKey(p, k) <==> HasKey(renamed, k) || k in RawKeys();
    }
  }

  /** For a real dict without rename clashes: each clean key's value lands,
      unchanged except for 0 in place of a missing value, under its raw name;
      a raw column whose clean key is absent holds 0; and every other key
      keeps its own name and value. */
  lemma PreprocessedValues(data: Dict<Value>)
    requires DistinctKeys(data) && NoRenameClash(data)
    ensures forall c | IsClean(c) && HasKey(data, c) ::
      HasKey(Preprocessed(data), RawOf(c)) && Get(Preprocessed(data), RawOf(c)) == ZeroIfNull(Get(data, c))
    ensures forall c | IsClean(c) && !HasKey(data, c) ::
      HasKey(Preprocessed(data), RawOf(c)) && Get(Preprocessed(data), RawOf(c)) == Int(0)
    ensures forall k | HasKey(data, k) && !IsClean(k) && k != "Name" ::
      HasKey(Preprocessed(data), k) && Get(Preprocessed(data), k) == ZeroIfNull(Get(data, k))
  {
    RenamedSpec(data);
    AddMissingSpec(Renamed(data), RawKeys());
    FillNaSpec(Filled(data));
  }

  /** A record whose keys are exactly the clean names in table order (what
      the normaliser produces) becomes the frame whose columns are exactly the
      raw names in table order, each holding its clean key's value with 0 in
      place of a missing value. */
  lemma PreprocessCleanRecord(data: Dict<Value>)
    requires KeysOf(data) == CleanKeys()
    ensures KeysOf(Preprocessed(data)) == RawKeys()
    ensures forall i | 0 <= i < |ColumnMap| :: Preprocessed(data)[i] == (ColumnMap[i].1, ZeroIfNull(data[i].1))
  {
    NameIsNoColumn();
    assert !HasKey(data, "Name") by {
      forall i | 0 <= i < |data| ensures data[i].0 != "Name" {
        assert KeysOf(data)[i] == data[i].0;
      }
    }
    var renamed := RenameToRawColumns(data);
    forall i | 0 <= i < |ColumnMap| ensures renamed[i] == (ColumnMap[i].1, data[i].1) {
      assert KeysOf(data)[i] == data[i].0;
      RawOfAt(i);
    }
    assert Renamed(data) == renamed;
    var raws := RawKeys();
    forall i | 0 <= i < |raws| ensures HasKey(renamed, raws[i]) {
      assert renamed[i].0 == raws[i];
    }
    AddMissingPresent(renamed, raws);
    var p := Preprocessed(data);
    assert p == FillNa(renamed);
    KeysAre(p, raws);
  }

  /** A record keyed exactly by the clean names has no rename clash. */
  lemma CleanRecordNoClash(data: Dict<Value>)
    requires KeysOf(data) == CleanKeys()
    ensures NoRenameClash(data)
  {
    forall i | 0 <= i < |data| ensures IsClean(data[i].0) {
      assert KeysOf(data)[i] == data[i].0;
    }
  }

  /** The fill loop adds nothing when every listed column is already there. */
  lemma {:induction false} AddMissingPresent(df: Dict<Value>, cols: seq<string>)
    requires forall i | 0 <= i < |cols| :: HasKey(df, cols[i])
    ensures AddMissing(df, cols) == df
    decreases |cols|
  {
    if cols != [] {
      assert HasKey(df, cols[0]);
      assert forall i | 0 <= i < |cols[1..]| :: cols[1..][i] == cols[i + 1];
      AddMissingPresent(df, cols[1..]);
    }
  }
}
