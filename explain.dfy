/** The explanation step (`src/explain.py`): the names of the transformed
    features (numeric names, then one-hot names), the attribution vector of
    the predicted class picked out of the SHAP output, and the top-k
    features by absolute attribution. The fitted transformer and the SHAP
    output are given as plain data. */
module Explain {
  import opened PyStr

  datatype Option<T> = None | Some(value: T)

  /** One entry of `top_explanations`: `{"feature": ..., "impact": ...}`. */
  datatype Explanation = Explanation(feature: string, impact: real)

  /** What `explainer.shap_values(...)` returns: a list with one
      (samples x features) matrix per class, or one (samples x features) matrix. */
  datatype ShapOutput = PerClass(perClass: seq<seq<seq<real>>>) | Matrix(rows: seq<seq<real>>)

  /** A fitted one-hot encoder: what `get_feature_names_out(cat_cols)`
      returns (`None` when that call raises), and its `categories_`
      (`None` when it has none), each category written as its `str`. */
  datatype CatEncoder = CatEncoder(namesOut: Option<seq<string>>, categories: Option<seq<seq<string>>>)

  /** What the name extraction finds in the fitted column transformer: the
      numeric columns, the categorical encoder and the categorical columns. */
  datatype Preprocessor = Preprocessor(numericNames: seq<string>, catEncoder: Option<CatEncoder>, catCols: Option<seq<string>>)

  // ---------------------------------------------------------------------------
  // Feature names
  // ---------------------------------------------------------------------------

  /** The one-hot names of one column: `f"{col}__{val}"` for each category. */
  function CategoryNames(col: string, vals: seq<string>): (names: seq<string>)
    ensures |names| == |vals|
    ensures forall j | 0 <= j < |vals| :: names[j] == col + "__" + vals[j]
  {
    seq(|vals|, j requires 0 <= j < |vals| => col + "__" + vals[j])
  }

  /** The one-hot names of equally many columns and category lists, column by column. */
  function Expand(cols: seq<string>, cats: seq<seq<string>>): seq<string>
    requires |cols| == |cats|
  {
    if cols == [] then []
    else Expand(cols[..|cols| - 1], cats[..|cats| - 1]) + CategoryNames(cols[|cols| - 1], cats[|cats| - 1])
  }

  function Min(a: int, b: int): int {
    if a <= b then a else b
  }

  /** `for col, cats in zip(cat_cols, categories): for val in cats: ...`:
      `zip` stops at the shorter list. */
  function FallbackNames(cols: seq<string>, cats: seq<seq<string>>): seq<string> {
    var n := Min(|cols|, |cats|);
    Expand(cols[..n], cats[..n])
  }

  /** The total number of categories in `cats`. */
  function TotalLength(cats: seq<seq<string>>): nat {
    if cats == [] then 0 else TotalLength(cats[..|cats| - 1]) + |cats[|cats| - 1]|
  }

  /** The fallback builds one name per category. */
  lemma {:induction false} ExpandLength(cols: seq<string>, cats: seq<seq<string>>)
    requires |cols| == |cats|
    ensures |Expand(cols, cats)| == TotalLength(cats)
  {
    if cols != [] {
      ExpandLength(cols[..|cols| - 1], cats[..|cats| - 1]);
    }
  }

  /** The name of category `j` of column `i` sits right after the names of
      all earlier columns. */
  lemma {:induction false} ExpandAt(cols: seq<string>, cats: seq<seq<string>>, i: int, j: int)
    requires |cols| == |cats| && 0 <= i < |cats| && 0 <= j < |cats[i]|
    ensures TotalLength(cats[..i]) + j < |Expand(cols, cats)|
    ensures Expand(cols, cats)[TotalLength(cats[..i]) + j] == cols[i] + "__" + cats[i][j]
  {
    var n := |cols| - 1;
    var init, initCats := cols[..n], cats[..n];
    var e := Expand(cols, cats);
    assert e == Expand(init, initCats) + CategoryNames(cols[n], cats[n]);
    ExpandLength(init, initCats);
    if i < n {
      assert cats[..i] == initCats[..i];
      assert initCats[i] == cats[i] && init[i] == cols[i];
      ExpandAt(init, initCats, i, j);
    } else {
      assert cats[..i] == initCats;
    }
  }

  /** The nested loops of the `categories_` fallback. */
  method CategoriesFallback(cols: seq<string>, cats: seq<seq<string>>) returns (names: seq<string>)
    ensures names == FallbackNames(cols, cats)
  {
    names := [];
    var n := Min(|cols|, |cats|);
    for i := 0 to n
      invariant names == Expand(cols[..i], cats[..i])
    {
      var col, vals := cols[i], cats[i];
      for j := 0 to |vals|
        invariant names == Expand(cols[..i], cats[..i]) + CategoryNames(col, vals[..j])
      {
        names := names + [col + "__" + vals[j]];
      }
      assert vals[..|vals|] == vals;
      assert cols[..i + 1][..i] == cols[..i] && cats[..i + 1][..i] == cats[..i];
    }
    assert cols[..n] == cols[..n][..n];
  }

  /** `_categorical_feature_names(pre)`, once the encoder and the column list
      have been found (or not). */
  function CategoricalNames(pre: Preprocessor): (names: seq<string>)
    ensures pre.catEncoder.None? || pre.catCols.None? ==> names == []
  {
    match (pre.catEncoder, pre.catCols)
    case (Some(enc), Some(cols)) =>
      (match enc.namesOut
       case Some(out) => out
       case None =>
         match enc.categories
         case Some(cats) => FallbackNames(cols, cats)
         case None => [])
    case _ => []
  }

  /** `_categorical_feature_names(pre)` as it runs, loops included. */
  method CategoricalFeatureNames(pre: Preprocessor) returns (names: seq<string>)
    ensures names == CategoricalNames(pre)
  {
    if pre.catEncoder.None? || pre.catCols.None? {
      return [];
    }
    var enc, cols := pre.catEncoder.value, pre.catCols.value;
    if enc.namesOut.Some? {
      return enc.namesOut.value;
    }
    if enc.categories.Some? {
      names := CategoriesFallback(cols, enc.categories.value);
      return;
    }
    return [];
  }

  /** `extract_feature_names_from_pipeline(pipeline)`: numeric names, then categorical names. */
  function ExtractFeatureNames(pre: Preprocessor): (names: seq<string>)
    ensures |names| == |pre.numericNames| + |CategoricalNames(pre)|
    ensures names[..|pre.numericNames|] == pre.numericNames
    ensures names[|pre.numericNames|..] == CategoricalNames(pre)
  {
    pre.numericNames + CategoricalNames(pre)
  }

  /** `names` holds the one-hot names of every category of every column, in
      column order: category `j` of column `i` right after all earlier columns' names. */
  predicate LaidOut(names: seq<string>, cols: seq<string>, cats: seq<seq<string>>)
    requires |cols| == |cats|
  {
    && |names| == TotalLength(cats)
    && forall i, j | 0 <= i < |cats| && 0 <= j < |cats[i]| :: PlacedAt(names, cols, cats, i, j)
  }

  /** The name of category `j` of column `i` follows the names of all earlier columns. */
  predicate PlacedAt(names: seq<string>, cols: seq<string>, cats: seq<seq<string>>, i: int, j: int)
    requires |cols| == |cats| && 0 <= i < |cats| && 0 <= j < |cats[i]|
  {
    TotalLength(cats[..i]) + j < |names| && names[TotalLength(cats[..i]) + j] == cols[i] + "__" + cats[i][j]
  }

  /** When `get_feature_names_out` raises and the encoder has one category
      list per categorical column, the categorical names are the one-hot
      names of every category in column order. */
  lemma FallbackNamesLayout(pre: Preprocessor)
    requires pre.catEncoder.Some? && pre.catCols.Some?
    requires pre.catEncoder.value.namesOut.None? && pre.catEncoder.value.categories.Some?
    requires |pre.catCols.value| == |pre.catEncoder.value.categories.value|
    ensures LaidOut(CategoricalNames(pre), pre.catCols.value, pre.catEncoder.value.categories.value)
  {
    var cols, cats := pre.catCols.value, pre.catEncoder.value.categories.value;
    var names := CategoricalNames(pre);
    assert cols[..|cols|] == cols && cats[..|cats|] == cats;
    assert names == Expand(cols, cats);
    ExpandLength(cols, cats);
    forall i, j | 0 <= i < |cats| && 0 <= j < |cats[i]| ensures PlacedAt(names, cols, cats, i, j) {
      ExpandAt(cols, cats, i, j);
    }
  }

  // ---------------------------------------------------------------------------
  // The attribution vector of the predicted class
  // ---------------------------------------------------------------------------

  /** The position Python's `xs[i]` reads on a list of length `n`, if any:
      a negative index counts from the end. */
  function PyIndex(n: nat, i: int): (r: Option<nat>)
    ensures r.Some? <==> -(n as int) <= i < n
    ensures r.Some? ==> r.value < n && r.value as int % n == i % n
  {
    if 0 <= i < n then Some(i) else if -(n as int) <= i < 0 then Some(n + i) else None
  }

  /** `shap_values[predicted_class_index][0]` for a per-class list and
      `shap_values[0]` for a single matrix; `None` where the indexing raises. */
  function ShapForPred(out: ShapOutput, cls: int): (r: Option<seq<real>>)
    ensures out.PerClass? ==>
      var j := PyIndex(|out.perClass|, cls);
      && (r.Some? <==> j.Some? && |out.perClass[j.value]| > 0)
      && (r.Some? ==> r.value == out.perClass[j.value][0])
    ensures out.Matrix? ==> (r.Some? <==> |out.rows| > 0) && (r.Some? ==> r.value == out.rows[0])
  {
    match out
    case PerClass(m) =>
      (match PyIndex(|m|, cls)
       case Some(j) => if |m[j]| > 0 then Some(m[j][0]) else None
       case None => None)
    case Matrix(rows) => if |rows| > 0 then Some(rows[0]) else None
  }

  // ---------------------------------------------------------------------------
  // Ranking
  // ---------------------------------------------------------------------------

  function Abs(x: real): (a: real)
    ensures a >= 0.0 && (a == x || a == -x)
  {
    if x < 0.0 then -x else x
  }

  /** Every index is a position of `v`. */
  predicate InRange(v: seq<real>, idx: seq<nat>) {
    forall a | 0 <= a < |idx| :: idx[a] < |v|
  }

  /** The indices are in non-increasing order of absolute value. */
  predicate Descending(v: seq<real>, idx: seq<nat>)
    requires InRange(v, idx)
  {
    forall a, b | 0 <= a < b < |idx| :: Abs(v[idx[a]]) >= Abs(v[idx[b]])
  }

  predicate Distinct(idx: seq<nat>) {
    forall a, b | 0 <= a < b < |idx| :: idx[a] != idx[b]
  }

  /** Index `k` inserted into indices already in descending order: before
      the first index whose absolute value is smaller. */
  function Insert(v: seq<real>, idx: seq<nat>, k: nat): (r: seq<nat>)
    requires k < |v| && InRange(v, idx)
    ensures |r| == |idx| + 1 && InRange(v, r)
    ensures forall x :: x in r <==> x in idx || x == k
  {
    if idx == [] then [k]
    else if Abs(v[k]) >= Abs(v[idx[0]]) then [k] + idx
    else [idx[0]] + Insert(v, idx[1..], k)
  }

  /** Insertion keeps the indices in descending order. */
  lemma {:induction false} InsertDescending(v: seq<real>, idx: seq<nat>, k: nat)
    requires k < |v| && InRange(v, idx) && Descending(v, idx)
    ensures Descending(v, Insert(v, idx, k))
  {
    if idx != [] && Abs(v[k]) < Abs(v[idx[0]]) {
      var rest := Insert(v, idx[1..], k);
      InsertDescending(v, idx[1..], k);
      var r := Insert(v, idx, k);
      assert r == [idx[0]] + rest;
      forall b | 0 < b < |r| ensures Abs(v[r[0]]) >= Abs(v[r[b]]) {
        assert r[b] == rest[b - 1] && rest[b - 1] in rest;
      }
    }
  }

  /** Inserting a new index keeps the indices distinct. */
  lemma {:induction false} InsertDistinct(v: seq<real>, idx: seq<nat>, k: nat)
    requires k < |v| && InRange(v, idx) && Distinct(idx) && k !in idx
    ensures Distinct(Insert(v, idx, k))
  {
    if idx != [] && Abs(v[k]) < Abs(v[idx[0]]) {
      var rest := Insert(v, idx[1..], k);
      assert k !in idx[1..];
      InsertDistinct(v, idx[1..], k);
      var r := Insert(v, idx, k);
      assert r == [idx[0]] + rest;
      assert idx[0] !in idx[1..];
      forall b | 0 < b < |r| ensures r[0] != r[b] {
        assert r[b] == rest[b - 1] && rest[b - 1] in rest;
      }
    }
  }

  /** `np.argsort(np.abs(v))[::-1]` on the first `n` positions: an
      insertion sort of 0, 1, ..., n - 1 by non-increasing absolute value. */
  function SortByMagnitude(v: seq<real>, n: nat): (idx: seq<nat>)
    requires n <= |v|
    ensures |idx| == n && InRange(v, idx)
  {
    if n == 0 then [] else Insert(v, SortByMagnitude(v, n - 1), n - 1)
  }

  /** The sort holds each of the `n` positions exactly once, in descending order. */
  lemma {:induction false} SortByMagnitudeSpec(v: seq<real>, n: nat)
    requires n <= |v|
    ensures forall x: nat :: x in SortByMagnitude(v, n) <==> x < n
    ensures Descending(v, SortByMagnitude(v, n)) && Distinct(SortByMagnitude(v, n))
  {
    if n > 0 {
      var prev := SortByMagnitude(v, n - 1);
      SortByMagnitudeSpec(v, n - 1);
      InsertDescending(v, prev, n - 1);
      InsertDistinct(v, prev, n - 1);
    }
  }

  /** Python's `s[:k]`: for `k >= 0` the first `k` elements (or all of
      them), for `k < 0` all but the last `-k`. */
  function PySlice<T>(s: seq<T>, k: int): (r: seq<T>)
    ensures |r| == if k >= 0 then Min(k, |s|) else if |s| + k > 0 then |s| + k else 0
    ensures r == s[..|r|]
  {
    if k >= 0 then s[..Min(k, |s|)]
    else if |s| + k > 0 then s[..|s| + k] else []
  }

  /** `sorted_idx`: the first `top_k` positions of `v` by absolute value. */
  function Ranked(v: seq<real>, topK: int): (idx: seq<nat>)
    ensures InRange(v, idx)
  {
    PySlice(SortByMagnitude(v, |v|), topK)
  }

  /** The ranking keeps `min(top_k, n)` positions for `top_k >= 0`, never
      repeats a position, lists them by non-increasing absolute value, and
      every position left out has an absolute value no larger than any kept one. */
  lemma RankedSpec(v: seq<real>, topK: int)
    ensures |Ranked(v, topK)| == if topK >= 0 then Min(topK, |v|) else if |v| + topK > 0 then |v| + topK else 0
    ensures Distinct(Ranked(v, topK))
    ensures Descending(v, Ranked(v, topK))
    ensures forall j, a | 0 <= j < |v| && j !in Ranked(v, topK) && 0 <= a < |Ranked(v, topK)| ::
      Abs(v[j]) <= Abs(v[Ranked(v, topK)[a]])
  {
    var all := SortByMagnitude(v, |v|);
    var top := Ranked(v, topK);
    SortByMagnitudeSpec(v, |v|);
    assert top == all[..|top|];
    forall j, a | 0 <= j < |v| && j !in top && 0 <= a < |top| ensures Abs(v[j]) <= Abs(v[top[a]]) {
      assert j in all;
      var b :| 0 <= b < |all| && all[b] == j;
      assert all[a] == top[a];
    }
  }

  // ---------------------------------------------------------------------------
  // get_shap_explanations
  // ---------------------------------------------------------------------------

  /** `f"FEATURE_MISMATCH (expected {names} names, got {values})"`. */
  function MismatchText(names: nat, values: nat): string {
    "FEATURE_MISMATCH (expected " + NatToString(names) + " names, got " + NatToString(values) + ")"
  }

  /** The entries for ranked positions `idx`. */
  function Entries(names: seq<string>, v: seq<real>, idx: seq<nat>): (r: seq<Explanation>)
    requires |names| == |v| && InRange(v, idx)
    ensures |r| == |idx|
    ensures forall a | 0 <= a < |idx| :: r[a] == Explanation(names[idx[a]], v[idx[a]])
  {
    seq(|idx|, a requires 0 <= a < |idx| => Explanation(names[idx[a]], v[idx[a]]))
  }

  /** `get_shap_explanations(pipeline, df_preprocessed, predicted_class_index, top_k)`. */
  function GetShapExplanations(out: ShapOutput, cls: int, pre: Preprocessor, topK: int): seq<Explanation> {
    match ShapForPred(out, cls)
    case None => [Explanation("SHAP_unavailable", 0.0)]
    case Some(v) =>
      var names := ExtractFeatureNames(pre);
      if |names| != |v| then [Explanation(MismatchText(|names|, |v|), 0.0)]
      else Entries(names, v, Ranked(v, topK))
  }

  /** The three outcomes: one "SHAP_unavailable" entry when the output cannot
      be indexed; one entry naming both counts when the names and the vector
      differ in length; otherwise the ranked entries, each pairing a feature
      name with its own attribution, `min(top_k, n)` of them for `top_k >= 0`,
      by non-increasing absolute impact, no feature twice, and no feature
      left out whose absolute impact beats one that is listed. */
  lemma GetShapExplanationsSpec(out: ShapOutput, cls: int, pre: Preprocessor, topK: int)
    ensures ShapForPred(out, cls).None? ==>
      GetShapExplanations(out, cls, pre, topK) == [Explanation("SHAP_unavailable", 0.0)]
    ensures ShapForPred(out, cls).Some? && |ExtractFeatureNames(pre)| != |ShapForPred(out, cls).value| ==>
      GetShapExplanations(out, cls, pre, topK) ==
        [Explanation(MismatchText(|ExtractFeatureNames(pre)|, |ShapForPred(out, cls).value|), 0.0)]
    ensures ShapForPred(out, cls).Some? && |ExtractFeatureNames(pre)| == |ShapForPred(out, cls).value| ==>
      var v, names, r := ShapForPred(out, cls).value, ExtractFeatureNames(pre), GetShapExplanations(out, cls, pre, topK);
      var idx := Ranked(v, topK);
      && (topK >= 0 ==> |r| == Min(topK, |v|))
      && |r| == |idx| && Distinct(idx)
      && (forall a | 0 <= a < |r| :: r[a] == Explanation(names[idx[a]], v[idx[a]]))
      && (forall a, b | 0 <= a < b < |r| :: Abs(r[a].impact) >= Abs(r[b].impact))
      && (forall j, a | 0 <= j < |v| && j !in idx && 0 <= a < |r| :: Abs(v[j]) <= Abs(r[a].impact))
  {
    if ShapForPred(out, cls).Some? {
      RankedSpec(ShapForPred(out, cls).value, topK);
    }
  }
}
