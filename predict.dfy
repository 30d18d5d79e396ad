/** The prediction entry point (`src/predict.py`): the normaliser that maps
    any request body onto the 18 clean field names, and the assembly of the
    response from the outputs of the trained model, which is given as a
    set of functions. */
module Predict {
  import opened PyStr
  import opened Dicts
  import opened Columns
  import opened Normalize
  import Preprocess
  import Explain
  import Schemas

  // ---------------------------------------------------------------------------
  // normalize_input_any over COLUMN_MAP
  // ---------------------------------------------------------------------------

  /** What `normalize_input_any(d)` returns. */
  function Normalized(d: Dict<Value>): (r: Dict<Value>)
    ensures |r| == |ColumnMap|
  {
    NormalizeWith(ColumnMap, NumericKeys, d, Lowered(d))
  }

  /** `normalize_input_any(input_dict)`. */
  method NormalizeInputAny(input: Dict<Value>) returns (out: Dict<Value>)
    ensures out == Normalized(input)
  {
    CleanDistinct();
    out := NormalizeTable(ColumnMap, NumericKeys, input);
  }

  /** The result holds exactly the 18 clean names, each once, in table order. */
  lemma NormalizedKeys(d: Dict<Value>)
    ensures KeysOf(Normalized(d)) == CleanKeys()
    ensures DistinctKeys(Normalized(d))
  {
    CleanDistinct();
    KeysAre(Normalized(d), CleanKeys());
  }

  /** The value of the field in row `i`: an exact clean key wins over an
      exact raw key, which wins over a key folding to the lowered raw name,
      which wins over a key folding to the lowered clean name; the value
      found is copied unchanged; an unresolved numeric field becomes 0, any
      other "Unknown". */
  lemma NormalizedValue(d: Dict<Value>, i: int)
    requires 0 <= i < |ColumnMap|
    ensures var c, raw, n := ColumnMap[i].0, ColumnMap[i].1, Normalized(d);
      && HasKey(n, c)
      && (HasKey(d, c) ==> Get(n, c) == Get(d, c))
      && (!HasKey(d, c) && HasKey(d, raw) ==> Get(n, c) == Get(d, raw))
      && (!HasKey(d, c) && !HasKey(d, raw) && FoldMatch(d, Lower(raw)) ==>
            Get(n, c) == d[LastFolded(d, Lower(raw))].1)
      && (!HasKey(d, c) && !HasKey(d, raw) && !FoldMatch(d, Lower(raw)) && FoldMatch(d, Lower(c)) ==>
            Get(n, c) == d[LastFolded(d, Lower(c))].1)
      && (!HasKey(d, c) && !HasKey(d, raw) && !FoldMatch(d, Lower(raw)) && !FoldMatch(d, Lower(c)) ==>
            Get(n, c) == (if c in NumericKeys then Int(0) else Str("Unknown")))
  {
    CleanDistinct();
    NormalizeValue(ColumnMap, NumericKeys, d, Lowered(d), i);
    ResolveSpec(d, NumericKeys, ColumnMap[i].0, ColumnMap[i].1);
  }

  /** `normalize_input_any(normalize_input_any(d)) == normalize_input_any(d)`. */
  lemma NormalizedIdempotent(d: Dict<Value>)
    ensures Normalized(Normalized(d)) == Normalized(d)
  {
    CleanDistinct();
    NormalizeIdempotent(ColumnMap, NumericKeys, d, Lowered(d), Lowered(Normalized(d)));
  }

  /** The request schema names the history field "History_of_Reappears_Backlogs",
      which is none of the names the normaliser looks for (no name in the
      table has its 29 characters): the field is dropped, and unless the
      request also carries a real history key the record says "Unknown". */
  lemma SchemaHistoryKeyIgnored(d: Dict<Value>, v: Value)
    requires !HasKey(d, "History_of_Reappear_Backlogs") && !HasKey(d, "History of Reappear/Backlogs")
    requires !FoldMatch(d, Lower("History of Reappear/Backlogs")) && !FoldMatch(d, Lower("History_of_Reappear_Backlogs"))
    ensures IgnoredBy(ColumnMap, Schemas.HistoryField)
    ensures var n := Normalized(d + [(Schemas.HistoryField, v)]);
      HasKey(n, "History_of_Reappear_Backlogs") && Get(n, "History_of_Reappear_Backlogs") == Str("Unknown")
  {
    Schemas.HistoryFieldIgnored();
    NormalizeIgnoresKey(ColumnMap, NumericKeys, d, Schemas.HistoryField, v);
    HistoryRow();
    NormalizedValue(d, 9);
  }

  /** A normalised record is what the preprocessor expects: its frame has
      exactly the 18 raw columns, in table order, each holding the
      normalised value of its field with missing values replaced by 0. */
  lemma NormalizedThenPreprocessed(d: Dict<Value>)
    ensures KeysOf(Preprocess.Preprocessed(Normalized(d))) == RawKeys()
    ensures forall i | 0 <= i < |ColumnMap| ::
      Preprocess.Preprocessed(Normalized(d))[i] == (ColumnMap[i].1, Preprocess.ZeroIfNull(Normalized(d)[i].1))
  {
    NormalizedKeys(d);
    Preprocess.PreprocessCleanRecord(Normalized(d));
  }

  /** A normalised record meets the requirement of the preprocessing lemmas:
      its keys are clean names, so renaming cannot make two columns collide. */
  lemma NormalizedNoRenameClash(d: Dict<Value>)
    ensures DistinctKeys(Normalized(d)) && Preprocess.NoRenameClash(Normalized(d))
  {
    NormalizedKeys(d);
    Preprocess.CleanRecordNoClash(Normalized(d));
  }

  // ---------------------------------------------------------------------------
  // The response of predict_single
  // ---------------------------------------------------------------------------

  datatype Result<T, E> = Ok(value: T) | Err(error: E)

  /** Why `predict_single` raises: the predicted class has no label, the
      probability vector is empty (`np.max` of nothing), or a probability
      index has no label. */
  datatype PredictError = UnknownClass(index: int) | NoProbabilities | UnlabelledProbability(index: int)

  /** The response dict. */
  datatype Response = Response(
    prediction: string,
    confidence: real,
    probabilities: Dict<real>,
    topExplanations: seq<Explain.Explanation>)

  /** `np.max(xs)`. */
  function MaxOf(xs: seq<real>): (m: real)
    requires |xs| > 0
    ensures forall i | 0 <= i < |xs| :: xs[i] <= m
    ensures exists i | 0 <= i < |xs| :: xs[i] == m
  {
    if |xs| == 1 then xs[0]
    else
      var m := MaxOf(xs[..|xs| - 1]);
      assert forall i | 0 <= i < |xs| - 1 :: xs[..|xs| - 1][i] == xs[i];
      if xs[|xs| - 1] > m then xs[|xs| - 1] else m
  }

  /** The items `(reverse_label_map[i], probs[i])` for every index of `probs`. */
  function ProbabilityItems(classes: seq<string>, probs: seq<real>): (items: seq<(string, real)>)
    requires |probs| <= |classes|
    ensures |items| == |probs|
    ensures forall i | 0 <= i < |probs| :: items[i] == (classes[i], probs[i])
  {
    seq(|probs|, i requires 0 <= i < |probs| => (classes[i], probs[i]))
  }

  /** No label appears twice. */
  predicate DistinctLabels(classes: seq<string>) {
    forall i, j | 0 <= i < j < |classes| :: classes[i] != classes[j]
  }

  /** Lines 153-174 of `predict_single`: the label of the predicted class
      index, the largest probability, the probabilities keyed by label, and
      the explanations; each lookup that raises in the source is an error
      here, checked in the same order. */
  function AssembleResponse(predEncoded: int, probs: seq<real>, classes: seq<string>,
                            explanations: seq<Explain.Explanation>): Result<Response, PredictError>
  {
    if !(0 <= predEncoded < |classes|) then Err(UnknownClass(predEncoded))
    else if |probs| == 0 then Err(NoProbabilities)
    else if |probs| > |classes| then Err(UnlabelledProbability(|classes|))
    else Ok(Response(classes[predEncoded], MaxOf(probs), FromItems(ProbabilityItems(classes, probs)), explanations))
  }

  /** The response exists exactly when the class index and every probability
      index have a label and there is a probability; its prediction is the
      label of the class index, its confidence is the largest probability,
      and, for distinct labels (as a label encoder's are), its probability
      map holds one item per class index, in index order, keyed by label. */
  lemma AssembleResponseSpec(predEncoded: int, probs: seq<real>, classes: seq<string>,
                             explanations: seq<Explain.Explanation>)
    ensures var r := AssembleResponse(predEncoded, probs, classes, explanations);
      && (r.Ok? <==> 0 <= predEncoded < |classes| && 0 < |probs| <= |classes|)
      && (!(0 <= predEncoded < |classes|) ==> r == Err(UnknownClass(predEncoded)))
      && (0 <= predEncoded < |classes| && |probs| == 0 ==> r == Err(NoProbabilities))
      && (0 <= predEncoded < |classes| && |probs| > |classes| ==> r == Err(UnlabelledProbability(|classes|)))
      && (r.Ok? ==>
        && r.value.prediction == classes[predEncoded]
        && (forall i | 0 <= i < |probs| :: probs[i] <= r.value.confidence)
        && (exists i | 0 <= i < |probs| :: probs[i] == r.value.confidence)
        && (forall k :: HasKey(r.value.probabilities, k) <==> k in classes[..|probs|])
        && r.value.topExplanations == explanations)
    ensures var r := AssembleResponse(predEncoded, probs, classes, explanations);
      r.Ok? && DistinctLabels(classes) ==>
        && |r.value.probabilities| == |probs|
        && forall i | 0 <= i < |probs| :: r.value.probabilities[i] == (classes[i], probs[i])
  {
    var r := AssembleResponse(predEncoded, probs, classes, explanations);
    if r.Ok? {
      var items := ProbabilityItems(classes, probs);
      forall k ensures HasKey(items, k) <==> k in classes[..|probs|] {
        if k in classes[..|probs|] {
          var i :| 0 <= i < |probs| && classes[..|probs|][i] == k;
          assert items[i].0 == k;
        }
        if HasKey(items, k) {
          var i :| 0 <= i < |items| && items[i].0 == k;
          assert classes[..|probs|][i] == k;
        }
      }
      if DistinctLabels(classes) {
        assert DistinctKeys(items);
        FromItemsDistinct(items);
      }
    }
  }

  /** The trained pipeline, seen from `predict_single`: `pipeline.predict`,
      `pipeline.predict_proba` (the row for the one sample), the SHAP output
      for the transformed frame, the fitted column transformer, and the
      label encoder's classes. */
  datatype Classifier = Classifier(
    predict: Dict<Value> -> int,
    predictProba: Dict<Value> -> seq<real>,
    shapValues: Dict<Value> -> Explain.ShapOutput,
    pre: Explain.Preprocessor,
    classes: seq<string>)

  /** The `top_k` passed to the explainer. */
  const TopK: int := 7

  /** `predict_single(input_dict)`: normalise, preprocess, run the model,
      explain the predicted class and assemble the response. */
  method PredictSingle(input: Dict<Value>, model: Classifier) returns (r: Result<Response, PredictError>)
    ensures var df := Preprocess.Preprocessed(Normalized(input));
      r == AssembleResponse(model.predict(df), model.predictProba(df), model.classes,
             Explain.GetShapExplanations(model.shapValues(df), model.predict(df), model.pre, TopK))
    ensures r.Ok? ==> r.value.prediction in model.classes && |r.value.topExplanations| <= TopK
  {
    var normalized := NormalizeInputAny(input);
    var df := Preprocess.PreprocessInput(normalized);
    var predEncoded := model.predict(df);
    var probs := model.predictProba(df);
    var explanations := Explain.GetShapExplanations(model.shapValues(df), predEncoded, model.pre, TopK);
    r := AssembleResponse(predEncoded, probs, model.classes, explanations);
    Explain.GetShapExplanationsSpec(model.shapValues(df), predEncoded, model.pre, TopK);
  }
}
