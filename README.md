# Student career prediction: the labeller, the request pipeline and the explanations

The system recommends a career for an engineering student. Training data are
labelled by a rule-based scorer, `generate_career`. Six roles start at 0. A
block of common signals (CGPA, backlogs, attendance, English, aptitude) moves
all roles by the same amount. Each role then collects its own threshold
points. The best role wins, with ties going to the first role in declaration
order, and "Software Engineer" is chosen when no score is positive.

At prediction time, a request of any shape goes through three steps:

1. The normaliser maps it onto the 18 clean field names. An exact clean key is
   tried first, then an exact raw key, then a case-insensitive match after trimming
   the key's surrounding whitespace (inner spacing must still match). A field that is still missing gets 0 if numeric and "Unknown"
   otherwise.
2. The preprocessor turns the record into a one-row frame with raw column
   headers.
3. The trained pipeline's outputs become the response: the label, the
   confidence, the probabilities by label, and the top seven SHAP
   attributions by absolute value.

Modules, by source file:

- `Career` (train_model.py): the labeller. It has two forms:
  - the imperative one the source runs: a score map, `for r in scores` loops, and the rule blocks;
  - a declarative score table, which the imperative form is proved to compute.
- `Columns` (predict.py and preprocess.py): the field table `COLUMN_MAP`. The two files declare identical copies.
- `Normalize`: `normalize_input_any` over any field table, as a loop method and a specification function.
- `Predict` (predict.py): the normaliser instantiated with `COLUMN_MAP`, the response assembly and `predict_single`. The trained model is a parameter.
- `Preprocess` (preprocess.py): `rename_to_raw_columns` and `preprocess_input`.
- `Explain` (explain.py):
  - feature-name extraction, including the `col__val` fallback;
  - the choice of the predicted class's attribution vector;
  - the top-k ranking.
- `Schemas` (api/schemas.py): the request schema's history field.
- Two support modules:
  - `PyStr`: Python's `strip`, `lower`, `split`, `join`, `in` on strings, and `str(int)`.
  - `Dicts`: insertion-ordered dicts as item lists (`k in d`, `d[k]`, `d[k] = v`, comprehensions, column drop).

A Python dict, and a one-row DataFrame, is modelled as its item list in
insertion (column) order. Key order is observable in this system: collisions
in the lowered view, the order of the normalised record, and column order.

Where the documentation and the code disagree, the model follows the code.
The docstring of `normalize_input_any` (predict.py:94) says missing keys are
omitted. The code (predict.py:121-131) fills every missing field with a
default. The model fills them, so the normalised record always has all 18
fields (`Predict.NormalizedKeys`).

The request schema names the history field "History_of_Reappears_Backlogs"
(api/schemas.py:26), while the field table spells it
"History_of_Reappear_Backlogs". A request built from the schema therefore
loses that value, and the field becomes "Unknown"
(`Predict.SchemaHistoryKeyIgnored`).

## Model

| member | source | states |
|---|---|---|
| Career.GenerateCareer | SIH_ML_Project/PythonCode/src/train_model.py:77-227 | the label the score loop computes equals the declarative labelling `CareerOf` of the student, and it is one of the six role names |
| Career.EnglishScore | SIH_ML_Project/PythonCode/src/train_model.py:91-98 | the trimmed, lower-cased word maps to 40/60/80/95 for poor/fair/good/excellent; anything else counts as fair (60); the score is at least 70 exactly for good or excellent |
| Career.FrameworkTokensWellFormed | SIH_ML_Project/PythonCode/src/train_model.py:102-107 | every framework token is non-empty, trimmed, lower-case and free of ',' and ';' |
| Career.AnyInSpec | SIH_ML_Project/PythonCode/src/train_model.py:146-218 | a keyword list fires exactly when some keyword equals a whole token (token membership, not substring search) |
| Career.AddToAll | SIH_ML_Project/PythonCode/src/train_model.py:121-143 | `for r in scores: scores[r] += delta` adds `delta` to every role and keeps all six roles |
| Career.CommonSignals | SIH_ML_Project/PythonCode/src/train_model.py:121-143 | from all-zero scores, the seven common signals leave every role at the same value: +1 for CGPA ≥ 8, +1 for CGPA ≥ 8.5, −1 for any backlog or reappear, −1 for 3 or more, −1 for attendance < 70, +1 for English ≥ 70, +1 for aptitude ≥ 70 |
| Career.CommonSignalBounds | SIH_ML_Project/PythonCode/src/train_model.py:121-143 | the common signals move all roles by between −3 and +4 |
| Career.AIMLRules | SIH_ML_Project/PythonCode/src/train_model.py:146-155 | the AI/ML rules add the AI/ML row of the score table to that role's running score |
| Career.SoftwareRules | SIH_ML_Project/PythonCode/src/train_model.py:158-169 | the Software Engineer rules add that role's row of the score table, with substring tests on the lower-cased programming proficiency |
| Career.WebRules | SIH_ML_Project/PythonCode/src/train_model.py:172-182 | the Web Developer rules add that role's row of the score table |
| Career.DataAnalystRules | SIH_ML_Project/PythonCode/src/train_model.py:185-194 | the Data Analyst rules add that role's row of the score table |
| Career.DevOpsRules | SIH_ML_Project/PythonCode/src/train_model.py:197-207 | the DevOps rules add that role's row of the score table |
| Career.CyberSecurityRules | SIH_ML_Project/PythonCode/src/train_model.py:210-218 | the Cyber Security rules add that role's row of the score table |
| Career.RoleRules | SIH_ML_Project/PythonCode/src/train_model.py:146-218 | the six rule blocks together add each role's own points to that role alone |
| Career.RoleSignalBounds | SIH_ML_Project/PythonCode/src/train_model.py:146-218 | the role rules never subtract, and no role collects more than 8 points |
| Career.FinalSelection | SIH_ML_Project/PythonCode/src/train_model.py:221-227 | `max(scores, key=scores.get)` with the safe default gives `Select(scores)`, one of the six role names |
| Career.SelectSpec | SIH_ML_Project/PythonCode/src/train_model.py:221-227 | the chosen role has the maximum score; the label is "Software Engineer" when that maximum is not positive; otherwise it is the earliest role in declaration order with the maximum |
| Career.FirstMaxShift | SIH_ML_Project/PythonCode/src/train_model.py:221-224 | adding one constant to every score does not move the first maximum |
| Career.ShiftOnlyGates | SIH_ML_Project/PythonCode/src/train_model.py:121-143 | a uniform shift never changes the best role; it can only push the best score to 0 or below and so trigger the default |
| Career.CommonSignalsOnlyGate | SIH_ML_Project/PythonCode/src/train_model.py:121-227 | the label is the winner of the role rules alone, or "Software Engineer" when the common signals bring that winner's score to 0 or below |
| Normalize.NormalizeTable | SIH_ML_Project/PythonCode/src/predict.py:97-133 | the lookup loop over the table builds exactly the record `NormalizeWith` specifies |
| Normalize.LastFoldedSpec | SIH_ML_Project/PythonCode/src/predict.py:99 | some request key folds to a name exactly when `strip().lower()` of one of its keys equals that name; the item found is the last such one |
| Normalize.LoweredSpec | SIH_ML_Project/PythonCode/src/predict.py:99 | a folded name is in `lowered` exactly when some request key folds to it, and then holds the value of the last such item |
| Normalize.ResolveSpec | SIH_ML_Project/PythonCode/src/predict.py:101-131 | the precedence for one field: exact clean key, then exact raw key, then a key folding to the lowered raw name, then one folding to the lowered clean name, then the default; the value found is copied |
| Normalize.NormalizeKeys | SIH_ML_Project/PythonCode/src/predict.py:101-133 | the record holds exactly the table's clean names, once each, in table order |
| Normalize.NormalizeValue | SIH_ML_Project/PythonCode/src/predict.py:101-131 | row `i`'s clean name holds the value resolved for row `i` |
| Normalize.NormalizeIdempotent | SIH_ML_Project/PythonCode/src/predict.py:90-133 | normalising a normalised record gives the same record back |
| Normalize.ResolveIgnoresKey | SIH_ML_Project/PythonCode/src/predict.py:99-118 | an extra item whose key none of a field's four lookups reaches leaves that field's value unchanged |
| Normalize.NormalizeIgnoresKey | SIH_ML_Project/PythonCode/src/predict.py:99-133 | adding an item whose key the table ignores leaves the whole normalised record unchanged |
| Predict.NormalizeInputAny | SIH_ML_Project/PythonCode/src/predict.py:90-133 | `normalize_input_any` over `COLUMN_MAP` and its 13 numeric fields returns `Normalized(input)` |
| Predict.NormalizedKeys | SIH_ML_Project/PythonCode/src/predict.py:101-133 | the result's key list is `CLEANED_KEYS`, with no key twice: missing fields are filled, not omitted |
| Predict.NormalizedValue | SIH_ML_Project/PythonCode/src/predict.py:101-131 | every field of `COLUMN_MAP` follows the four-step precedence; an unresolved numeric field is 0 and any other is "Unknown" |
| Predict.NormalizedIdempotent | SIH_ML_Project/PythonCode/src/predict.py:90-133 | `normalize_input_any` is idempotent over `COLUMN_MAP` |
| Schemas.HistoryFieldIgnored | SIH_ML_Project/PythonCode/api/schemas.py:26 | the schema's field name "History_of_Reappears_Backlogs" matches no clean or raw name of the table, exactly or after folding |
| Predict.SchemaHistoryKeyIgnored | SIH_ML_Project/PythonCode/api/schemas.py:26 | a request carrying only the schema's history field, and none of the table's history keys, normalises to "Unknown" for the history field: the value sent is dropped |
| Predict.NormalizedNoRenameClash | SIH_ML_Project/PythonCode/src/predict.py:147-150 | a normalised record has distinct keys and no key that renaming could send to a column another key also takes, so the preprocessing lemmas apply to it |
| Predict.NormalizedThenPreprocessed | SIH_ML_Project/PythonCode/src/predict.py:147-150 | a normalised request becomes a frame whose columns are exactly `RAW_KEYS` in table order, each holding its field's value with 0 in place of a missing one |
| Predict.MaxOf | SIH_ML_Project/PythonCode/src/predict.py:157 | `np.max(probs)` is at least every probability and equal to one of them |
| Predict.AssembleResponseSpec | SIH_ML_Project/PythonCode/src/predict.py:153-174 | the response exists exactly when the class index and every probability index have a label and a probability exists; each failing lookup gives its own error; otherwise the prediction is the label of the predicted index, the confidence is the largest probability, the probability map's keys are the labels of the probability indices, and with distinct labels it holds one item per index, in index order |
| Predict.PredictSingle | SIH_ML_Project/PythonCode/src/predict.py:139-178 | normalise, preprocess, predict, take the probabilities, explain the predicted class with `top_k = 7`, and assemble; a successful prediction is a known label and has at most 7 explanations |
| Preprocess.RenameToRawColumns | SIH_ML_Project/PythonCode/src/preprocess.py:38-41 | each column keeps its place and value; a clean name becomes its raw name and any other name is kept |
| Preprocess.RenameSpec | SIH_ML_Project/PythonCode/src/preprocess.py:38-41 | without rename clashes the renamed frame has distinct columns, and each holds the value of the column renamed to it |
| Preprocess.AddMissingSpec | SIH_ML_Project/PythonCode/src/preprocess.py:60-62 | the fill loop adds exactly the missing raw columns, with 0, keeps the present columns' values, and keeps the columns distinct |
| Preprocess.FillNaSpec | SIH_ML_Project/PythonCode/src/preprocess.py:65 | `fillna(0)` keeps the columns and their order and replaces each missing cell by 0 |
| Preprocess.ZeroIfNull | SIH_ML_Project/PythonCode/src/preprocess.py:65 | a missing cell becomes 0, a present cell is unchanged, and a filled cell is never missing |
| Preprocess.NamedSpec | SIH_ML_Project/PythonCode/src/preprocess.py:53-54 | dropping "Name" removes that key and nothing else |
| Preprocess.RenamedSpec | SIH_ML_Project/PythonCode/src/preprocess.py:53-57 | after the drop and the rename, a clean key's value sits under its raw name, any other surviving key under its own name, and nothing else is there |
| Preprocess.PreprocessInput | SIH_ML_Project/PythonCode/src/preprocess.py:47-67 | the drop, rename, fill loop and `fillna` return the frame `Preprocessed(data)` |
| Preprocess.PreprocessedKeys | SIH_ML_Project/PythonCode/src/preprocess.py:47-67 | the frame's columns are exactly the raw names plus the input's other keys, except "Name" |
| Preprocess.PreprocessedColumns | SIH_ML_Project/PythonCode/src/preprocess.py:47-67 | the frame has no repeated column, no "Name" column and no missing cell, and its columns are the raw names plus the input's other keys |
| Preprocess.PreprocessedValues | SIH_ML_Project/PythonCode/src/preprocess.py:47-67 | each clean key's value lands under its raw name, with 0 in place of a missing value; a raw column whose clean key is absent holds 0; other keys keep their names and values |
| Preprocess.CleanRecordNoClash | SIH_ML_Project/PythonCode/src/preprocess.py:57 | a record keyed exactly by the clean names cannot make the rename produce a duplicate column |
| Preprocess.PreprocessCleanRecord | SIH_ML_Project/PythonCode/src/preprocess.py:47-67 | a record keyed exactly by the clean names in table order becomes a frame keyed exactly by the raw names in table order |
| Dicts.PutSpec | SIH_ML_Project/PythonCode/src/predict.py:104-131 | `d[k] = v` keeps the keys distinct, makes `k` hold `v`, adds nothing but `k`, and leaves every other key's value alone |
| Dicts.DropColumnSpec | SIH_ML_Project/PythonCode/src/preprocess.py:53-54 | `drop(columns=[k])` removes `k` and keeps every other column and its value |
| Dicts.FromItemsLast | SIH_ML_Project/PythonCode/src/predict.py:99 | in a dict comprehension a key holds the value of its last item |
| Dicts.FromItemsDistinct | SIH_ML_Project/PythonCode/src/predict.py:172 | a comprehension over items with distinct keys holds exactly those items, in order |
| Explain.CategoriesFallback | SIH_ML_Project/PythonCode/src/explain.py:84-92 | the nested `zip` and category loops build `FallbackNames`: `col__val` for each category, stopping at the shorter list |
| Explain.FallbackNamesLayout | SIH_ML_Project/PythonCode/src/explain.py:86-92 | with one category list per column there is one name per category, and category `j` of column `i` is `col_i__val_j`, placed right after the names of all earlier columns |
| Explain.CategoricalNames | SIH_ML_Project/PythonCode/src/explain.py:77-96 | with no encoder or no categorical columns there are no categorical names |
| Explain.CategoricalFeatureNames | SIH_ML_Project/PythonCode/src/explain.py:77-96 | the categorical-name step: `[]` without an encoder or columns, the encoder's own names when it gives them, else the `categories_` fallback, else `[]` |
| Explain.ExtractFeatureNames | SIH_ML_Project/PythonCode/src/explain.py:117-120 | the feature names are the numeric names followed by the categorical names |
| Explain.PyIndex | SIH_ML_Project/PythonCode/src/explain.py:140-148 | Python indexing of a length-`n` list succeeds exactly for `-n <= i < n`, at the position congruent to `i` modulo `n` |
| Explain.ShapForPred | SIH_ML_Project/PythonCode/src/explain.py:140-148 | the attribution vector exists exactly when the per-class list can be indexed by the class (Python's negative indexing included) and that class's matrix has a row, or the single matrix has a row; it is then row 0 of that matrix |
| Explain.SortByMagnitudeSpec | SIH_ML_Project/PythonCode/src/explain.py:159 | the argsort by absolute value holds each position exactly once, in non-increasing order of absolute value |
| Explain.RankedSpec | SIH_ML_Project/PythonCode/src/explain.py:159 | `[:top_k]` keeps `min(top_k, n)` positions for `top_k >= 0`, repeats none, lists them by non-increasing absolute value, and leaves out no position whose absolute value beats a kept one |
| Explain.GetShapExplanationsSpec | SIH_ML_Project/PythonCode/src/explain.py:123-164 | one "SHAP_unavailable" entry when the class's vector cannot be indexed; one entry giving both counts when names and vector differ in length; otherwise `min(top_k, n)` entries, each pairing a feature with its own attribution, by non-increasing absolute impact, no feature twice, and none left out that beats a listed one |

## Left out

- Loading the artefacts with `joblib.load` (`career_model.pkl`, `label_mapping.pkl` (the label encoder) and `shap_explainer.pkl`, predict.py:15-33) and all file I/O: the pipeline and the label encoder's `classes_`, from which `reverse_label_map` is built (predict.py:36), are parameters of `Predict.PredictSingle`.
- The trained model is opaque: `pipeline.predict`, `predict_proba`, the transformer's `transform` and the explainer's `shap_values` are three given functions of the frame in `Predict.Classifier`: `predict`, `predictProba` and `shapValues`; `transform` is folded into `shapValues`, which stands for the explainer applied to the transformed frame.
- The training script outside `generate_career` is not modelled: reading the spreadsheet, the split, the fit and the saving of artefacts.
- `to_num` and `_to_num_safe` are not modelled (defined at train_model.py:51-57 and predict.py:74-87, called at train_model.py:79-88). `Career.StudentRecord` holds the already-converted numbers (reals). The text fields are given as `str` of the cell.
- The search for the numeric and categorical columns and the encoder inside the fitted `ColumnTransformer` is an input, `Explain.Preprocessor` (explain.py:37-45, 58-75, 104-115). It uses duck-typed introspection of sklearn objects that the model cannot see.
- `get_feature_names_out` is not modelled; its result or its failure is part of `Explain.CatEncoder`.
- The `str` of a category is given as text: `CatEncoder.categories` holds strings.
- A 3-D SHAP array in place of a list of matrices is not modelled. `Explain.ShapOutput` covers the list-of-matrices and single-matrix shapes the source indexes.
- Explain.RankedSpec: the order among features of equal absolute impact is not stated. `np.argsort`'s tie order is an implementation detail of NumPy; the model ranks ties by an insertion sort.
- Python floats are modelled as reals: NaN and infinities in the probabilities and the attributions are not modelled. With a NaN, `np.max` returns NaN and `np.argsort` sorts it last, so it would rank first after `[::-1]`.
- `Lower` lowers 'A'..'Z' and the Kelvin sign U+212A (to 'k'), the characters whose Python lowercase is a single ASCII letter; every other character keeps its case. Python also lowers other non-ASCII capitals (to non-ASCII letters) and U+0130 (to 'i' followed by the combining dot U+0307); the model keeps those characters unchanged, so the lowered text differs from Python's there. Neither form can complete a match against the field names, the framework keywords or the proficiency words: these are ASCII and never hold 'i' followed by U+0307.
- Missing values (`None`, and the `NaN` pandas uses) are the single `Null` value. Nested JSON values are not modelled.
- `fillna(0)` puts an integer 0 into any column. pandas' dtype inference for the column is not modelled.
- A one-row DataFrame is its list of (column, cell) pairs.
- Preprocess.RenameSpec, Preprocess.RenamedSpec and the `Preprocessed*` lemmas require `NoRenameClash`: no input key is a raw name that is not also a clean name. pandas lets `rename` produce duplicate column labels, and the model does not describe a frame with duplicate labels. A normalised record always meets the requirement (`Predict.NormalizedNoRenameClash`).
- The `RuntimeError` wrapping in `predict_single` is the `Err` side of its result. The message text is not modelled.
- The FastAPI service (api/main.py), the rest of the request schema (api/schemas.py), and the React client are not modelled; only the schema's history field name is.
- Predict.NormalizedKeys: states the key list equality and distinctness. It does not state separately that `k in result` holds exactly for the clean names, which follows from the key list (`Dicts.HasKeyInKeys`).
