/** The field table shared by the normaliser and the preprocessor: each of
    the 18 student attributes under its "clean" API name (underscores) and its
    "raw" name, the column header of the training spreadsheet. Both
    `src/predict.py` and `src/preprocess.py` declare this same table. */
module Columns {

  /** `COLUMN_MAP`, in declaration order: (clean name, raw name). */
  const ColumnMap: seq<(string, string)> := [
    ("Gender", "Gender"),
    ("Age", "Age"),
    ("CGPA", "CGPA"),
    ("Matriculation_Percentage", "Matriculation Percentage"),
    ("Intermediate_Percentage", "Intermediate Percentage"),
    ("Data_Structures_And_Algorithm_Marks", "Data Structures And Algorithm Marks"),
    ("DBMS_Marks", "DBMS Marks"),
    ("Number_of_backlogs", "Number of backlogs"),
    ("Number_of_Reappears", "Number of Reappears"),
    ("History_of_Reappear_Backlogs", "History of Reappear/Backlogs"),
    ("Programming_proficiency", "Programming proficiency"),
    ("GitHub_total_repositories", "GitHub total repositories"),
    ("GitHub_commits_per_month", "GitHub commits/month"),
    ("Experience_with_frameworks", "Experience with frameworks"),
    ("English_proficiency", "English proficiency"),
    ("Coding_practice_hours_per_week", "Coding practice hours/week"),
    ("Aptitude_score", "Aptitude score"),
    ("Attandance", "Attandance")
  ]

  /** The clean names that the normaliser defaults to 0 rather than "Unknown". */
  const NumericKeys: set<string> := {
    "Age", "CGPA", "Matriculation_Percentage", "Intermediate_Percentage",
    "Data_Structures_And_Algorithm_Marks", "DBMS_Marks",
    "Number_of_backlogs", "Number_of_Reappears",
    "GitHub_total_repositories", "GitHub_commits_per_month",
    "Coding_practice_hours_per_week", "Aptitude_score", "Attandance"
  }

  /** `CLEANED_KEYS`. */
  function CleanKeys(): (ks: seq<string>)
    ensures |ks| == |ColumnMap|
    ensures forall i | 0 <= i < |ColumnMap| :: ks[i] == ColumnMap[i].0
  {
    seq(|ColumnMap|, i requires 0 <= i < |ColumnMap| => ColumnMap[i].0)
  }

  /** `RAW_KEYS`. */
  function RawKeys(): (ks: seq<string>)
    ensures |ks| == |ColumnMap|
    ensures forall i | 0 <= i < |ColumnMap| :: ks[i] == ColumnMap[i].1
  {
    seq(|ColumnMap|, i requires 0 <= i < |ColumnMap| => ColumnMap[i].1)
  }

  predicate IsClean(k: string) {
    k in CleanKeys()
  }

  predicate IsRaw(k: string) {
    k in RawKeys()
  }

  /** The table has 18 rows. */
  lemma ColumnCount()
    ensures |ColumnMap| == 18
  {
  }

  /** No clean name appears twice. */
  lemma CleanDistinct()
    ensures forall i, j | 0 <= i < j < |ColumnMap| :: ColumnMap[i].0 != ColumnMap[j].0
  {
  }

  /** No raw name appears twice. */
  lemma RawDistinct()
    ensures forall i, j | 0 <= i < j < |ColumnMap| :: ColumnMap[i].1 != ColumnMap[j].1
  {
  }

  /** A name that is raw for one row is clean only for that same row (as
      "Gender", "Age", "CGPA" and "Attandance" are). */
  lemma RawCleanAligned()
    ensures forall i, j | 0 <= i < |ColumnMap| && 0 <= j < |ColumnMap| && ColumnMap[i].1 == ColumnMap[j].0 :: i == j
  {
  }

  /** Every numeric name is a clean name. */
  lemma NumericKeysAreClean()
    ensures forall c | c in NumericKeys :: IsClean(c)
  {
    var ks := CleanKeys();
    assert NumericKeys == {ks[1], ks[2], ks[3], ks[4], ks[5], ks[6], ks[7], ks[8],
                           ks[11], ks[12], ks[15], ks[16], ks[17]};
  }

  /** Exactly five clean names are categorical: Gender (row 0), the
      reappear/backlog history (row 9), programming proficiency (10),
      frameworks (13) and English (14). */
  lemma CategoricalRows()
    ensures forall i | 0 <= i < |ColumnMap| :: ColumnMap[i].0 !in NumericKeys <==> i in {0, 9, 10, 13, 14}
  {
    var ks := CleanKeys();
    assert NumericKeys == {ks[1], ks[2], ks[3], ks[4], ks[5], ks[6], ks[7], ks[8],
                           ks[11], ks[12], ks[15], ks[16], ks[17]};
  }

  /** No name in the table is 29 characters long. */
  lemma NameLengths()
    ensures forall i | 0 <= i < |ColumnMap| :: |ColumnMap[i].0| != 29 && |ColumnMap[i].1| != 29
  {
  }

  /** Row 9 is the reappear/backlog history, a categorical field. */
  lemma HistoryRow()
    ensures ColumnMap[9] == ("History_of_Reappear_Backlogs", "History of Reappear/Backlogs")
    ensures ColumnMap[9].0 !in NumericKeys
  {
  }

  /** The position of `k` in `ks`. */
  function IndexIn(ks: seq<string>, k: string): (i: nat)
    requires k in ks
    ensures i < |ks| && ks[i] == k
  {
    if ks[0] == k then 0 else 1 + IndexIn(ks[1..], k)
  }

  /** The row of a clean name. */
  function CleanRow(c: string): (i: nat)
    requires IsClean(c)
    ensures i < |ColumnMap| && ColumnMap[i].0 == c
  {
    IndexIn(CleanKeys(), c)
  }

  /** The raw name of a clean name. */
  function RawOf(c: string): (r: string)
    requires IsClean(c)
    ensures IsRaw(r)
    ensures exists i | 0 <= i < |ColumnMap| :: ColumnMap[i] == (c, r)
  {
    ColumnMap[CleanRow(c)].1
  }

  /** The raw name of row `i`'s clean name is row `i`'s raw name. */
  lemma RawOfAt(i: int)
    requires 0 <= i < |ColumnMap|
    ensures IsClean(ColumnMap[i].0) && RawOf(ColumnMap[i].0) == ColumnMap[i].1
  {
    CleanDistinct();
    assert CleanKeys()[i] == ColumnMap[i].0;
  }
}
