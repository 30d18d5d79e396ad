/** The request body the web service accepts (`api/schemas.py`): of its
    field names only the one that differs from the normaliser's table
    matters to the model. */
module Schemas {
  import opened PyStr
  import Columns
  import Normalize

  /** The schema's name for the reappear/backlog history field; the table
      spells it without the second "s" of "Reappears". */
  const HistoryField: string := "History_of_Reappears_Backlogs"

  /** The schema's history name is 29 characters long and has no
      surrounding whitespace. */
  lemma HistoryFieldShape()
    ensures |HistoryField| == 29 && Strip(HistoryField) == HistoryField
  {
    StripUnspaced(HistoryField);
  }

  /** No name in the table, clean or raw, has the 29 characters of the
      schema's history name, so no lookup of the normaliser can reach it. */
  lemma HistoryFieldIgnored()
    ensures Normalize.IgnoredBy(Columns.ColumnMap, HistoryField)
  {
    HistoryFieldShape();
    Columns.NameLengths();
    Normalize.IgnoredByLength(Columns.ColumnMap, HistoryField, 29);
  }
}
