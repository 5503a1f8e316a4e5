/**
 * The spreadsheet files under `planilha/` as the pages see them: the file
 * is missing, cannot be read, or holds a table. Nothing is read from or
 * written to a real disk here; a page's flush replaces the value.
 */
module Planilha {
  import opened Wrappers

  /** One backing file. */
  datatype Disk<T> = Absent | Unreadable(reason: string) | Present(contents: T)

  /**
   * A sheet as pandas reads it: each header names a column, whose cells
   * are listed in row order as text (`astype(str)`).
   */
  datatype Sheet = Sheet(columns: map<string, seq<string>>)

  /** The non-fatal messages a load shows: `st.error` on a read failure, `st.warning` on a missing column. */
  datatype Notice = ReadFailed(reason: string) | MissingNomeColumn

  /** What a load hands back: the records and the message shown, if any. */
  datatype Loaded<T> = Loaded(records: T, notice: Option<Notice>)
}
