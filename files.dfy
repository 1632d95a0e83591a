// What a save leaves in the file it writes (`saveJSON`, main.go:192-198).

module Files {
  import opened Wrappers

  /**
   * How a whole-file write ends. The write opens the file for writing,
   * truncating it, writes the encoded contents and closes it; only `Written`
   * reports no error.
   */
  datatype WriteOutcome =
    | Written       // the file holds the new contents
    | Untouched     // the file could not be opened or created: it keeps its old contents
    | Truncated     // the file was emptied, then writing failed: it is empty or cut short and no longer decodes
    | CloseFailed   // every byte was written and only closing the file reported an error

  /**
   * The contents of a file holding `before` (None: it does not decode) after
   * a write of `data` ends with `w`.
   */
  function FileAfter<T>(w: WriteOutcome, before: Option<T>, data: T): (r: Option<T>)
    ensures w.Written? ==> r == Some(data)
    ensures r == before || r == Some(data) || (r.None? && w.Truncated?)
    ensures r.None? ==> w.Truncated? || (w.Untouched? && before.None?)
  {
    match w
    case Written => Some(data)
    case Untouched => before
    case Truncated => None
    case CloseFailed => Some(data)
  }

  /**
   * The same write done by writing a temporary file and renaming it over the
   * old one: every failure happens before the rename, so the old file stays.
   */
  function AtomicReplace(w: WriteOutcome): (r: WriteOutcome)
    ensures r.Written? <==> w.Written?
    ensures !r.Truncated? && !r.CloseFailed?
  {
    if w.Written? then Written else Untouched
  }
}
