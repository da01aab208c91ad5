/** Value types shared by the stages of the import pipeline. */
module Results {

  /** An optional value (a batch that may or may not be emitted, an absent field). */
  datatype Option<+T> = None | Some(value: T) {
    /** The value, or `default` when there is none. */
    function GetOr(default: T): T {
      match this
      case Some(v) => v
      case None => default
    }
  }

  /** How the record source ended: exhausted normally, or with a fetch or parse error. */
  datatype SourceEnd = Exhausted | FetchError | ParseError

  /** The cause of a failed import run. */
  datatype Fault<T> = SourceFailed(end: SourceEnd) | PersistFailed(row: T)

  /** The single terminal state of one import run. */
  datatype Outcome<T> = Completed | Failed(fault: Fault<T>)
}
