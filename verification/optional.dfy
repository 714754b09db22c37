/** The nullable values of the source (`String?`, `Array<String>?`, `HtmlInfo?`)
    are modelled with this Some/None datatype. */
module Optional {

  datatype Option<+T> = None | Some(value: T) {

    /** Kotlin's `?:` (elvis): the value if present, otherwise the default. */
    function GetOr(default: T): T {
      match this
      case Some(v) => v
      case None => default
    }

    /** The value as a sequence of zero or one element. */
    function ToSeq(): seq<T> {
      match this
      case Some(v) => [v]
      case None => []
    }
  }
}
