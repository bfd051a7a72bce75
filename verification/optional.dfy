/** Python's `Optional[T]`: a value that may be `None`. */
module Optional {

  datatype Option<+T> = None | Some(value: T) {

    /** The value when present, `default` otherwise: Python's
        `v if v is not None else default`. A present value is kept even
        when it is falsy (0, empty string). */
    function GetOr(default: T): T
    {
      match this
      case Some(v) => v
      case None => default
    }
  }
}
