/** Python-level values the model needs: a value that may be `None`, and the
    outcome of a call that either returns or raises an exception. */
module PyTypes {

  /** A Python value that may be `None` (for example `request.form.get(...)`). */
  datatype Option<+T> = None | Some(value: T)

  /** The outcome of a Python call: it returns a value, or it raises an
      exception whose `str(e)` is `message`. */
  datatype Raises<+T> = Returned(value: T) | Raised(message: string)
}
