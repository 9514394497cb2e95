/// Values shared by every stage of the converter: optional values and the
/// outcome of a step that may raise a Python exception.
module Results {

  datatype Option<+T> = None | Some(value: T)

  /** The Python exceptions the converter can raise. Which of them a caller
      catches decides whether one line is skipped or the whole run fails. */
  datatype PyError =
    | ValueError          // int() of non-numeric text, or an unresolvable scene device
    | TypeError           // a membership test against None
    | IndexError          // a token position past the end of a line
    | StopIteration       // next() over a generator that yields nothing
    | UnboundLocalError   // a local variable read before any assignment
    | NameError           // a module that was never imported

  /** The result of a step: a value, or the exception it raised. */
  datatype Outcome<+T> = Ok(value: T) | Raised(error: PyError)

  /** Which of the two converter scripts is modelled: the one that classifies
      devices against the catalog, or the one that treats every device as untyped. */
  datatype Variant = CatalogAware | CatalogUnaware
}
