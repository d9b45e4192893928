// Shared vocabulary of the model: optional values, the exceptions the
// synchronisation core can raise, and results that carry one of them.

module Base {

  datatype Option<T> = None | Some(value: T)

  /** The Python exceptions that leave the core. `SchemaMismatch` is the bare
      `ValueError` raised when a response record's keys are not the tracked
      fields; `ValueError` is the one raised by a date or an integer that does
      not parse. The remaining names are Python's or Django's own. */
  datatype Error =
    | KeyError                 // a missing key in a response record
    | IndexError               // `response_data[0]` on an empty batch, `[0]` of an empty list
    | AttributeError           // a class attribute the entity does not declare, or `None.user`
    | TypeError                // `int()`, `strptime` or `value['min']` on a value of the wrong type
    | ValueError               // a date or an integer that does not parse
    | SchemaMismatch           // response keys differ from the tracked fields
    | DoesNotExist             // `objects.get` matched no row
    | MultipleObjectsReturned  // `objects.get` matched several rows
    | IntegrityError           // a write violates a uniqueness or not-null constraint

  datatype Result<T> = Ok(value: T) | Err(error: Error)

  /** The local account (Django `request.user`) on whose behalf data is stored. */
  type Viewer = nat
}
