/** Outcome types shared by the shop model. */
module Results {

  datatype Option<+T> = None | Some(value: T)

  /** The three ways a write can be refused. In the shop they all reach the
      client as a validation error; the model keeps the cause apart. */
  datatype Error =
    | Invalid(field: string)     // a field validator rejected the value
    | Duplicate(field: string)   // a unique / unique_together constraint
    | NotFound(field: string)    // a reference to a row that does not exist

  datatype Result<+T> = Ok(value: T) | Err(error: Error)
}
