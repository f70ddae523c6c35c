/** Outcomes of service calls. */
module Results {

  /** NotFound and Invalid are the service errors; Crash is a None dereference the code does not guard. */
  datatype Error = NotFound | Invalid | Crash

  datatype Result<+T> = Ok(value: T) | Err(error: Error) {
    predicate IsFailure() {
      Err?
    }

    function PropagateFailure<U>(): Result<U>
      requires Err?
    {
      Err(error)
    }

    function Extract(): T
      requires Ok?
    {
      value
    }
  }
}
