/** Small shared types: optional values and the exceptions the code tells apart. */
module Prelude {

  datatype Option<+T> = None | Some(value: T) {
    predicate IsFailure() {
      None?
    }

    function PropagateFailure<U>(): Option<U>
      requires None?
    {
      None
    }

    function Extract(): T
      requires Some?
    {
      value
    }
  }

  /** What a Python call can raise.  The handlers here catch everything but Interrupt:
      KeyboardInterrupt does not derive from Exception. */
  datatype Exc = Interrupt | WaitFailure | Error(message: string)

  type byte = n: int | 0 <= n < 256
}
