/** The part of Python's run time that the contract decorator observes: the
    exact class of a value or of an exception, the `None` object, and the
    two ways a call can end (it returns a value or it raises an exception). */
module Runtime {

  datatype Option<+T> = None | Some(value: T)

  /** The classes a value or an exception can have. `type(x) is t` in the
      source compares classes by identity, which here is equality of these
      tags; the subclass relation (bool below int, ZeroDivisionError below
      ArithmeticError) is never consulted, so it is not represented. */
  datatype PyType =
    | IntType
    | FloatType
    | BoolType
    | StrType
    | NoneType
    | ZeroDivisionErrorType
    | TypeErrorType
    | IndexErrorType
    | ContractErrorType
    | UserClass(name: string)

  /** A value tagged with its exact class. `num` is the number an int or a
      bool holds. Floats are not modelled: for a float `num` only tells
      0.0 (`num` 0) from other floats, and for every other class it only
      tells values apart. */
  datatype Value = Value(ty: PyType, num: int)

  /** Python's `None`, the one value of class NoneType. */
  const PyNone := Value(NoneType, 0)

  /** An exception object: its exact class and an identity, so that
      re-raising "the same" exception can be told from raising an equal one. */
  datatype Exn = Exn(ty: PyType, id: nat)

  /** How a call of the wrapped function ends. */
  datatype Result = Ret(value: Value) | Exc(error: Exn)

  /** A wrapped function, called with positional arguments only. */
  type Fn = seq<Value> -> Result
}
