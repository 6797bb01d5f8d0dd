/** The two decorated functions of the repository, `add_two_numbers` and
    `div`, and the calls its script makes of them. Their arithmetic is
    reduced to the class of the result (or the exception raised), which is
    all the wrapper looks at. */
module Demo {
  import opened Runtime
  import opened Contracts

  function Int(n: int): Value { Value(IntType, n) }

  /** A float other than 0.0 (its value is not modelled). */
  function Float(id: int): Value
    requires id != 0
  {
    Value(FloatType, id)
  }

  predicate IsNumber(t: PyType) { t == IntType || t == BoolType || t == FloatType }

  predicate IsIntegral(t: PyType) { t == IntType || t == BoolType }

  /** The TypeError Python raises for a bad operand or a wrong number of
      positional arguments. */
  const BadCall := Exn(TypeErrorType, 0)

  /** The ZeroDivisionError of dividing by zero. */
  const DivisionByZero := Exn(ZeroDivisionErrorType, 0)

  /** `first + second`, undecorated. */
  function AddTwoNumbers(args: seq<Value>): Result
  {
    if |args| != 2 then Exc(BadCall)
    else
      var first, second := args[0], args[1];
      if IsIntegral(first.ty) && IsIntegral(second.ty) then Ret(Int(first.num + second.num))
      else if IsNumber(first.ty) && IsNumber(second.ty) then Ret(Float(1))
      else if first.ty == StrType && second.ty == StrType then Ret(Value(StrType, 0))
      else Exc(BadCall)
  }

  /** `first / second`, undecorated: true division always yields a float. */
  function Div(args: seq<Value>): Result
  {
    if |args| != 2 then Exc(BadCall)
    else
      var first, second := args[0], args[1];
      if !IsNumber(first.ty) || !IsNumber(second.ty) then Exc(BadCall)
      else if second.num == 0 then Exc(DivisionByZero)
      else Ret(Float(1))
  }

  /** `@contract(arg_types=(int, Any))` */
  const AddTwoNumbersContract := Contract(argTypes := Some([Exact(IntType), AnySlot]))

  /** `@contract(arg_types=(int, int), return_type=float, raises=(ZeroDivisionError,))` */
  const DivContract := Contract(
    argTypes := Some([Exact(IntType), Exact(IntType)]),
    returnType := Some(Exact(FloatType)),
    raises := Some([Exact(ZeroDivisionErrorType)]))

  /** `add_two_numbers(1, 2)` and `add_two_numbers(1, 3.4)` pass every check,
      invoke the addition twice and return None, not the sum. */
  lemma AddWellTyped()
    ensures RunFrom(AddTwoNumbersContract, AddTwoNumbers, [Int(1), Int(2)], 0) ==
      Run(Returned(PyNone), 2)
    ensures RunFrom(AddTwoNumbersContract, AddTwoNumbers, [Int(1), Float(34)], 0) ==
      Run(Returned(PyNone), 2)
  {
    NoReturnTypeSkipsCheck(AddTwoNumbersContract, AddTwoNumbers, [Int(1), Int(2)]);
    NoReturnTypeSkipsCheck(AddTwoNumbersContract, AddTwoNumbers, [Int(1), Float(34)]);
  }

  /** `add_two_numbers(2.1, 1)`, and a bool (a subclass of int) in the first
      position, fail before the addition ever runs. */
  lemma AddFirstNotInt()
    ensures RunFrom(AddTwoNumbersContract, AddTwoNumbers, [Float(21), Int(1)], 0) ==
      Run(ContractViolation(None), 0)
    ensures RunFrom(AddTwoNumbersContract, AddTwoNumbers, [Value(BoolType, 1), Int(1)], 0) ==
      Run(ContractViolation(None), 0)
  {
    ArgumentMismatch(AddTwoNumbersContract, AddTwoNumbers, [Float(21), Int(1)], 0);
    ArgumentMismatch(AddTwoNumbersContract, AddTwoNumbers, [Value(BoolType, 1), Int(1)], 0);
  }

  /** `add_two_numbers(1, 2, 3)` never reaches the missing third slot: the
      addition is invoked after the first check and raises TypeError for the
      extra argument, and with no `raises` given the membership test on None
      raises TypeError in turn. `add_two_numbers()` returns None without
      invoking anything. */
  lemma AddWrongArity()
    ensures RunFrom(AddTwoNumbersContract, AddTwoNumbers, [Int(1), Int(2), Int(3)], 0) ==
      Run(TypeErrorRaised, 1)
    ensures RunFrom(AddTwoNumbersContract, AddTwoNumbers, [], 0) == Run(Returned(PyNone), 0)
  {
    DefaultRaises(AddTwoNumbersContract.argTypes, None, AddTwoNumbers, [Int(1), Int(2), Int(3)]);
  }

  /** `div(1, 2)` returns None, not 0.5; `div(1, 0)` re-raises the very
      ZeroDivisionError the division raised. */
  lemma DivByIntegers()
    ensures RunFrom(DivContract, Div, [Int(1), Int(2)], 0) == Run(Returned(PyNone), 2)
    ensures RunFrom(DivContract, Div, [Int(1), Int(0)], 0) == Run(Reraised(DivisionByZero), 1)
  {
    ReturnsNoneOnlyAfterFullLoop(DivContract, Div, [Int(1), Int(2)]);
    AllowedException(DivContract, Div, [Int(1), Int(0)]);
  }

  /** `div(1, None)`: the division runs before None is checked, and its
      TypeError, not listed in `raises`, becomes the cause of a ContractError. */
  lemma DivByNone()
    ensures RunFrom(DivContract, Div, [Int(1), PyNone], 0) ==
      Run(ContractViolation(Some(BadCall)), 1)
  {
    DisallowedException(DivContract, Div, [Int(1), PyNone]);
  }
}
