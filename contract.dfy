/** The `contract` decorator: `contract(arg_types, return_type, raises)`
    builds a factory, the factory wraps a function, and every call of the
    wrapper runs the per-argument loop below. The loop is modelled exactly
    as it is indented: the wrapped function is invoked, and its result
    checked, inside the loop body, once for every argument whose check
    passes, and the wrapper returns None when the loop ends. */
module Contracts {
  import opened Runtime

  /** One entry of `arg_types` or of `raises`: a class, or the `Any`
      sentinel object, which is no class at all. */
  datatype Slot = Exact(ty: PyType) | AnySlot

  /** What `contract(...)` captures; every field defaults to None, as the
      keyword arguments do. */
  datatype Contract = Contract(
    argTypes: Option<seq<Slot>> := None,
    returnType: Option<Slot> := None,
    raises: Option<seq<Slot>> := None)

  /** What `factory(function)` returns: the function together with the
      configuration it was wrapped with. Neither changes afterwards. */
  datatype Decorator = Decorator(contract: Contract, wrapped: Fn)

  /** How a call of the wrapper ends. */
  datatype Outcome =
    | Returned(value: Value)                // the loop ran to its end
    | ContractViolation(cause: Option<Exn>) // `raise ContractError [from ex]`
    | Reraised(original: Exn)               // `raise ex`: the function's own exception
    | IndexErrorRaised                      // `arg_types[i]` out of range
    | TypeErrorRaised                       // `type(ex) not in raises` with raises None

  /** A call's outcome together with the number of times the wrapped
      function was invoked during it. */
  datatype Run = Run(outcome: Outcome, calls: nat)

  /** The number of invocations made before `r` was reached is added to it. */
  function After(r: Run, n: nat): Run
  {
    Run(r.outcome, r.calls + n)
  }

  /** A slot accepts a class when it is that very class or the wildcard. */
  predicate Admits(slot: Slot, t: PyType)
  {
    match slot
    case AnySlot => true
    case Exact(u) => u == t
  }

  datatype ArgVerdict = ArgOk | ArgMismatch | ArgOutOfRange

  /** The check of the argument at position i (the `if` of the loop body). */
  function CheckArg(argTypes: Option<seq<Slot>>, i: nat, arg: Value): (v: ArgVerdict)
    ensures argTypes.None? ==> v == ArgOk
    ensures v == ArgOutOfRange <==> argTypes.Some? && i >= |argTypes.value|
    ensures v == ArgMismatch <==>
      argTypes.Some? && i < |argTypes.value| &&
      argTypes.value[i] != AnySlot && argTypes.value[i] != Exact(arg.ty)
  {
    match argTypes
    case None => ArgOk
    case Some(slots) =>
      if i >= |slots| then ArgOutOfRange
      else if Admits(slots[i], arg.ty) then ArgOk
      else ArgMismatch
  }

  /** The exception a failed argument check raises. */
  function Rejection(v: ArgVerdict): Outcome
  {
    if v == ArgOutOfRange then IndexErrorRaised else ContractViolation(None)
  }

  /** An exception of class t may pass through `raises` unchanged. */
  predicate Permitted(raises: seq<Slot>, t: PyType)
  {
    exists slot :: slot in raises && Admits(slot, t)
  }

  /** The `except` clause: what the wrapper raises when the function raised e. */
  function OnException(raises: Option<seq<Slot>>, e: Exn): Outcome
  {
    match raises
    case None => TypeErrorRaised
    case Some(slots) =>
      if Permitted(slots, e.ty) then Reraised(e) else ContractViolation(Some(e))
  }

  /** The return check accepts v. The `Any` sentinel is not a class, so
      `type(v) is not Any` always holds: as a return type it accepts nothing. */
  predicate ReturnAccepted(returnType: Option<Slot>, v: Value)
  {
    match returnType
    case None => true
    case Some(AnySlot) => false
    case Some(Exact(t)) => t == v.ty
  }

  /** The loop from position i to the end: its outcome and how often it
      invokes the function. Positions before i have already passed. */
  function RunFrom(c: Contract, f: Fn, args: seq<Value>, i: nat): (r: Run)
    requires i <= |args|
    ensures r.calls <= |args| - i
    ensures r.outcome.Returned? ==> r.outcome.value == PyNone && r.calls == |args| - i
    decreases |args| - i
  {
    if i == |args| then Run(Returned(PyNone), 0)
    else
      var verdict := CheckArg(c.argTypes, i, args[i]);
      if verdict != ArgOk then Run(Rejection(verdict), 0)
      else
        match f(args)
        case Exc(e) => Run(OnException(c.raises, e), 1)
        case Ret(v) =>
          if !ReturnAccepted(c.returnType, v) then Run(ContractViolation(None), 1)
          else After(RunFrom(c, f, args, i + 1), 1)
  }

  /** The wrapper `decorator(*args)`. `calls` counts the invocations of the
      wrapped function. */
  method Invoke(d: Decorator, args: seq<Value>) returns (outcome: Outcome, ghost calls: nat)
    ensures outcome == RunFrom(d.contract, d.wrapped, args, 0).outcome
    ensures calls == RunFrom(d.contract, d.wrapped, args, 0).calls
  {
    var argTypes, returnType, raises := d.contract.argTypes, d.contract.returnType, d.contract.raises;
    calls := 0;
    var returnValue: Value;
    for i := 0 to |args|
      invariant calls == i
      invariant RunFrom(d.contract, d.wrapped, args, 0) == After(RunFrom(d.contract, d.wrapped, args, i), calls)
    {
      var arg := args[i];
      if argTypes.Some? {
        if i >= |argTypes.value| {
          return IndexErrorRaised, calls;
        }
        if Exact(arg.ty) != argTypes.value[i] && AnySlot != argTypes.value[i] {
          return ContractViolation(None), calls;
        }
      }
      calls := calls + 1;
      match d.wrapped(args) {
        case Exc(ex) =>
          if raises.None? {
            return TypeErrorRaised, calls;
          }
          if Exact(ex.ty) !in raises.value && AnySlot !in raises.value {
            return ContractViolation(Some(ex)), calls;
          } else {
            return Reraised(ex), calls;
          }
        case Ret(v) =>
          returnValue := v;
      }
      if returnType.Some? && Exact(returnValue.ty) != returnType.value {
        return ContractViolation(None), calls;
      }
    }
    outcome := Returned(PyNone);
  }

  // ---------------------------------------------------------------------
  // The same calls read off without running the loop

  /** The first position at or after `from` whose argument check fails, or
      |args| when there is none. */
  function FirstRejected(argTypes: Option<seq<Slot>>, args: seq<Value>, from: nat): (k: nat)
    requires from <= |args|
    ensures from <= k <= |args|
    ensures forall j :: from <= j < k ==> CheckArg(argTypes, j, args[j]) == ArgOk
    ensures k < |args| ==> CheckArg(argTypes, k, args[k]) != ArgOk
    decreases |args| - from
  {
    if from == |args| || CheckArg(argTypes, from, args[from]) != ArgOk then from
    else FirstRejected(argTypes, args, from + 1)
  }

  /** FirstRejected is the only position with its two properties. */
  lemma {:induction false} FirstRejectedIs(argTypes: Option<seq<Slot>>, args: seq<Value>, from: nat, k: nat)
    requires from <= k <= |args|
    requires forall j :: from <= j < k ==> CheckArg(argTypes, j, args[j]) == ArgOk
    requires k < |args| ==> CheckArg(argTypes, k, args[k]) != ArgOk
    ensures FirstRejected(argTypes, args, from) == k
    decreases k - from
  {
    if from < k {
      FirstRejectedIs(argTypes, args, from + 1, k);
    }
  }

  /** A call in closed form. The function gives the same result every time
      it is invoked on the same arguments, so its first invocation decides
      whether the call ends there; when it does not, the call ends at the
      first rejected argument after one invocation per earlier argument, or
      returns None after one invocation per argument. */
  function Expected(c: Contract, f: Fn, args: seq<Value>): Run
  {
    if |args| == 0 then Run(Returned(PyNone), 0)
    else
      var k := FirstRejected(c.argTypes, args, 0);
      if k == 0 then Run(Rejection(CheckArg(c.argTypes, 0, args[0])), 0)
      else
        match f(args)
        case Exc(e) => Run(OnException(c.raises, e), 1)
        case Ret(v) =>
          if !ReturnAccepted(c.returnType, v) then Run(ContractViolation(None), 1)
          else if k < |args| then Run(Rejection(CheckArg(c.argTypes, k, args[k])), k)
          else Run(Returned(PyNone), |args|)
  }

  /** Every argument before position n passes its check. */
  predicate PassesBefore(c: Contract, args: seq<Value>, n: nat)
    requires n <= |args|
  {
    forall j :: 0 <= j < n ==> CheckArg(c.argTypes, j, args[j]) == ArgOk
  }

  /** The function, called on args, returns a value the return check accepts. */
  predicate ReturnsCleanly(c: Contract, f: Fn, args: seq<Value>)
  {
    f(args).Ret? && ReturnAccepted(c.returnType, f(args).value)
  }

  /** Once the function has returned cleanly, the rest of the loop only
      checks arguments, invoking the function once more per passing one. */
  lemma {:induction false} RunFromAfterCleanReturn(c: Contract, f: Fn, args: seq<Value>, i: nat)
    requires i <= |args|
    requires ReturnsCleanly(c, f, args)
    ensures RunFrom(c, f, args, i) ==
      var k := FirstRejected(c.argTypes, args, i);
      if k < |args| then Run(Rejection(CheckArg(c.argTypes, k, args[k])), k - i)
      else Run(Returned(PyNone), |args| - i)
    decreases |args| - i
  {
    if i < |args| && CheckArg(c.argTypes, i, args[i]) == ArgOk {
      RunFromAfterCleanReturn(c, f, args, i + 1);
    }
  }

  /** The loop and the closed form agree on every call. */
  lemma RunMatchesExpected(c: Contract, f: Fn, args: seq<Value>)
    ensures RunFrom(c, f, args, 0) == Expected(c, f, args)
  {
    if |args| > 0 && CheckArg(c.argTypes, 0, args[0]) == ArgOk && ReturnsCleanly(c, f, args) {
      RunFromAfterCleanReturn(c, f, args, 0);
    }
  }

  /** The loop structure: the wrapper returns exactly when the loop runs to
      its end, and then it returns None, not the function's value, having
      invoked the function once per argument (never, for no arguments). */
  lemma ReturnsNoneOnlyAfterFullLoop(c: Contract, f: Fn, args: seq<Value>)
    ensures RunFrom(c, f, args, 0).outcome.Returned? <==>
      PassesBefore(c, args, |args|) && (|args| == 0 || ReturnsCleanly(c, f, args))
    ensures RunFrom(c, f, args, 0).outcome.Returned? ==>
      RunFrom(c, f, args, 0) == Run(Returned(PyNone), |args|)
    ensures |args| == 0 ==> RunFrom(c, f, args, 0) == Run(Returned(PyNone), 0)
  {
    RunMatchesExpected(c, f, args);
    var k := FirstRejected(c.argTypes, args, 0);
    if !PassesBefore(c, args, |args|) {
      var j :| 0 <= j < |args| && CheckArg(c.argTypes, j, args[j]) != ArgOk;
      assert k <= j;
    }
  }

  /** Argument mismatch: an argument whose class the slot does not admit
      raises ContractError without a cause, and the function is not invoked
      in that iteration: it has run once per earlier argument. */
  lemma ArgumentMismatch(c: Contract, f: Fn, args: seq<Value>, i: nat)
    requires i < |args| && c.argTypes.Some? && i < |c.argTypes.value|
    requires !Admits(c.argTypes.value[i], args[i].ty)
    requires PassesBefore(c, args, i)
    requires i > 0 ==> ReturnsCleanly(c, f, args)
    ensures RunFrom(c, f, args, 0) == Run(ContractViolation(None), i)
  {
    RunMatchesExpected(c, f, args);
    FirstRejectedIs(c.argTypes, args, 0, i);
  }

  /** Too many arguments: with more arguments than slots, reading the slot
      past the end raises IndexError, not ContractError. */
  lemma TooManyArguments(c: Contract, f: Fn, args: seq<Value>)
    requires c.argTypes.Some? && |c.argTypes.value| < |args|
    requires PassesBefore(c, args, |c.argTypes.value|)
    requires |c.argTypes.value| > 0 ==> ReturnsCleanly(c, f, args)
    ensures RunFrom(c, f, args, 0) == Run(IndexErrorRaised, |c.argTypes.value|)
  {
    RunMatchesExpected(c, f, args);
    FirstRejectedIs(c.argTypes, args, 0, |c.argTypes.value|);
  }

  /** IndexError arises only from that: slots are given, there are fewer of
      them than arguments, and the function ran once per slot. */
  lemma IndexErrorOnlyFromTooManyArguments(c: Contract, f: Fn, args: seq<Value>)
    requires RunFrom(c, f, args, 0).outcome == IndexErrorRaised
    ensures c.argTypes.Some? && |c.argTypes.value| < |args|
    ensures RunFrom(c, f, args, 0).calls == |c.argTypes.value|
  {
    RunMatchesExpected(c, f, args);
  }

  /** Skipping checks: without `arg_types` no argument is ever rejected, no
      slot is indexed, and a cause-less ContractError can only come from the
      return check. */
  lemma NoArgTypesChecksNothing(c: Contract, f: Fn, args: seq<Value>)
    requires c.argTypes.None?
    ensures RunFrom(c, f, args, 0).outcome != IndexErrorRaised
    ensures RunFrom(c, f, args, 0).outcome == ContractViolation(None) ==>
      f(args).Ret? && !ReturnAccepted(c.returnType, f(args).value)
  {
    RunMatchesExpected(c, f, args);
  }

  /** Leaving `arg_types` unset behaves exactly as giving `Any` for every
      argument. */
  lemma {:induction false} NoArgTypesSameAsAllAny(c: Contract, f: Fn, args: seq<Value>, i: nat)
    requires c.argTypes.None? && i <= |args|
    ensures RunFrom(c, f, args, i) ==
      RunFrom(c.(argTypes := Some(seq(|args|, _ => AnySlot))), f, args, i)
    decreases |args| - i
  {
    if i < |args| {
      NoArgTypesSameAsAllAny(c, f, args, i + 1);
    }
  }

  /** An `Any` entry of `raises` or the exception's own class lets it pass:
      the source's two membership tests say exactly `Permitted`. */
  lemma PermittedIffListedOrAny(raises: seq<Slot>, t: PyType)
    ensures Permitted(raises, t) <==> Exact(t) in raises || AnySlot in raises
  {
    if Exact(t) in raises {
      assert Admits(Exact(t), t);
    } else if AnySlot in raises {
      assert Admits(AnySlot, t);
    }
  }

  /** The function runs before later arguments are checked: once the first
      argument passes and the function raises, the `except` clause decides
      the call, whatever the later arguments are. */
  lemma FirstCallRaises(c: Contract, f: Fn, args: seq<Value>)
    requires |args| > 0 && CheckArg(c.argTypes, 0, args[0]) == ArgOk
    requires f(args).Exc?
    ensures RunFrom(c, f, args, 0) == Run(OnException(c.raises, f(args).error), 1)
  {
    RunMatchesExpected(c, f, args);
  }

  /** Disallowed exception: an exception whose class is not listed, with no
      `Any` listed, becomes a ContractError whose cause is that exception. */
  lemma DisallowedException(c: Contract, f: Fn, args: seq<Value>)
    requires |args| > 0 && CheckArg(c.argTypes, 0, args[0]) == ArgOk
    requires f(args).Exc? && c.raises.Some?
    requires Exact(f(args).error.ty) !in c.raises.value && AnySlot !in c.raises.value
    ensures RunFrom(c, f, args, 0) == Run(ContractViolation(Some(f(args).error)), 1)
  {
    FirstCallRaises(c, f, args);
    PermittedIffListedOrAny(c.raises.value, f(args).error.ty);
  }

  /** Allowed exception: a listed class, or a listed `Any`, re-raises the
      very exception the function raised. */
  lemma AllowedException(c: Contract, f: Fn, args: seq<Value>)
    requires |args| > 0 && CheckArg(c.argTypes, 0, args[0]) == ArgOk
    requires f(args).Exc? && c.raises.Some?
    requires Exact(f(args).error.ty) in c.raises.value || AnySlot in c.raises.value
    ensures RunFrom(c, f, args, 0) == Run(Reraised(f(args).error), 1)
  {
    FirstCallRaises(c, f, args);
    PermittedIffListedOrAny(c.raises.value, f(args).error.ty);
  }

  /** Conversely, a ContractError with a cause and a re-raised exception both
      carry the function's own exception, decided by `raises` alone. */
  lemma ExceptionOutcomesComeFromTheFunction(c: Contract, f: Fn, args: seq<Value>)
    ensures RunFrom(c, f, args, 0).outcome.Reraised? ==>
      f(args).Exc? && RunFrom(c, f, args, 0).outcome.original == f(args).error &&
      c.raises.Some? && Permitted(c.raises.value, f(args).error.ty) &&
      RunFrom(c, f, args, 0).calls == 1
    ensures RunFrom(c, f, args, 0).outcome.ContractViolation? &&
            RunFrom(c, f, args, 0).outcome.cause.Some? ==>
      f(args).Exc? && RunFrom(c, f, args, 0).outcome.cause.value == f(args).error &&
      c.raises.Some? && !Permitted(c.raises.value, f(args).error.ty) &&
      RunFrom(c, f, args, 0).calls == 1
  {
    RunMatchesExpected(c, f, args);
  }

  /** Default `raises`: left unset, any exception from the function turns into
      the TypeError of testing membership in None. */
  lemma DefaultRaises(argTypes: Option<seq<Slot>>, returnType: Option<Slot>, f: Fn, args: seq<Value>)
    requires |args| > 0 && CheckArg(argTypes, 0, args[0]) == ArgOk
    requires f(args).Exc?
    ensures RunFrom(Contract(argTypes := argTypes, returnType := returnType), f, args, 0) ==
      Run(TypeErrorRaised, 1)
  {
    FirstCallRaises(Contract(argTypes := argTypes, returnType := returnType), f, args);
  }

  /** ... so without `raises` the function's exception is never propagated
      and never becomes a cause, and TypeError is the only way it shows. */
  lemma NoRaisesNeverPropagates(c: Contract, f: Fn, args: seq<Value>)
    requires c.raises.None?
    ensures !RunFrom(c, f, args, 0).outcome.Reraised?
    ensures RunFrom(c, f, args, 0).outcome.ContractViolation? ==>
      RunFrom(c, f, args, 0).outcome.cause.None?
    ensures RunFrom(c, f, args, 0).outcome == TypeErrorRaised <==>
      |args| > 0 && CheckArg(c.argTypes, 0, args[0]) == ArgOk && f(args).Exc?
  {
    RunMatchesExpected(c, f, args);
  }

  /** Return type: a returned value of another class raises ContractError
      without a cause, on the first invocation. */
  lemma ReturnTypeMismatch(c: Contract, f: Fn, args: seq<Value>)
    requires |args| > 0 && CheckArg(c.argTypes, 0, args[0]) == ArgOk
    requires f(args).Ret? && c.returnType.Some?
    requires c.returnType.value != Exact(f(args).value.ty)
    ensures RunFrom(c, f, args, 0) == Run(ContractViolation(None), 1)
  {
    RunMatchesExpected(c, f, args);
  }

  /** Without `return_type` the return check never fails: a call whose
      arguments all pass returns None after one invocation per argument. */
  lemma NoReturnTypeSkipsCheck(c: Contract, f: Fn, args: seq<Value>)
    requires c.returnType.None? && f(args).Ret?
    requires PassesBefore(c, args, |args|)
    ensures RunFrom(c, f, args, 0) == Run(Returned(PyNone), |args|)
  {
    ReturnsNoneOnlyAfterFullLoop(c, f, args);
  }
}
