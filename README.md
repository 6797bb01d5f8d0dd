# A verified model of the `contract` decorator

The repository defines a runtime contract checker for Python functions:
`contract(arg_types=None, return_type=None, raises=None)` returns a factory.
The factory wraps a function in `decorator(*args)`, which checks the exact
class of every positional argument against `arg_types`. Its other two jobs
are to filter the exceptions the function raises through `raises` and to
check the exact class of the returned value against `return_type`. The
`Any` sentinel stands for "any class" in a slot of `arg_types` or `raises`.
Exceptions that break the contract become `ContractError`.

The model has three modules:

- `Runtime` (runtime.dfy) holds what the decorator observes of Python.
  This is a value's exact class (`PyType`), values and exception objects,
  `None`, and how a call ends (`Result`: returns a value or raises an
  exception). The wrapped function is a Dafny function `seq<Value> -> Result`.
- `Contracts` (contract.dfy) holds the decorator. `Contract` is what
  `contract(...)` captures, with the same defaults. `Decorator` is what
  `factory(function)` returns. `Invoke` is the wrapper itself: a method
  whose `for` loop has the same body as the source's loop. A ghost
  counter records how many times the function was invoked. `RunFrom` is
  the loop as a recursive function and is the specification of `Invoke`.
  `Expected` states the same call in closed form. The property lemmas
  follow from the two agreeing.
- `Demo` (demo.dfy) holds `add_two_numbers` and `div`, with their
  arithmetic reduced to the class of the result. It also holds the
  script's calls as lemmas.

### Where the code and its description differ

The model follows the code as written. The docstring and the natural
reading of the decorator describe different behaviour:

- The call of the function and the return check are indented inside the
  per-argument loop. So the function runs once for every argument that
  passes its check. Arguments after the first are checked only after it
  has run. The wrapper falls off the end and returns `None`, never the
  function's value. A call with no arguments never invokes the function.
- `div(1, None)` is not rejected before the division. The division runs
  first, after `1` passes its check. Its `TypeError` is not listed in
  `raises`, so it becomes the cause of a `ContractError`.
- With `raises` left at its default `None`, any exception from the
  function ends in the `TypeError` of `type(ex) not in None`. The wrapper
  never propagates the exception and never produces a `ContractError`.
- More arguments than `arg_types` slots raise `IndexError` once the loop
  reaches the first missing slot. This happens only if the function has
  returned cleanly on every earlier iteration.
- `Any` given as `return_type` is not a wildcard. No value's class is the
  sentinel, so every returned value is rejected.

## Model

| member | source | states |
|---|---|---|
| `Contracts.CheckArg` | main.py:22-26 | Without `arg_types` every argument passes. Past the last slot the check is out of range (the IndexError). Otherwise it is a mismatch exactly when the slot is neither `Any` nor the argument's exact class. |
| `Contracts.RunFrom` | main.py:21-37 | The loop from position i invokes the function at most once per remaining argument. When the loop ends normally it returns None after exactly one invocation per remaining argument. |
| `Contracts.Invoke` | main.py:21-37 | The wrapper's outcome, and its ghost count of invocations, equal those of the loop's specification `RunFrom` on every call. |
| `Contracts.FirstRejected` | main.py:22-26 | Finds the first position from `from` whose argument check fails, or the end. Every earlier position passes. |
| `Contracts.RunFromAfterCleanReturn` | main.py:22-37 | Once the function has returned an accepted value, the rest of the loop only checks arguments. It ends at the first rejected one, after one invocation per earlier argument, or returns None. |
| `Contracts.RunMatchesExpected` | main.py:21-37 | The loop agrees, outcome and invocation count, with the closed form `Expected` on every call. |
| `Contracts.ReturnsNoneOnlyAfterFullLoop` | main.py:21-37 | The wrapper returns iff every argument passes and either there are no arguments or the function returns an accepted value. It then returns None, not the function's value, after one invocation per argument. With no arguments it invokes nothing. |
| `Contracts.ArgumentMismatch` | main.py:22-26 | A rejected argument at position i raises ContractError without a cause. The function is not invoked in that iteration: the call made exactly i invocations. |
| `Contracts.TooManyArguments` | main.py:23-24 | With fewer slots than arguments, earlier arguments passing and the function returning cleanly, the call ends in IndexError after one invocation per slot. |
| `Contracts.IndexErrorOnlyFromTooManyArguments` | main.py:23-24 | IndexError implies that slots were given and there were fewer of them than arguments. The function then ran once per slot. |
| `Contracts.NoArgTypesChecksNothing` | main.py:23-25 | Without `arg_types` no IndexError occurs. A cause-less ContractError can then only come from a rejected return value. |
| `Contracts.NoArgTypesSameAsAllAny` | main.py:23-25 | Leaving `arg_types` unset gives exactly the same outcome and invocation count as giving `Any` for every argument. |
| `Contracts.PermittedIffListedOrAny` | main.py:30-31 | An exception passes `raises` iff its exact class or `Any` is listed. |
| `Contracts.FirstCallRaises` | main.py:27-34 | If the first argument passes and the function raises, the `except` clause decides the call after one invocation, whatever the later arguments are. |
| `Contracts.DisallowedException` | main.py:29-32 | An exception whose class is not listed, with `Any` not listed, becomes a ContractError whose cause is that exception. |
| `Contracts.AllowedException` | main.py:30-34 | An exception whose class is listed, or with `Any` listed, is re-raised unchanged. |
| `Contracts.ExceptionOutcomesComeFromTheFunction` | main.py:27-34 | Conversely, a re-raised exception and the cause of a ContractError are the function's own exception. Re-raising happens only when `raises` permits it, wrapping only when it does not, each after one invocation. |
| `Contracts.DefaultRaises` | main.py:30-31 | With `raises` at its default None, an exception from the function ends the call in TypeError after one invocation. |
| `Contracts.NoRaisesNeverPropagates` | main.py:29-34 | Without `raises`, nothing is re-raised and no ContractError has a cause. TypeError occurs iff the first argument passes and the function raises. |
| `Contracts.ReturnTypeMismatch` | main.py:35-37 | A returned value whose class is not `return_type` raises ContractError without a cause on the first invocation. This includes every value when `return_type` is `Any`. |
| `Contracts.NoReturnTypeSkipsCheck` | main.py:35-37 | Without `return_type`, a call whose arguments all pass and whose function returns ends in None after one invocation per argument. |
| `Demo.AddWellTyped` | main.py:42-44 | `add_two_numbers(1, 2)` and `add_two_numbers(1, 3.4)` invoke the addition twice and return None. |
| `Demo.AddFirstNotInt` | main.py:42-44 | `add_two_numbers(2.1, 1)`, and a bool in the first position, raise ContractError before any invocation. |
| `Demo.AddWrongArity` | main.py:42-44 | `add_two_numbers(1, 2, 3)` ends in TypeError after one invocation. `add_two_numbers()` returns None with none. |
| `Demo.DivByIntegers` | main.py:47-49 | `div(1, 2)` returns None after two invocations. `div(1, 0)` re-raises the division's own ZeroDivisionError after one. |
| `Demo.DivByNone` | main.py:47-49 | `div(1, None)` raises ContractError caused by the division's TypeError, after one invocation. |

## Left out

- `functools.wraps` copies the function's name and docstring. It has no behaviour to check.
- Keyword arguments: the wrapper accepts positional arguments only.
- The wrapped function is deterministic and always terminates in the model. A function whose result changes between invocations (state, I/O) is not modelled. The closed form `Expected` relies on each invocation giving the same result.
- Exceptions outside `Exception` (`BaseException` subclasses that `except Exception` does not catch), tracebacks, and the implicit `__context__` of the TypeError raised inside the `except` clause.
- Entries of `arg_types` or `raises` that are neither classes nor `Any` (such as `None` in a slot). `raises` given as something other than a sequence of such entries is also left out.
- The arithmetic of `add_two_numbers` and `div` is reduced to the class of the result or the exception raised. Float values are not modelled.
- The script under `if __name__ == '__main__'` is a driver. Its calls are the `Demo` lemmas. The fact that the script stops at the uncaught ZeroDivisionError of `div(1, 0)` is not modelled.
