# Adder and multiplier handlers, and the calculator workflow

This project models a repository of two function-as-a-service units and the
workflow that chains them. Each unit is a handler that takes an event and a
context and returns a response.

- The **adder** reads `a` and `b` from the event, with 0 for a missing key.
  It returns `{"result": custom_add(a, b)}`, where `custom_add(a, b) = a + b + 3`.
  Plain `add(a, b) = a + b` sits beside it.
- The **multiplier** reads its operands the same way and returns
  `{"result": multiply(a, b)}`, where `multiply(a, b) = a * b`.
- The **calculator workflow** of the end-to-end tests sends `{a, b}` to the
  adder. It then sends `{a: sum, b: a}` to the multiplier, so the final value
  is `(a + b + 3) * a`.

The same code is copied across several directory layouts. Each copy is its
own Dafny module with its own definitions, and a `MatchesCore` lemma proves it
observably equal to the shared one:

- `Events`: the event and response shapes, Python's `dict.get` with a default,
  and a reference reading of the default-0 policy (`SumOver`).
- `AdderCore`: workspaces/adder_workspace/src/adder/main.py.
- `AdderScript`: src/adder/adder.py.
- `AdderLambda`: src/lambdas/adder/main.py.
- `MultiplierCore`: packages/multiplier/main.py.
- `MultiplierWorkspace`: workspaces/multiplier/src/multiplier/main.py.
- `Workflow`: the two-step composition asserted by tests/e2e/test_workflow.py.

Events and responses are `map<string, int>`. Python integers are unbounded,
so Dafny's `int` models them without any wrap-around. Every handler is a Dafny
function, so identical inputs always give identical outputs.

The module `lambdas.adder.custom.add` that src/lambdas/adder/main.py imports is
not part of this model. `AdderLambda.CustomAdd` stands in for it and is assumed
to be `a + b + 3`, the definition in the other two adder copies
(workspaces/adder_workspace/src/adder/main.py:8-9, src/adder/adder.py:4-5). It
agrees with the package's tests at `custom_add(1, 2) == 6` and
`handler({a: 4, b: 5}) == {"result": 12}`, which pin down only those values.

A field defaults to 0 only when its key is absent (`event.get(key, 0)`,
workspaces/adder_workspace/src/adder/main.py:13-14). A present value is passed
through unchanged.

## Model

| member | source | states |
|---|---|---|
| `Events.Get` | workspaces/adder_workspace/src/adder/main.py:13-14 | a present key yields its stored value; an absent key yields the default |
| `Events.Respond` | workspaces/adder_workspace/src/adder/main.py:16 | the response has exactly the one key `result`, holding the computed value |
| `Events.DefaultZeroIsSumOfPresent` | workspaces/adder_workspace/src/adder/main.py:13-14 | reading `a` and `b` with default 0 and adding them gives the sum of the recognised fields actually present |
| `AdderCore.Handler` | workspaces/adder_workspace/src/adder/main.py:12-16 | the response has only the key `result`: `a + b + 3` when both keys are present, `a + 3` or `b + 3` when one is missing, 3 when both are |
| `AdderCore.AddIsSum` | workspaces/adder_workspace/src/adder/main.py:4-5 | `add(a, b) == a + b` for all integers, and `add(1, 2) == 3` |
| `AdderCore.CustomAddIsOffsetSum` | workspaces/adder_workspace/src/adder/main.py:8-9 | `custom_add(a, b) == a + b + 3` for all integers, and `custom_add(1, 2) == 6` |
| `AdderCore.CustomAddIsAddPlusOffset` | workspaces/adder_workspace/src/adder/main.py:4-9 | `custom_add` is `add` plus the fixed offset 3 |
| `AdderCore.HandlerEmptyEvent` | workspaces/adder_workspace/src/adder/main.py:13-16 | the empty event yields `{"result": 3}` |
| `AdderCore.HandlerSeesOnlyRecognised` | workspaces/adder_workspace/src/adder/main.py:13-16 | the response depends only on the `a` and `b` fields; every other key of the event is ignored |
| `AdderCore.HandlerSumsPresentFields` | workspaces/adder_workspace/src/adder/main.py:12-16 | the response is `{"result": 3 + the sum of the present recognised fields}` |
| `AdderScript.Handler` | src/adder/adder.py:7-11 | the response has only the key `result`, and its value is `a + b + 3` with 0 for a missing operand |
| `AdderScript.AddIsSum` | src/adder/adder.py:1-2 | `add(a, b) == a + b` |
| `AdderScript.CustomAddIsOffsetSum` | src/adder/adder.py:4-5 | `custom_add(a, b) == a + b + 3` |
| `AdderScript.HandlerEmptyEvent` | src/adder/adder.py:7-11 | the empty event yields `{"result": 3}` |
| `AdderScript.MatchesCore` | src/adder/adder.py:1-11 | `add`, `custom_add` and `handler` equal the workspace adder's for every input and every event |
| `AdderLambda.Handler` | src/lambdas/adder/main.py:6-10 | the response has only the key `result`, and its value is `a + b + 3` with 0 for a missing operand |
| `AdderLambda.ArithmeticTests` | tests/lambdas/adder/test_adder.py:6-11 | `add(1, 2) == 3` and the imported `custom_add(1, 2) == 6` |
| `AdderLambda.HandlerTest` | tests/lambdas/adder/test_adder.py:14-17 | `handler({a: 4, b: 5}) == {"result": 12}` |
| `AdderLambda.HandlerDefaults` | src/lambdas/adder/main.py:7-9 | a missing `a` or `b` is replaced by 0 before `custom_add` is applied |
| `AdderLambda.MatchesCore` | src/lambdas/adder/main.py:6-10 | with the stand-in `custom_add`, this handler equals the workspace adder's for every event |
| `MultiplierCore.Handler` | packages/multiplier/main.py:8-12 | the response has only the key `result`: `a * b` when both keys are present, 0 when either is missing |
| `MultiplierCore.MultiplyIsProduct` | packages/multiplier/main.py:4-5 | `multiply(a, b) == a * b` for all integers, and `multiply(2, 3) == 6` |
| `MultiplierCore.HandlerTest` | workspaces/multiplier_workspace/tests/test_multiplier.py:8-11 | `handler({a: 4, b: 5}) == {"result": 20}` |
| `MultiplierCore.HandlerEmptyEvent` | packages/multiplier/main.py:9-12 | the empty event yields `{"result": 0}` |
| `MultiplierCore.HandlerZeroIff` | packages/multiplier/main.py:9-11 | the result is 0 if and only if an operand is missing or is 0 |
| `MultiplierCore.HandlerSymmetric` | packages/multiplier/main.py:4-12 | exchanging the values of `a` and `b` leaves the response unchanged |
| `MultiplierCore.HandlerSeesOnlyRecognised` | packages/multiplier/main.py:9-12 | the response depends only on the `a` and `b` fields |
| `MultiplierWorkspace.Handler` | workspaces/multiplier/src/multiplier/main.py:8-12 | the response has only the key `result`, and its value is `a * b` with 0 for a missing operand |
| `MultiplierWorkspace.MultiplyIsProduct` | workspaces/multiplier/src/multiplier/main.py:4-5 | `multiply(a, b) == a * b` |
| `MultiplierWorkspace.HandlerTest` | src/multiplier/test_multiplier.py:6-9 | `handler({a: 4, b: 5}) == {"result": 20}` |
| `MultiplierWorkspace.HandlerMissingOperand` | workspaces/multiplier/src/multiplier/main.py:9-11 | any event that lacks `a` or `b` yields `{"result": 0}` |
| `MultiplierWorkspace.MatchesCore` | workspaces/multiplier/src/multiplier/main.py:4-12 | `multiply` and `handler` equal the packaged multiplier's for every input and every event |
| `Workflow.Run` | tests/e2e/test_workflow.py:18-54 | the run keeps the original `a`; the adder step gives `a + b + 3`; the multiplier step gives `(a + b + 3) * a` |
| `Workflow.CalculatorWorkflow` | tests/e2e/test_workflow.py:18-54 | the input `{a: 5, b: 3}` gives 11 from the adder and then 55 from the multiplier |
| `Workflow.AdderStandalone` | tests/e2e/test_workflow.py:57-67 | the adder maps `{a: 10, b: 20}` to `{"result": 33}` |
| `Workflow.MultiplierStandalone` | tests/e2e/test_workflow.py:70-80 | the multiplier maps `{a: 6, b: 7}` to `{"result": 42}` |

## Left out

- The `context` parameter of every handler: no handler reads it, so it is dropped.
- Non-integer event values: `event.get` passes any present value through without conversion or check. Events are modelled as `map<string, int>`, so coercion and rejection do not arise.
- The HTTP transport of the end-to-end tests: the posts to local containers, the status-code checks and the 5-second timeouts are I/O. `Workflow.Run` models only the values passed between the two steps. It does not model the fail-fast behaviour when a step is unreachable.
- The module `lambdas.adder.custom.add`: it is not part of this model. `AdderLambda.CustomAdd` assumes the definition `a + b + 3` of the other adder copies; the tests fix only `custom_add(1, 2) == 6`, so `AdderLambda.MatchesCore` holds under that assumption.
- AdderLambda.ArithmeticTests: the test's `add` comes from the module `adder.add`, which is not part of this model; `AdderCore.Add` stands in for it.
- Packaging and the duplicated directory layouts: each copy is one module, and the copies are related by the `MatchesCore` lemmas.
