/**
 * The adder packaged as a function-as-a-service handler,
 * src/lambdas/adder/main.py. It imports `custom_add` from the module
 * `lambdas.adder.custom.add`, which is not part of this model; `CustomAdd`
 * below stands in for it and is assumed to be the sum plus 3, as in the
 * other two adder copies; the package's tests agree with it but pin down
 * only `custom_add(1, 2) == 6`. The test's `add`, imported from the module
 * `adder.add` (also not part of this model), is stood in for by `AdderCore.Add`.
 */
module AdderLambda {
  import opened Events
  import AdderCore

  /** Stand-in for the imported `custom_add` (an assumption, see above). */
  function CustomAdd(a: int, b: int): int
  {
    a + b + 3
  }

  function Handler(e: Event): (r: Response)
    ensures r.Keys == {ResultKey}
    ensures r[ResultKey] == Get(e, KeyA, 0) + Get(e, KeyB, 0) + 3
  {
    var a := Get(e, KeyA, 0);
    var b := Get(e, KeyB, 0);
    var result := CustomAdd(a, b);
    Respond(result)
  }

  /** The unit tests of this package: `add(1, 2) == 3` and `custom_add(1, 2) == 6`. */
  lemma ArithmeticTests()
    ensures AdderCore.Add(1, 2) == 3
    ensures CustomAdd(1, 2) == 6
  {
  }

  lemma HandlerTest()
    ensures Handler(map[KeyA := 4, KeyB := 5]) == map[ResultKey := 12]
  {
  }

  /** Missing operands default to 0 before `CustomAdd` is applied. */
  lemma HandlerDefaults(x: int)
    ensures Handler(map[]) == map[ResultKey := CustomAdd(0, 0)]
    ensures Handler(map[KeyA := x]) == map[ResultKey := CustomAdd(x, 0)]
    ensures Handler(map[KeyB := x]) == map[ResultKey := CustomAdd(0, x)]
  {
  }

  /** Under the stand-in, this handler is observably the workspace adder's. */
  lemma MatchesCore(a: int, b: int, e: Event)
    ensures CustomAdd(a, b) == AdderCore.CustomAdd(a, b)
    ensures Handler(e) == AdderCore.Handler(e)
  {
  }
}
