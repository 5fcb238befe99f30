/**
 * The multiplier unit, packages/multiplier/main.py: the product of the two
 * operands, each read with default 0, answered as `{"result": ...}`.
 */
module MultiplierCore {
  import opened Events

  function Multiply(a: int, b: int): int
  {
    a * b
  }

  function Handler(e: Event): (r: Response)
    ensures r.Keys == {ResultKey}
    ensures KeyA in e && KeyB in e ==> r[ResultKey] == e[KeyA] * e[KeyB]
    ensures KeyA !in e || KeyB !in e ==> r[ResultKey] == 0
  {
    var a := Get(e, KeyA, 0);
    var b := Get(e, KeyB, 0);
    Respond(Multiply(a, b))
  }

  lemma MultiplyIsProduct(a: int, b: int)
    ensures Multiply(a, b) == a * b
    ensures Multiply(2, 3) == 6
  {
  }

  lemma HandlerTest()
    ensures Handler(map[KeyA := 4, KeyB := 5]) == map[ResultKey := 20]
  {
  }

  lemma HandlerEmptyEvent()
    ensures Handler(map[]) == map[ResultKey := 0]
  {
  }

  /** The result is 0 exactly when an operand is missing or is itself 0. */
  lemma HandlerZeroIff(e: Event)
    ensures Handler(e)[ResultKey] == 0
        <==> KeyA !in e || KeyB !in e || e[KeyA] == 0 || e[KeyB] == 0
  {
  }

  /** Exchanging the operands leaves the response unchanged. */
  lemma HandlerSymmetric(e: Event)
    ensures Handler(SwapOperands(e)) == Handler(e)
  {
  }

  /** Fields other than `a` and `b` never influence the response. */
  lemma HandlerSeesOnlyRecognised(e: Event)
    ensures Handler(e) == Handler(Recognised(e))
  {
  }
}
