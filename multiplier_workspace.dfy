/** The workspace copy of the multiplier, workspaces/multiplier/src/multiplier/main.py. */
module MultiplierWorkspace {
  import opened Events
  import MultiplierCore

  function Multiply(a: int, b: int): int
  {
    a * b
  }

  function Handler(e: Event): (r: Response)
    ensures r.Keys == {ResultKey}
    ensures r[ResultKey] == Get(e, KeyA, 0) * Get(e, KeyB, 0)
  {
    var a := Get(e, KeyA, 0);
    var b := Get(e, KeyB, 0);
    Respond(Multiply(a, b))
  }

  lemma MultiplyIsProduct(a: int, b: int)
    ensures Multiply(a, b) == a * b
  {
  }

  lemma HandlerTest()
    ensures Handler(map[KeyA := 4, KeyB := 5]) == map[ResultKey := 20]
  {
  }

  /** Any event that lacks an operand yields `{"result": 0}`. */
  lemma HandlerMissingOperand(e: Event)
    requires KeyA !in e || KeyB !in e
    ensures Handler(e) == map[ResultKey := 0]
  {
  }

  /** This copy is observably the packaged multiplier, function by function. */
  lemma MatchesCore(a: int, b: int, e: Event)
    ensures Multiply(a, b) == MultiplierCore.Multiply(a, b)
    ensures Handler(e) == MultiplierCore.Handler(e)
  {
  }
}
