/** The untyped adder copy, src/adder/adder.py: the same three functions written again. */
module AdderScript {
  import opened Events
  import AdderCore

  function Add(a: int, b: int): int
  {
    a + b
  }

  function CustomAdd(a: int, b: int): int
  {
    a + b + 3
  }

  function Handler(e: Event): (r: Response)
    ensures r.Keys == {ResultKey}
    ensures r[ResultKey] == Get(e, KeyA, 0) + Get(e, KeyB, 0) + 3
  {
    var a := Get(e, KeyA, 0);
    var b := Get(e, KeyB, 0);
    Respond(CustomAdd(a, b))
  }

  lemma AddIsSum(a: int, b: int)
    ensures Add(a, b) == a + b
  {
  }

  lemma CustomAddIsOffsetSum(a: int, b: int)
    ensures CustomAdd(a, b) == a + b + 3
  {
  }

  lemma HandlerEmptyEvent()
    ensures Handler(map[]) == map[ResultKey := 3]
  {
  }

  /** This copy is observably the workspace adder, function by function. */
  lemma MatchesCore(a: int, b: int, e: Event)
    ensures Add(a, b) == AdderCore.Add(a, b)
    ensures CustomAdd(a, b) == AdderCore.CustomAdd(a, b)
    ensures Handler(e) == AdderCore.Handler(e)
  {
  }
}
