/**
 * The two-step calculator workflow of the end-to-end tests: the adder's
 * `result` becomes the multiplier's `a`, and the original `a` its `b`.
 * The transport between the two steps is not modelled; only the values
 * passed along are.
 */
module Workflow {
  import opened Events
  import AdderCore
  import MultiplierCore

  /** What the invoker holds during one run. */
  datatype PipelineState = PipelineState(originalA: int, sum: int, product: int)

  /** One run on the input `{"a": a, "b": b}`. */
  function Run(a: int, b: int): (s: PipelineState)
    ensures s.originalA == a
    ensures s.sum == a + b + 3
    ensures s.product == (a + b + 3) * a
  {
    var sum := AdderCore.Handler(map[KeyA := a, KeyB := b])[ResultKey];
    var product := MultiplierCore.Handler(map[KeyA := sum, KeyB := a])[ResultKey];
    PipelineState(a, sum, product)
  }

  /** The scenario `{a: 5, b: 3}`: the adder answers 11, the multiplier 55. */
  lemma CalculatorWorkflow()
    ensures Run(5, 3) == PipelineState(5, 11, 55)
  {
  }

  lemma AdderStandalone()
    ensures AdderCore.Handler(map[KeyA := 10, KeyB := 20]) == map[ResultKey := 33]
  {
  }

  lemma MultiplierStandalone()
    ensures MultiplierCore.Handler(map[KeyA := 6, KeyB := 7]) == map[ResultKey := 42]
  {
  }
}
