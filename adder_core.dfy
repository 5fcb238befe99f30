/**
 * The adder unit as the typed workspace copy defines it: plain addition,
 * the "custom" addition with its fixed offset of 3, and the handler that
 * reads both operands with default 0 and answers `{"result": ...}`.
 */
module AdderCore {
  import opened Events

  /** The fixed offset that distinguishes `CustomAdd` from plain addition. */
  const Offset: int := 3

  function Add(a: int, b: int): int
  {
    a + b
  }

  function CustomAdd(a: int, b: int): int
  {
    a + b + Offset
  }

  function Handler(e: Event): (r: Response)
    ensures r.Keys == {ResultKey}
    ensures KeyA in e && KeyB in e ==> r[ResultKey] == e[KeyA] + e[KeyB] + 3
    ensures KeyA in e && KeyB !in e ==> r[ResultKey] == e[KeyA] + 3
    ensures KeyA !in e && KeyB in e ==> r[ResultKey] == e[KeyB] + 3
    ensures KeyA !in e && KeyB !in e ==> r[ResultKey] == 3
  {
    var a := Get(e, KeyA, 0);
    var b := Get(e, KeyB, 0);
    Respond(CustomAdd(a, b))
  }

  lemma AddIsSum(a: int, b: int)
    ensures Add(a, b) == a + b
    ensures Add(1, 2) == 3
  {
  }

  lemma CustomAddIsOffsetSum(a: int, b: int)
    ensures CustomAdd(a, b) == a + b + 3
    ensures CustomAdd(1, 2) == 6
  {
  }

  /** The custom addition is plain addition shifted by the offset. */
  lemma CustomAddIsAddPlusOffset(a: int, b: int)
    ensures CustomAdd(a, b) == Add(a, b) + Offset
    ensures CustomAdd(a, b) - Add(a, b) == 3
  {
  }

  /** Missing operands count as 0: the empty event yields `{"result": 3}`. */
  lemma HandlerEmptyEvent()
    ensures Handler(map[]) == map[ResultKey := 3]
  {
  }

  /** Fields other than `a` and `b` never influence the response. */
  lemma HandlerSeesOnlyRecognised(e: Event)
    ensures Handler(e) == Handler(Recognised(e))
  {
  }

  /**
   * Against the reference reading of the default-0 policy: the result is the
   * offset plus the sum of the recognised fields that are present.
   */
  lemma {:induction false} HandlerSumsPresentFields(e: Event)
    ensures Handler(e) == map[ResultKey := SumOver(e, e.Keys * Fields) + Offset]
  {
    DefaultZeroIsSumOfPresent(e);
  }
}
