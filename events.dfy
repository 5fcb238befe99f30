/**
 * The invocation convention shared by every handler of the repository: an
 * event is a JSON-object-shaped mapping whose integer fields `a` and `b` are
 * the operands, and a response is a mapping with the single field `result`.
 */
module Events {

  type Event = map<string, int>
  type Response = map<string, int>

  const KeyA: string := "a"
  const KeyB: string := "b"
  const ResultKey: string := "result"

  /** The only fields of an event that a handler reads. */
  const Fields: set<string> := {KeyA, KeyB}

  /** Python's `event.get(key, default)`: the stored value, or the default when the key is absent. */
  function Get(e: Event, key: string, default: int): (v: int)
    ensures key in e ==> v == e[key]
    ensures key !in e ==> v == default
  {
    if key in e then e[key] else default
  }

  /** The one-entry response `{"result": value}`. */
  function Respond(value: int): (r: Response)
    ensures r.Keys == {ResultKey}
    ensures r[ResultKey] == value
  {
    map[ResultKey := value]
  }

  /** The part of an event a handler can see: its recognised fields, and nothing else. */
  function Recognised(e: Event): (s: Event)
    ensures s.Keys == e.Keys * Fields
    ensures forall k :: k in s ==> s[k] == e[k]
  {
    map k | k in e && k in Fields :: e[k]
  }

  /** The event with the values (and presence) of `a` and `b` exchanged; other fields are kept. */
  function SwapOperands(e: Event): (s: Event)
    ensures KeyA in s <==> KeyB in e
    ensures KeyB in s <==> KeyA in e
    ensures KeyA in s ==> s[KeyA] == e[KeyB]
    ensures KeyB in s ==> s[KeyB] == e[KeyA]
    ensures forall k :: k !in Fields ==> (k in s <==> k in e)
    ensures forall k :: k !in Fields && k in s ==> s[k] == e[k]
  {
    var rest := e - Fields;
    var withA := if KeyB in e then rest[KeyA := e[KeyB]] else rest;
    if KeyA in e then withA[KeyB := e[KeyA]] else withA
  }

  /**
   * Reference reading of the default-0 policy: the sum of the values of the
   * keys in `ks`, every one of which is present. A missing field then simply
   * contributes nothing.
   */
  ghost function SumOver(e: Event, ks: set<string>): int
    requires ks <= e.Keys
    decreases ks
  {
    if ks == {} then 0 else var k :| k in ks; e[k] + SumOver(e, ks - {k})
  }

  lemma SumOverSingleton(e: Event, x: string)
    requires x in e
    ensures SumOver(e, {x}) == e[x]
  {
  }

  lemma SumOverPair(e: Event, x: string, y: string)
    requires x in e && y in e && x != y
    ensures SumOver(e, {x, y}) == e[x] + e[y]
  {
    var k :| k in {x, y} && SumOver(e, {x, y}) == e[k] + SumOver(e, {x, y} - {k});
    if k == x {
      assert {x, y} - {k} == {y};
      SumOverSingleton(e, y);
    } else {
      assert k == y;
      assert {x, y} - {k} == {x};
      SumOverSingleton(e, x);
    }
  }

  /**
   * The sum of the recognised fields read with default 0 equals the sum of
   * the recognised fields that are actually present.
   */
  lemma {:induction false} DefaultZeroIsSumOfPresent(e: Event)
    ensures Get(e, KeyA, 0) + Get(e, KeyB, 0) == SumOver(e, e.Keys * Fields)
  {
    var present := e.Keys * Fields;
    if KeyA in e && KeyB in e {
      assert present == {KeyA, KeyB};
      SumOverPair(e, KeyA, KeyB);
    } else if KeyA in e {
      assert present == {KeyA};
      SumOverSingleton(e, KeyA);
    } else if KeyB in e {
      assert present == {KeyB};
      SumOverSingleton(e, KeyB);
    } else {
      assert present == {};
    }
  }
}
