/** `Locator`: the immutable address of a dialogue state, a state name plus
    the parameter bag needed to rebuild the state
    (src/core/state_machine/state_machine.py:12-14). */
module Locators {

  import opened Base

  /** The scalar values the bot stores in locator parameters. */
  datatype Value = IntV(i: int) | BoolV(b: bool) | StrV(s: string) | NoneV

  type Params = map<string, Value>

  datatype Locator = Locator(stateName: string, params: Params)

  /** The number a value stands for under Python's numeric tower (`True == 1`). */
  function Numeric(v: Value): Option<int> {
    match v
    case IntV(i) => Some(i)
    case BoolV(b) => Some(if b then 1 else 0)
    case _ => None
  }

  /** Python's `==` on parameter values: `bool` compares equal to the matching `int`. */
  predicate ValueEq(a: Value, b: Value) {
    if Numeric(a).Some? && Numeric(b).Some? then Numeric(a) == Numeric(b) else a == b
  }

  /** Python's `==` on dicts of parameter values: same keys, pairwise equal values. */
  predicate ParamsEq(p: Params, q: Params) {
    p.Keys == q.Keys && forall k :: k in p ==> ValueEq(p[k], q[k])
  }

  /** `Locator.__eq__` (a NamedTuple): both the state name and the parameters agree. */
  predicate LocatorEq(a: Locator, b: Locator): (eq: bool)
    ensures eq ==> a.stateName == b.stateName && a.params.Keys == b.params.Keys
    ensures a == b ==> eq
  {
    a.stateName == b.stateName && ParamsEq(a.params, b.params)
  }

  /** Locator equality is an equivalence coarser than structural identity, and
      any difference of names or of parameter keys makes locators unequal. */
  lemma LocatorEqProperties(a: Locator, b: Locator, c: Locator)
    ensures a == b ==> LocatorEq(a, b)
    ensures LocatorEq(a, b) ==> LocatorEq(b, a)
    ensures LocatorEq(a, b) && LocatorEq(b, c) ==> LocatorEq(a, c)
    ensures a.stateName != b.stateName ==> !LocatorEq(a, b)
    ensures a.params.Keys != b.params.Keys ==> !LocatorEq(a, b)
  {
  }

  /** On values that never mix `bool` with `int`, Python equality is structural. */
  lemma {:induction false} LocatorEqStructural(a: Locator, b: Locator)
    requires forall k :: k in a.params ==> !a.params[k].BoolV?
    requires forall k :: k in b.params ==> !b.params[k].BoolV?
    ensures LocatorEq(a, b) <==> a == b
  {
    if LocatorEq(a, b) {
      assert a.params == b.params by {
        forall k | k in a.params ensures a.params[k] == b.params[k] {
          assert ValueEq(a.params[k], b.params[k]);
        }
      }
    }
  }

  /** Python's `p | q`: the union of keys, with `q` winning on shared keys. */
  function Merge(p: Params, q: Params): (r: Params)
    ensures r.Keys == p.Keys + q.Keys
    ensures forall k :: k in q ==> r[k] == q[k]
    ensures forall k :: k in p && k !in q ==> r[k] == p[k]
  {
    p + q
  }
}
