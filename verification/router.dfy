/** `StateRouter`: the name -> state-class registry, and `restore_state`
    (src/core/state_machine/state_machine.py:33-63). The state classes are
    the type parameter `K`; pydantic's validation of a class against its
    parameters is the `accepts` predicate supplied by the caller. */
module Router {

  import opened Base
  import opened Locators

  /** `StateRouterError` (already registered / not registered) and pydantic's
      `ValidationError` for a state whose parameters do not fit its fields. */
  datatype RouterError =
    | AlreadyRegistered(name: string)
    | NotRegistered(name: string)
    | InvalidParams(name: string)

  type StateRouter<K> = map<string, K>

  /** A live state: its class and the validated field values it was built from. */
  datatype Instance<K> = Instance(cls: K, fields: Params)

  const ChatIdField: string := "chat_id"

  /** `router[name] = cls` through the overridden `__setitem__`, which is what
      `register` does: a name already present is refused, never overwritten. */
  function Register<K>(r: StateRouter<K>, name: string, cls: K): (res: Result<StateRouter<K>, RouterError>)
    ensures res.Failure? <==> name in r
    ensures res.Failure? ==> res.error == AlreadyRegistered(name)
    ensures res.Success? ==> res.value.Keys == r.Keys + {name} && res.value[name] == cls
    ensures res.Success? ==> forall n :: n in r ==> res.value[n] == r[n]
  {
    if name in r then Failure(AlreadyRegistered(name)) else Success(r[name := cls])
  }

  /** No name occurs twice in a list of registrations. */
  predicate DistinctNames<K>(regs: seq<(string, K)>) {
    forall i, j :: 0 <= i < j < |regs| ==> regs[i].0 != regs[j].0
  }

  function Names<K>(regs: seq<(string, K)>): set<string> {
    set i | 0 <= i < |regs| :: regs[i].0
  }

  /** Applying the `@router.register(name)` decorators in order; the first
      duplicate raises and stops the rest. */
  function RegisterAll<K>(r: StateRouter<K>, regs: seq<(string, K)>): Result<StateRouter<K>, RouterError>
    decreases |regs|
  {
    if |regs| == 0 then Success(r)
    else match Register(r, regs[0].0, regs[0].1)
      case Failure(e) => Failure(e)
      case Success(r') => RegisterAll(r', regs[1..])
  }

  /** Registration succeeds exactly when all names are new and pairwise distinct;
      then every name maps to its own class and the old entries are kept. */
  lemma {:induction false} RegisterAllSucceedsIffDistinct<K>(r: StateRouter<K>, regs: seq<(string, K)>)
    ensures RegisterAll(r, regs).Success? <==> DistinctNames(regs) && Names(regs) !! r.Keys
    ensures RegisterAll(r, regs).Success? ==>
      && RegisterAll(r, regs).value.Keys == r.Keys + Names(regs)
      && (forall i :: 0 <= i < |regs| ==> RegisterAll(r, regs).value[regs[i].0] == regs[i].1)
      && (forall n :: n in r ==> RegisterAll(r, regs).value[n] == r[n])
    decreases |regs|
  {
    if |regs| > 0 {
      var tail := regs[1..];
      assert Names(regs) == {regs[0].0} + Names(tail) by {
        forall n | n in Names(regs) ensures n in {regs[0].0} + Names(tail) {
          var i :| 0 <= i < |regs| && regs[i].0 == n;
          if i > 0 { assert tail[i - 1].0 == n; }
        }
        forall n | n in Names(tail) ensures n in Names(regs) {
          var i :| 0 <= i < |tail| && tail[i].0 == n;
          assert regs[i + 1].0 == n;
        }
      }
      if regs[0].0 in r {
        assert !(Names(regs) !! r.Keys);
      } else {
        var r' := r[regs[0].0 := regs[0].1];
        RegisterAllSucceedsIffDistinct(r', tail);
        assert DistinctNames(regs) <==> DistinctNames(tail) && regs[0].0 !in Names(tail) by {
          if DistinctNames(tail) && regs[0].0 !in Names(tail) {
            forall i, j | 0 <= i < j < |regs| ensures regs[i].0 != regs[j].0 {
              if i == 0 {
                assert tail[j - 1].0 == regs[j].0;
              } else {
                assert tail[i - 1].0 != tail[j - 1].0;
              }
            }
          }
          if DistinctNames(regs) {
            forall i, j | 0 <= i < j < |tail| ensures tail[i].0 != tail[j].0 {
              assert regs[i + 1].0 != regs[j + 1].0;
            }
            forall i | 0 <= i < |tail| ensures tail[i].0 != regs[0].0 {
              assert regs[i + 1].0 != regs[0].0;
            }
          }
        }
        if RegisterAll(r, regs).Success? {
          var out := RegisterAll(r, regs).value;
          forall i | 0 <= i < |regs| ensures out[regs[i].0] == regs[i].1 {
            if i > 0 { assert regs[i] == tail[i - 1]; }
          }
        }
      }
    }
  }

  /** `router[name]` through the overridden `__getitem__`: an unknown name raises. */
  function Lookup<K>(r: StateRouter<K>, name: string): (res: Result<K, RouterError>)
    ensures res.Success? <==> name in r
    ensures res.Success? ==> res.value == r[name]
    ensures res.Failure? ==> res.error == NotRegistered(name)
  {
    if name in r then Success(r[name]) else Failure(NotRegistered(name))
  }

  /** `StateRouter.create_by_merging(*routers)`: `dict.update` bypasses the
      overridden `__setitem__`, so later routers silently win on shared names. */
  function CreateByMerging<K>(routers: seq<StateRouter<K>>): StateRouter<K>
    decreases |routers|
  {
    if |routers| == 0 then map[]
    else CreateByMerging(routers[..|routers| - 1]) + routers[|routers| - 1]
  }

  /** Some router of the list has the name `n`. */
  predicate HasName<K>(routers: seq<StateRouter<K>>, n: string) {
    exists i :: 0 <= i < |routers| && n in routers[i]
  }

  /** Router `i` is the last one of the list that has the name `n`. */
  predicate LastOwner<K>(routers: seq<StateRouter<K>>, i: int, n: string) {
    0 <= i < |routers| && n in routers[i] && forall j :: i < j < |routers| ==> n !in routers[j]
  }

  /** The merged router holds exactly the names of all routers; merging never fails. */
  lemma {:induction false} CreateByMergingKeys<K>(routers: seq<StateRouter<K>>, n: string)
    ensures n in CreateByMerging(routers) <==> HasName(routers, n)
    decreases |routers|
  {
    if |routers| > 0 {
      var init := routers[..|routers| - 1];
      var last := routers[|routers| - 1];
      CreateByMergingKeys(init, n);
      assert CreateByMerging(routers) == CreateByMerging(init) + last;
      if HasName(init, n) {
        var i :| 0 <= i < |init| && n in init[i];
        assert n in routers[i];
      }
      if HasName(routers, n) && n !in last {
        var i :| 0 <= i < |routers| && n in routers[i];
        assert n in init[i];
      }
    }
  }

  /** Each name is bound to the class of the last router that has it. */
  lemma {:induction false} CreateByMergingLastWins<K>(routers: seq<StateRouter<K>>, i: int, n: string)
    requires LastOwner(routers, i, n)
    ensures n in CreateByMerging(routers) && CreateByMerging(routers)[n] == routers[i][n]
    decreases |routers|
  {
    var init := routers[..|routers| - 1];
    var last := routers[|routers| - 1];
    assert CreateByMerging(routers) == CreateByMerging(init) + last;
    if i < |init| {
      assert n !in last;
      assert LastOwner(init, i, n);
      CreateByMergingLastWins(init, i, n);
    }
  }

  /** `restore_state(locator, chat_id)`: look the class up by name, overlay
      `chat_id` on the locator's parameters (the right side of `|` wins) and
      validate the result against the class. */
  function RestoreState<K>(r: StateRouter<K>, loc: Locator, chatId: int, accepts: (K, Params) -> bool)
    : (res: Result<Instance<K>, RouterError>)
    ensures loc.stateName !in r <==> res == Failure(NotRegistered(loc.stateName))
    ensures res.Success? ==> res.value.cls == r[loc.stateName] && accepts(res.value.cls, res.value.fields)
    ensures res.Success? ==> ChatIdField in res.value.fields && res.value.fields[ChatIdField] == IntV(chatId)
    ensures res.Success? ==> res.value.fields.Keys == loc.params.Keys + {ChatIdField}
    ensures res.Success? ==> forall k :: k in loc.params && k != ChatIdField ==> res.value.fields[k] == loc.params[k]
    ensures loc.stateName in r && res.Failure? ==> res.error == InvalidParams(loc.stateName)
  {
    match Lookup(r, loc.stateName)
    case Failure(e) => Failure(e)
    case Success(cls) =>
      var fields := Merge(loc.params, map[ChatIdField := IntV(chatId)]);
      if accepts(cls, fields) then Success(Instance(cls, fields)) else Failure(InvalidParams(loc.stateName))
  }
}
