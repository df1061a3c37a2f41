/** `StateMachine.process` and `switch_state`
    (src/core/state_machine/state_machine.py:77-127) over an abstract set of
    state classes `K`. A state's hooks are the uninterpreted functions of a
    `Behaviour`; the machine's effects are the new repository contents and a
    trace of the hook calls and repository writes, in the order they happen. */
module StateMachine {

  import opened Base
  import opened Locators
  import opened Router
  import opened Telegram
  import Repo = LocatorsRepository

  /** `MAX_STATES_CHAIN_LEN`: the most `switch_state` calls one update can chain. */
  const MaxStatesChainLen: nat := 10

  /** What one `enter_state` or `process` call did: return a locator (or
      None), or raise. */
  datatype Call = Returned(next: Option<Locator>) | Threw

  /** What the state classes do: which parameters each accepts (pydantic
      validation), the `enter_state` / `process` hooks, and whether
      `exit_state` raises (it returns nothing). */
  datatype Behaviour<!K> = Behaviour(
    accepts: (K, Params) -> bool,
    enter: (Instance<K>, Update) -> Call,
    exitRaises: (Instance<K>, Update) -> bool,
    process: (Instance<K>, Update) -> Call)

  /** The machine's fields: router, locator repository, start locator and command table. */
  datatype Machine<K> = Machine(
    router: StateRouter<K>,
    repository: Repo.Handle,
    start: Locator,
    commands: map<string, Locator>)

  /** Observable steps: a hook call on the state at `loc` that returned (with
      what it returned), an `exit_state` call, or a write of `loc` to the
      repository. */
  datatype Event =
    | Processed(loc: Locator, result: Option<Locator>)
    | Exited(loc: Locator)
    | Entered(loc: Locator, result: Option<Locator>)
    | Saved(loc: Locator)

  /** The hook that raised. */
  datatype Stage = InProcess | InExit | InEnter

  /** An exception out of `process`: from `restore_state` (unknown name or
      rejected fields), or from a hook of the state at `loc`. */
  datatype Fault = RouterFault(error: RouterError) | HookFault(stage: Stage, loc: Locator)

  /** How handling stopped: normally, by reaching the chain ceiling with
      `pending` still to enter, or by an exception. */
  datatype Status = Completed | ChainCut(pending: Locator) | Raised(fault: Fault)

  datatype Outcome = Outcome(store: Repo.Store, trace: seq<Event>, status: Status)

  /** The result of one `switch_state`: repository, trace, and the locator `enter_state` returned. */
  datatype Switched = Switched(store: Repo.Store, trace: seq<Event>, next: Option<Locator>)

  /** The command table entry for the update's text, if there is one. */
  function CommandLocator<K>(m: Machine<K>, u: Update): (r: Option<Locator>)
    ensures r.Some? <==> u.message.Some? && u.message.value.text.Some? && u.message.value.text.value in m.commands
  {
    if u.message.Some? && u.message.value.text.Some? && u.message.value.text.value in m.commands
    then Some(m.commands[u.message.value.text.value])
    else None
  }

  /** `switch_state(target)`: build the target state, call its `enter_state`,
      then save exactly `target` for the user, and hand back what
      `enter_state` returned. A failed restore raises before anything happens;
      an `enter_state` that raises does so before the save. */
  function SwitchState<K>(m: Machine<K>, b: Behaviour<K>, store: Repo.Store, chatId: int, u: Update, target: Locator)
    : (r: Result<Switched, Fault>)
    ensures var rs := RestoreState(m.router, target, chatId, b.accepts);
      && (r.Failure? <==> rs.Failure? || b.enter(rs.value, u).Threw?)
      && (rs.Failure? ==> r == Failure(RouterFault(rs.error)))
      && (rs.Success? && b.enter(rs.value, u).Threw? ==> r == Failure(HookFault(InEnter, target)))
      && (r.Success? ==>
            && r.value.trace == [Entered(target, r.value.next), Saved(target)]
            && r.value.next == b.enter(rs.value, u).next
            && r.value.store == store[chatId := target])
  {
    match RestoreState(m.router, target, chatId, b.accepts)
    case Failure(e) => Failure(RouterFault(e))
    case Success(state) =>
      match b.enter(state, u)
      case Threw => Failure(HookFault(InEnter, target))
      case Returned(next) =>
        Success(Switched(Repo.SaveUserLocator(store, m.repository, chatId, target),
                         [Entered(target, next), Saved(target)], next))
  }

  /** A `switch_state` whose returned locator is dropped (the command and
      first-contact paths). */
  function SwitchOnce<K>(m: Machine<K>, b: Behaviour<K>, store: Repo.Store, chatId: int, u: Update, target: Locator)
    : Outcome
  {
    match SwitchState(m, b, store, chatId, u, target)
    case Failure(e) => Outcome(store, [], Raised(e))
    case Success(s) => Outcome(s.store, s.trace, Completed)
  }

  /** The `while next_state_locator` loop with `fuel` switches left before the
      ceiling; at the ceiling the user's locator from before the update,
      `origin`, is saved again. */
  function Chain<K>(m: Machine<K>, b: Behaviour<K>, store: Repo.Store, chatId: int, u: Update,
                    pending: Option<Locator>, fuel: nat, origin: Locator): (r: Outcome)
    ensures r.status.ChainCut? ==> pending.Some? && r.store == store[chatId := origin]
    ensures r.status.Raised? && r.status.fault.HookFault? ==> r.status.fault.stage == InEnter && pending.Some?
    decreases fuel
  {
    if pending.None? then Outcome(store, [], Completed)
    else if fuel == 0 then
      Outcome(Repo.SaveUserLocator(store, m.repository, chatId, origin), [Saved(origin)], ChainCut(pending.value))
    else match SwitchState(m, b, store, chatId, u, pending.value)
      case Failure(e) => Outcome(store, [], Raised(e))
      case Success(s) =>
        var rest := Chain(m, b, s.store, chatId, u, s.next, fuel - 1, origin);
        Outcome(rest.store, s.trace + rest.trace, rest.status)
  }

  /** `StateMachine.process(update)`: a command wins; otherwise a user with no
      stored locator starts over; otherwise the current state handles it. */
  function Process<K>(m: Machine<K>, b: Behaviour<K>, store: Repo.Store, u: Update): (r: Outcome)
    ensures r.status.ChainCut? ==> CommandLocator(m, u).None? && u.chatId in store && r.store == store
  {
    match CommandLocator(m, u)
    case Some(target) => SwitchOnce(m, b, store, u.chatId, u, target)
    case None =>
      match Repo.RestoreLocatorByUserId(store, m.repository, u.chatId)
      case None => SwitchOnce(m, b, store, u.chatId, u, m.start)
      case Some(current) => ProcessCurrent(m, b, store, u, current)
  }

  /** The stored-locator path: rebuild the current state and ask its `process`
      hook for the next locator; None means the user stays put. When the
      locators differ `exit_state` runs first, and if it raises the loop
      never starts. */
  function ProcessCurrent<K>(m: Machine<K>, b: Behaviour<K>, store: Repo.Store, u: Update, current: Locator)
    : (r: Outcome)
    ensures r.status.Raised? && r.status.fault.HookFault? && r.status.fault.stage != InEnter ==>
      r.status.fault.loc == current && r.store == store
    ensures r.trace == [] ==> r.status.Raised? && r.store == store
  {
    match RestoreState(m.router, current, u.chatId, b.accepts)
    case Failure(e) => Outcome(store, [], Raised(RouterFault(e)))
    case Success(state) =>
      match b.process(state, u)
      case Threw => Outcome(store, [], Raised(HookFault(InProcess, current)))
      case Returned(None) => Outcome(store, [Processed(current, None)], Completed)
      case Returned(Some(next)) =>
        if !LocatorEq(current, next) && b.exitRaises(state, u)
        then Outcome(store, Departure(current, next), Raised(HookFault(InExit, current)))
        else Transition(m, b, store, u, current, next)
  }

  /** Leaving `current` for `next`: `exit_state` only when the two locators
      differ, then the chain loop. */
  function Transition<K>(m: Machine<K>, b: Behaviour<K>, store: Repo.Store, u: Update, current: Locator, next: Locator)
    : (r: Outcome)
    ensures |r.trace| >= 1 && r.trace[0] == Processed(current, Some(next))
    ensures r.status.Raised? && r.status.fault.HookFault? ==> r.status.fault.stage == InEnter
  {
    var c := Chain(m, b, store, u.chatId, u, Some(next), MaxStatesChainLen, current);
    Outcome(c.store, Departure(current, next) + c.trace, c.status)
  }

  /** The hook calls on the current state before the chain loop starts. */
  function Departure(current: Locator, next: Locator): seq<Event> {
    [Processed(current, Some(next))] + (if LocatorEq(current, next) then [] else [Exited(current)])
  }

  // ---------------------------------------------------------------------------
  // Reading traces

  /** The chain loop's log: enter-then-save pairs of the same locator,
      possibly closed by the ceiling's re-save of `origin`. */
  predicate ChainLog(t: seq<Event>, origin: Locator)
    decreases |t|
  {
    || t == []
    || t == [Saved(origin)]
    || (|t| >= 2 && t[0].Entered? && t[1] == Saved(t[0].loc) && ChainLog(t[2..], origin))
  }

  function EnteredCount(t: seq<Event>): nat
    decreases |t|
  {
    if |t| == 0 then 0 else (if t[0].Entered? then 1 else 0) + EnteredCount(t[1..])
  }

  function ExitedCount(t: seq<Event>): nat
    decreases |t|
  {
    if |t| == 0 then 0 else (if t[0].Exited? then 1 else 0) + ExitedCount(t[1..])
  }

  /** The repository after replaying the trace's writes for user `chatId`. */
  function ApplySaves(store: Repo.Store, chatId: int, t: seq<Event>): Repo.Store
    decreases |t|
  {
    if |t| == 0 then store
    else ApplySaves(if t[0].Saved? then store[chatId := t[0].loc] else store, chatId, t[1..])
  }

  /** Every `enter_state` is immediately followed by the save of the same locator. */
  predicate SaveFollowsEnter(t: seq<Event>) {
    forall i :: 0 <= i < |t| && t[i].Entered? ==> i + 1 < |t| && t[i + 1] == Saved(t[i].loc)
  }

  /** No `enter_state` comes before an `exit_state`. */
  predicate ExitBeforeEnter(t: seq<Event>) {
    forall i, j :: 0 <= i < |t| && 0 <= j < |t| && t[i].Exited? && t[j].Entered? ==> i < j
  }

  /** The log ends with the save of `loc`. */
  predicate LastSaved(t: seq<Event>, loc: Locator) {
    |t| > 0 && t[|t| - 1] == Saved(loc)
  }
}
