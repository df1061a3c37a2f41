/** Ordering, bound and repository facts about `StateMachine.Process`. */
module StateMachineProperties {

  import opened Base
  import opened Locators
  import opened Router
  import opened Telegram
  import opened StateMachine
  import Repo = LocatorsRepository

  // ---------------------------------------------------------------------------
  // Traces

  lemma {:induction false} EnteredCountAppend(a: seq<Event>, c: seq<Event>)
    ensures EnteredCount(a + c) == EnteredCount(a) + EnteredCount(c)
    decreases |a|
  {
    if |a| > 0 {
      assert (a + c)[0] == a[0];
      assert (a + c)[1..] == a[1..] + c;
      EnteredCountAppend(a[1..], c);
    } else {
      assert a + c == c;
    }
  }

  lemma {:induction false} ExitedCountAppend(a: seq<Event>, c: seq<Event>)
    ensures ExitedCount(a + c) == ExitedCount(a) + ExitedCount(c)
    decreases |a|
  {
    if |a| > 0 {
      assert (a + c)[0] == a[0];
      assert (a + c)[1..] == a[1..] + c;
      ExitedCountAppend(a[1..], c);
    } else {
      assert a + c == c;
    }
  }

  lemma {:induction false} ApplySavesAppend(store: Repo.Store, chatId: int, a: seq<Event>, c: seq<Event>)
    ensures ApplySaves(store, chatId, a + c) == ApplySaves(ApplySaves(store, chatId, a), chatId, c)
    decreases |a|
  {
    if |a| > 0 {
      assert (a + c)[0] == a[0];
      assert (a + c)[1..] == a[1..] + c;
      ApplySavesAppend(if a[0].Saved? then store[chatId := a[0].loc] else store, chatId, a[1..], c);
    } else {
      assert a + c == c;
    }
  }

  /** Replaying writes for `chatId` touches no other user's entry. */
  lemma {:induction false} ApplySavesOthers(store: Repo.Store, chatId: int, t: seq<Event>, k: int)
    requires k != chatId
    ensures k in ApplySaves(store, chatId, t) <==> k in store
    ensures k in store ==> ApplySaves(store, chatId, t)[k] == store[k]
    decreases |t|
  {
    if |t| > 0 {
      ApplySavesOthers(if t[0].Saved? then store[chatId := t[0].loc] else store, chatId, t[1..], k);
    }
  }

  /** When the last write is of `loc`, replaying leaves `loc` for the user and
      everything else as it was. */
  lemma ApplySavesEndingWith(store: Repo.Store, chatId: int, t: seq<Event>, loc: Locator)
    requires LastSaved(t, loc)
    ensures ApplySaves(store, chatId, t) == store[chatId := loc]
  {
    var init := t[..|t| - 1];
    assert t == init + [Saved(loc)];
    ApplySavesAppend(store, chatId, init, [Saved(loc)]);
    var mid := ApplySaves(store, chatId, init);
    assert ApplySaves(mid, chatId, [Saved(loc)]) == mid[chatId := loc];
    forall k | k != chatId ensures (k in mid <==> k in store) && (k in store ==> mid[k] == store[k]) {
      ApplySavesOthers(store, chatId, init, k);
    }
  }

  /** The chain log's shape: only enters and saves, each enter saved next. */
  lemma {:induction false} ChainLogShape(t: seq<Event>, origin: Locator)
    requires ChainLog(t, origin)
    ensures SaveFollowsEnter(t)
    ensures forall i :: 0 <= i < |t| ==> t[i].Entered? || t[i].Saved?
    decreases |t|
  {
    if |t| >= 2 && t != [Saved(origin)] {
      var rest := t[2..];
      ChainLogShape(rest, origin);
      forall i | 0 <= i < |t| && t[i].Entered? ensures i + 1 < |t| && t[i + 1] == Saved(t[i].loc) {
        if i >= 2 {
          assert t[i] == rest[i - 2];
        } else {
          assert i == 0;
        }
      }
      forall i | 0 <= i < |t| ensures t[i].Entered? || t[i].Saved? {
        if i >= 2 { assert t[i] == rest[i - 2]; }
      }
    }
  }

  /** A prefix of hook calls that are neither enters nor saves, followed by a
      chain log, keeps saves right after enters and all exits before enters. */
  lemma PrefixedChainLog(p: seq<Event>, t: seq<Event>, origin: Locator)
    requires forall i :: 0 <= i < |p| ==> p[i].Processed? || p[i].Exited?
    requires ChainLog(t, origin)
    ensures SaveFollowsEnter(p + t)
    ensures ExitBeforeEnter(p + t)
    ensures ExitedCount(p + t) == ExitedCount(p)
    ensures EnteredCount(p + t) == EnteredCount(t)
  {
    ChainLogShape(t, origin);
    var pt := p + t;
    assert forall k :: |p| <= k < |pt| ==> pt[k] == t[k - |p|];
    assert forall k :: 0 <= k < |p| ==> pt[k] == p[k];
    ExitedCountAppend(p, t);
    NoExitsInChainLog(t, origin);
    EnteredCountAppend(p, t);
    NoEntersBefore(p);
  }

  lemma {:induction false} NoEntersBefore(p: seq<Event>)
    requires forall i :: 0 <= i < |p| ==> p[i].Processed? || p[i].Exited?
    ensures EnteredCount(p) == 0
    decreases |p|
  {
    if |p| > 0 {
      NoEntersBefore(p[1..]);
    }
  }

  lemma {:induction false} NoExitsInChainLog(t: seq<Event>, origin: Locator)
    requires ChainLog(t, origin)
    ensures ExitedCount(t) == 0
    decreases |t|
  {
    if |t| >= 2 && t != [Saved(origin)] {
      assert t == t[..2] + t[2..];
      ExitedCountAppend(t[..2], t[2..]);
      NoExitsInChainLog(t[2..], origin);
    }
  }

  // ---------------------------------------------------------------------------
  // The chain loop

  /** The loop's log is a chain log. */
  lemma {:induction false} ChainLogged<K>(m: Machine<K>, b: Behaviour<K>, store: Repo.Store, chatId: int, u: Update,
                                          pending: Option<Locator>, fuel: nat, origin: Locator)
    ensures ChainLog(Chain(m, b, store, chatId, u, pending, fuel, origin).trace, origin)
    decreases fuel
  {
    if pending.Some? && fuel > 0 {
      var sw := SwitchState(m, b, store, chatId, u, pending.value);
      if sw.Success? {
        var s := sw.value;
        var rest := Chain(m, b, s.store, chatId, u, s.next, fuel - 1, origin);
        ChainLogged(m, b, s.store, chatId, u, s.next, fuel - 1, origin);
        var t := Chain(m, b, store, chatId, u, pending, fuel, origin).trace;
        assert t == s.trace + rest.trace;
        assert t[2..] == rest.trace;
      }
    }
  }

  /** The loop calls `switch_state` at most `fuel` times. A call that raises
      leaves no enter in the log, so a raised loop has entered fewer than
      `fuel` states; at the ceiling it has used all of them and ends by
      re-saving `origin`. */
  lemma {:induction false} ChainCounted<K>(m: Machine<K>, b: Behaviour<K>, store: Repo.Store, chatId: int, u: Update,
                                           pending: Option<Locator>, fuel: nat, origin: Locator)
    ensures var o := Chain(m, b, store, chatId, u, pending, fuel, origin);
      && EnteredCount(o.trace) <= fuel
      && (o.status.Raised? ==> EnteredCount(o.trace) < fuel)
      && (o.status.ChainCut? ==> EnteredCount(o.trace) == fuel && LastSaved(o.trace, origin))
    decreases fuel
  {
    var o := Chain(m, b, store, chatId, u, pending, fuel, origin);
    if pending.Some? && fuel == 0 {
      assert EnteredCount(o.trace) == EnteredCount(o.trace[1..]);
    }
    if pending.Some? && fuel > 0 {
      var sw := SwitchState(m, b, store, chatId, u, pending.value);
      if sw.Success? {
        var s := sw.value;
        var rest := Chain(m, b, s.store, chatId, u, s.next, fuel - 1, origin);
        ChainCounted(m, b, s.store, chatId, u, s.next, fuel - 1, origin);
        assert o.trace == s.trace + rest.trace;
        EnteredCountAppend(s.trace, rest.trace);
        SingleSwitchLog(store, chatId, pending.value, s.next);
        if o.status.ChainCut? {
          assert o.trace[|o.trace| - 1] == rest.trace[|rest.trace| - 1];
        }
      }
    }
  }

  /** Replaying the loop's writes gives the repository it leaves. */
  lemma {:induction false} ChainReplays<K>(m: Machine<K>, b: Behaviour<K>, store: Repo.Store, chatId: int, u: Update,
                                           pending: Option<Locator>, fuel: nat, origin: Locator)
    ensures var o := Chain(m, b, store, chatId, u, pending, fuel, origin);
      o.store == ApplySaves(store, chatId, o.trace)
    decreases fuel
  {
    var o := Chain(m, b, store, chatId, u, pending, fuel, origin);
    if pending.Some? && fuel == 0 {
      assert ApplySaves(store, chatId, o.trace) == ApplySaves(store[chatId := origin], chatId, []);
    }
    if pending.Some? && fuel > 0 {
      var sw := SwitchState(m, b, store, chatId, u, pending.value);
      if sw.Success? {
        var s := sw.value;
        var rest := Chain(m, b, s.store, chatId, u, s.next, fuel - 1, origin);
        ChainReplays(m, b, s.store, chatId, u, s.next, fuel - 1, origin);
        assert o.trace == s.trace + rest.trace;
        ApplySavesAppend(store, chatId, s.trace, rest.trace);
        SingleSwitchLog(store, chatId, pending.value, s.next);
      }
    }
  }

  /** The three chain facts together. */
  lemma ChainFacts<K>(m: Machine<K>, b: Behaviour<K>, store: Repo.Store, chatId: int, u: Update,
                      pending: Option<Locator>, fuel: nat, origin: Locator)
    ensures var o := Chain(m, b, store, chatId, u, pending, fuel, origin);
      && ChainLog(o.trace, origin)
      && EnteredCount(o.trace) <= fuel
      && (o.status.Raised? ==> EnteredCount(o.trace) < fuel)
      && o.store == ApplySaves(store, chatId, o.trace)
      && (o.status.ChainCut? ==> EnteredCount(o.trace) == fuel && LastSaved(o.trace, origin))
  {
    ChainLogged(m, b, store, chatId, u, pending, fuel, origin);
    ChainCounted(m, b, store, chatId, u, pending, fuel, origin);
    ChainReplays(m, b, store, chatId, u, pending, fuel, origin);
  }

  /** A chain that ends normally ends on a state whose `enter_state` returned
      None, and that state's locator is the one left in the repository. */
  lemma {:induction false} ChainCompletes<K>(m: Machine<K>, b: Behaviour<K>, store: Repo.Store, chatId: int, u: Update,
                                             pending: Option<Locator>, fuel: nat, origin: Locator)
    ensures var o := Chain(m, b, store, chatId, u, pending, fuel, origin);
      o.status.Completed? ==>
        if o.trace == [] then pending.None?
        else |o.trace| >= 2 && o.trace[|o.trace| - 2] == Entered(o.trace[|o.trace| - 2].loc, None)
             && o.trace[|o.trace| - 1] == Saved(o.trace[|o.trace| - 2].loc)
    decreases fuel
  {
    var o := Chain(m, b, store, chatId, u, pending, fuel, origin);
    if pending.Some? && fuel > 0 {
      var sw := SwitchState(m, b, store, chatId, u, pending.value);
      if sw.Success? {
        var s := sw.value;
        var rest := Chain(m, b, s.store, chatId, u, s.next, fuel - 1, origin);
        ChainCompletes(m, b, s.store, chatId, u, s.next, fuel - 1, origin);
        assert o.trace == s.trace + rest.trace;
        if o.status.Completed? && rest.trace != [] {
          assert o.trace[|o.trace| - 2] == rest.trace[|rest.trace| - 2];
          assert o.trace[|o.trace| - 1] == rest.trace[|rest.trace| - 1];
        }
      }
    }
  }

  // ---------------------------------------------------------------------------
  // One update

  /** Before the loop: `process` was called, then `exit_state` exactly when the
      locators differ. */
  lemma DepartureFacts(current: Locator, next: Locator)
    ensures var d := Departure(current, next);
      && d[0] == Processed(current, Some(next))
      && (forall i :: 0 <= i < |d| ==> d[i].Processed? || d[i].Exited?)
      && (ExitedCount(d) == 1 <==> !LocatorEq(current, next))
      && (ExitedCount(d) == 0 <==> LocatorEq(current, next))
      && (!LocatorEq(current, next) ==> |d| == 2 && d[1] == Exited(current))
  {
    var d := Departure(current, next);
    assert ExitedCount(d) == ExitedCount(d[1..]);
    if !LocatorEq(current, next) {
      assert d[1..] == [Exited(current)];
    }
  }

  /** The order of the transition's log and its enter bounds: `process`
      first, `exit_state` exactly when the locators differ, each enter
      followed by its save, at most `MAX_STATES_CHAIN_LEN` enters, and fewer
      when a `switch_state` raised, so the loop never makes more than
      `MAX_STATES_CHAIN_LEN` calls. */
  lemma TransitionLog<K>(m: Machine<K>, b: Behaviour<K>, store: Repo.Store, u: Update, current: Locator, next: Locator)
    ensures var o := Transition(m, b, store, u, current, next);
      && o.trace[0] == Processed(current, Some(next))
      && (ExitedCount(o.trace) == 1 <==> !LocatorEq(current, next))
      && (ExitedCount(o.trace) == 0 <==> LocatorEq(current, next))
      && (!LocatorEq(current, next) ==> o.trace[1] == Exited(current))
      && SaveFollowsEnter(o.trace)
      && ExitBeforeEnter(o.trace)
      && EnteredCount(o.trace) <= MaxStatesChainLen
      && (o.status.Raised? ==> EnteredCount(o.trace) < MaxStatesChainLen)
      && (o.status.ChainCut? ==> EnteredCount(o.trace) == MaxStatesChainLen)
  {
    var c := Chain(m, b, store, u.chatId, u, Some(next), MaxStatesChainLen, current);
    ChainLogged(m, b, store, u.chatId, u, Some(next), MaxStatesChainLen, current);
    ChainCounted(m, b, store, u.chatId, u, Some(next), MaxStatesChainLen, current);
    DepartureFacts(current, next);
    PrefixedChainLog(Departure(current, next), c.trace, current);
  }

  /** The transition's repository is the old one with the log's writes
      applied; at the ceiling the last write re-saves `current`, so the
      user's entry ends as it started. */
  lemma TransitionReplays<K>(m: Machine<K>, b: Behaviour<K>, store: Repo.Store, u: Update, current: Locator, next: Locator)
    ensures var o := Transition(m, b, store, u, current, next);
      && o.store == ApplySaves(store, u.chatId, o.trace)
      && (o.status.ChainCut? ==> LastSaved(o.trace, current) && o.store == store[u.chatId := current])
  {
    var c := Chain(m, b, store, u.chatId, u, Some(next), MaxStatesChainLen, current);
    ChainReplays(m, b, store, u.chatId, u, Some(next), MaxStatesChainLen, current);
    var d := Departure(current, next);
    DepartureFacts(current, next);
    ApplySavesAppend(store, u.chatId, d, c.trace);
    NoSavesBefore(store, u.chatId, d);
    if c.status.ChainCut? {
      ChainCounted(m, b, store, u.chatId, u, Some(next), MaxStatesChainLen, current);
      assert (d + c.trace)[|d + c.trace| - 1] == c.trace[|c.trace| - 1];
      ApplySavesEndingWith(store, u.chatId, c.trace, current);
    }
  }

  /** Everything the transition path promises: the log order, the enter
      bounds, the replayed repository, and the ceiling's re-save of
      `current`. */
  lemma TransitionFacts<K>(m: Machine<K>, b: Behaviour<K>, store: Repo.Store, u: Update, current: Locator, next: Locator)
    ensures var o := Transition(m, b, store, u, current, next);
      && o.trace[0] == Processed(current, Some(next))
      && (ExitedCount(o.trace) == 1 <==> !LocatorEq(current, next))
      && (ExitedCount(o.trace) == 0 <==> LocatorEq(current, next))
      && (!LocatorEq(current, next) ==> o.trace[1] == Exited(current))
      && SaveFollowsEnter(o.trace)
      && ExitBeforeEnter(o.trace)
      && EnteredCount(o.trace) <= MaxStatesChainLen
      && (o.status.Raised? ==> EnteredCount(o.trace) < MaxStatesChainLen)
      && o.store == ApplySaves(store, u.chatId, o.trace)
      && (o.status.ChainCut? ==> EnteredCount(o.trace) == MaxStatesChainLen && LastSaved(o.trace, current)
                                 && o.store == store[u.chatId := current])
  {
    TransitionLog(m, b, store, u, current, next);
    TransitionReplays(m, b, store, u, current, next);
  }

  lemma {:induction false} NoSavesBefore(store: Repo.Store, chatId: int, p: seq<Event>)
    requires forall i :: 0 <= i < |p| ==> p[i].Processed? || p[i].Exited?
    ensures ApplySaves(store, chatId, p) == store
    decreases |p|
  {
    if |p| > 0 {
      NoSavesBefore(store, chatId, p[1..]);
    }
  }

  /** The log of a single `switch_state`. */
  lemma SingleSwitchLog(store: Repo.Store, chatId: int, loc: Locator, result: Option<Locator>)
    ensures var t := [Entered(loc, result), Saved(loc)];
      && EnteredCount(t) == 1
      && ExitedCount(t) == 0
      && ApplySaves(store, chatId, t) == store[chatId := loc]
  {
    var t := [Entered(loc, result), Saved(loc)];
    var tail := [Saved(loc)];
    assert t[1..] == tail && tail[1..] == [];
    assert EnteredCount(tail) == 0 && ExitedCount(tail) == 0;
    assert EnteredCount(t) == 1 + EnteredCount(tail);
    assert ExitedCount(t) == ExitedCount(tail);
    assert ApplySaves(store, chatId, t) == ApplySaves(store, chatId, tail);
    assert ApplySaves(store, chatId, tail) == ApplySaves(store[chatId := loc], chatId, []);
  }

  /** A command, or a user with no stored locator, gets exactly one
      `switch_state` (to the command's locator, or to the start locator), no
      `process` or `exit_state` call, and whatever that `enter_state` returns
      is dropped. */
  lemma SingleSwitchPaths<K>(m: Machine<K>, b: Behaviour<K>, store: Repo.Store, u: Update)
    requires CommandLocator(m, u).Some? || u.chatId !in store
    ensures var o := Process(m, b, store, u);
      var target := if CommandLocator(m, u).Some? then CommandLocator(m, u).value else m.start;
      && !o.status.ChainCut?
      && (o.status.Raised? <==> RestoreState(m.router, target, u.chatId, b.accepts).Failure?
                                || b.enter(RestoreState(m.router, target, u.chatId, b.accepts).value, u).Threw?)
      && (o.status.Raised? ==> o.trace == [] && o.store == store)
      && (o.status.Completed? ==>
            && |o.trace| == 2
            && o.trace[0] == Entered(target, o.trace[0].result)
            && o.trace[1] == Saved(target)
            && o.store == store[u.chatId := target])
  {
  }

  /** When the current state's `process` returns None nothing else runs and
      the repository is not written. */
  lemma NoTransition<K>(m: Machine<K>, b: Behaviour<K>, store: Repo.Store, u: Update)
    requires CommandLocator(m, u).None? && u.chatId in store
    requires RestoreState(m.router, store[u.chatId], u.chatId, b.accepts).Success?
    requires b.process(RestoreState(m.router, store[u.chatId], u.chatId, b.accepts).value, u) == Returned(None)
    ensures Process(m, b, store, u) == Outcome(store, [Processed(store[u.chatId], None)], Completed)
  {
  }

  /** `exit_state` runs on the current state exactly when `process` returned a
      locator unequal to the current one (by name or by parameters), right
      after `process` and before any `enter_state`. */
  lemma ExitIffUnequal<K>(m: Machine<K>, b: Behaviour<K>, store: Repo.Store, u: Update)
    requires CommandLocator(m, u).None? && u.chatId in store
    requires RestoreState(m.router, store[u.chatId], u.chatId, b.accepts).Success?
    requires b.process(RestoreState(m.router, store[u.chatId], u.chatId, b.accepts).value, u).Returned?
    requires b.process(RestoreState(m.router, store[u.chatId], u.chatId, b.accepts).value, u).next.Some?
    ensures var current := store[u.chatId];
      var next := b.process(RestoreState(m.router, current, u.chatId, b.accepts).value, u).next.value;
      var o := Process(m, b, store, u);
      && o.trace[0] == Processed(current, Some(next))
      && (ExitedCount(o.trace) == 1 <==> !LocatorEq(current, next))
      && (ExitedCount(o.trace) == 0 <==> LocatorEq(current, next))
      && (!LocatorEq(current, next) ==> o.trace[1] == Exited(current))
      && ExitBeforeEnter(o.trace)
  {
    var current := store[u.chatId];
    var state := RestoreState(m.router, current, u.chatId, b.accepts).value;
    var next := b.process(state, u).next.value;
    if !LocatorEq(current, next) && b.exitRaises(state, u) {
      DepartureFacts(current, next);
      var d := Departure(current, next);
      NoEntersBefore(d);
      assert ExitBeforeEnter(d);
    } else {
      TransitionFacts(m, b, store, u, current, next);
    }
  }

  /** Facts that hold of every update: saves follow enters, exits precede
      enters, at most one exit, at most `MAX_STATES_CHAIN_LEN` enters and
      fewer when the update raised (a raising `switch_state` leaves no enter,
      so `switch_state` is never called more than `MAX_STATES_CHAIN_LEN`
      times), and the repository is the old one with the trace's writes for
      the sender applied. */
  lemma ProcessInvariants<K>(m: Machine<K>, b: Behaviour<K>, store: Repo.Store, u: Update)
    ensures var o := Process(m, b, store, u);
      && SaveFollowsEnter(o.trace)
      && ExitBeforeEnter(o.trace)
      && ExitedCount(o.trace) <= 1
      && EnteredCount(o.trace) <= MaxStatesChainLen
      && (o.status.Raised? ==> EnteredCount(o.trace) < MaxStatesChainLen)
      && o.store == ApplySaves(store, u.chatId, o.trace)
  {
    var o := Process(m, b, store, u);
    if CommandLocator(m, u).Some? || u.chatId !in store {
      SingleSwitchPaths(m, b, store, u);
      if o.status.Completed? {
        SingleSwitchLog(store, u.chatId, o.trace[0].loc, o.trace[0].result);
      }
    } else {
      var current := store[u.chatId];
      var rs := RestoreState(m.router, current, u.chatId, b.accepts);
      if rs.Success? && b.process(rs.value, u).Returned? && b.process(rs.value, u).next.Some? {
        var next := b.process(rs.value, u).next.value;
        if !LocatorEq(current, next) && b.exitRaises(rs.value, u) {
          var d := Departure(current, next);
          DepartureFacts(current, next);
          NoEntersBefore(d);
          NoSavesBefore(store, u.chatId, d);
        } else {
          TransitionFacts(m, b, store, u, current, next);
        }
      }
    }
  }

  /** Handling an update for one user never changes another user's entry. */
  lemma OtherUsersUntouched<K>(m: Machine<K>, b: Behaviour<K>, store: Repo.Store, u: Update, other: int)
    requires other != u.chatId
    ensures other in Process(m, b, store, u).store <==> other in store
    ensures other in store ==> Process(m, b, store, u).store[other] == store[other]
  {
    ProcessInvariants(m, b, store, u);
    ApplySavesOthers(store, u.chatId, Process(m, b, store, u).trace, other);
  }

  /** At the ceiling, after exactly `MAX_STATES_CHAIN_LEN` enters, the locator
      the user had before the update is saved again, so the repository ends
      exactly as it started. */
  lemma CeilingRestoresLocator<K>(m: Machine<K>, b: Behaviour<K>, store: Repo.Store, u: Update)
    ensures var o := Process(m, b, store, u);
      o.status.ChainCut? ==>
        && u.chatId in store
        && EnteredCount(o.trace) == MaxStatesChainLen
        && LastSaved(o.trace, store[u.chatId])
        && o.store == store
  {
    if CommandLocator(m, u).Some? || u.chatId !in store {
      SingleSwitchPaths(m, b, store, u);
    } else if !Process(m, b, store, u).status.ChainCut? {
    } else {
      var current := store[u.chatId];
      var rs := RestoreState(m.router, current, u.chatId, b.accepts);
      TransitionFacts(m, b, store, u, current, b.process(rs.value, u).next.value);
      assert store[u.chatId := current] == store;
    }
  }

  /** When a transition ends normally, the repository holds the last entered
      locator, the one whose `enter_state` returned None. */
  lemma CompletedKeepsLastEntered<K>(m: Machine<K>, b: Behaviour<K>, store: Repo.Store, u: Update, current: Locator, next: Locator)
    ensures var o := Transition(m, b, store, u, current, next);
      var t := o.trace;
      o.status.Completed? ==>
        && |t| >= 2
        && t[|t| - 2] == Entered(t[|t| - 2].loc, None)
        && o.store == store[u.chatId := t[|t| - 2].loc]
  {
    if !Transition(m, b, store, u, current, next).status.Completed? {
      return;
    }
    var c := Chain(m, b, store, u.chatId, u, Some(next), MaxStatesChainLen, current);
    ChainCompletes(m, b, store, u.chatId, u, Some(next), MaxStatesChainLen, current);
    TransitionFacts(m, b, store, u, current, next);
    var d := Departure(current, next);
    var t := d + c.trace;
    assert t[|t| - 2] == c.trace[|c.trace| - 2];
    assert t[|t| - 1] == c.trace[|c.trace| - 1];
    ApplySavesEndingWith(store, u.chatId, t, c.trace[|c.trace| - 2].loc);
  }

  /** `switch_state` writes only after `enter_state` has returned: when the
      `enter_state` of the first chained locator raises, the user keeps the
      locator they had, although its `exit_state` may already have run. */
  lemma RaisingEnterKeepsLocator<K>(m: Machine<K>, b: Behaviour<K>, store: Repo.Store, u: Update, current: Locator, next: Locator)
    requires RestoreState(m.router, next, u.chatId, b.accepts).Success?
    requires b.enter(RestoreState(m.router, next, u.chatId, b.accepts).value, u).Threw?
    ensures var o := Transition(m, b, store, u, current, next);
      && o.status == Raised(HookFault(InEnter, next))
      && o.store == store
      && EnteredCount(o.trace) == 0
      && o.trace == Departure(current, next)
  {
    var d := Departure(current, next);
    DepartureFacts(current, next);
    NoEntersBefore(d);
    assert d + [] == d;
  }

  /** A machine whose states always chain onward (every `enter_state` returns a
      registered locator, no hook raises and validation never fails) still stops: after
      `MAX_STATES_CHAIN_LEN` switches, with the repository as it was. */
  lemma EndlessChainIsCut<K>(m: Machine<K>, b: Behaviour<K>, store: Repo.Store, u: Update)
    requires forall k, p :: b.accepts(k, p)
    requires forall i, v :: b.enter(i, v).Returned? && b.enter(i, v).next.Some? && b.enter(i, v).next.value.stateName in m.router
    requires forall i, v :: !b.exitRaises(i, v)
    requires CommandLocator(m, u).None? && u.chatId in store
    requires store[u.chatId].stateName in m.router
    requires forall i :: b.process(i, u).Returned? && b.process(i, u).next.Some? && b.process(i, u).next.value.stateName in m.router
    ensures Process(m, b, store, u).status.ChainCut?
    ensures Process(m, b, store, u).store == store
  {
    var current := store[u.chatId];
    var rs := RestoreState(m.router, current, u.chatId, b.accepts);
    assert rs.Success?;
    var next := b.process(rs.value, u).next;
    EndlessChainLoop(m, b, store, u.chatId, u, next.value, MaxStatesChainLen, current);
    CeilingRestoresLocator(m, b, store, u);
  }

  lemma {:induction false} EndlessChainLoop<K>(m: Machine<K>, b: Behaviour<K>, store: Repo.Store, chatId: int, u: Update,
                                               pending: Locator, fuel: nat, origin: Locator)
    requires forall k, p :: b.accepts(k, p)
    requires forall i, v :: b.enter(i, v).Returned? && b.enter(i, v).next.Some? && b.enter(i, v).next.value.stateName in m.router
    requires pending.stateName in m.router
    ensures Chain(m, b, store, chatId, u, Some(pending), fuel, origin).status.ChainCut?
    decreases fuel
  {
    if fuel > 0 {
      var sw := SwitchState(m, b, store, chatId, u, pending);
      assert sw.Success?;
      EndlessChainLoop(m, b, sw.value.store, chatId, u, sw.value.next.value, fuel - 1, origin);
    }
  }
}
