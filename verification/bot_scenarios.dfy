/** Whole-update runs of the bot's machine, for every chat, text and item:
    what each screen's handlers lead to, and what a failed send leaves behind. */
module BotScenarios {

  import opened Base
  import opened Text
  import opened Locators
  import opened Router
  import opened Telegram
  import opened StateMachine
  import opened BotStates
  import StateMachineProperties
  import Repo = LocatorsRepository

  /** The locator of the screen of item `todoId`. */
  function ItemLocator(todoId: int): Locator {
    Locator(ShowTodoName, map["todo_id" := IntV(todoId)])
  }

  const TitleLocator: Locator := Locator(AddTitleName, map[])

  function ContentLocator(title: string): Locator {
    Locator(AddContentName, map["title" := StrV(title)])
  }

  // ---------------------------------------------------------------------------
  // Plumbing: the machine's steps for the bot

  /** The item screen, the list and the add dialogue rebuild from their
      locators for any chat. */
  lemma BotStatesRestore(w: World, chatId: int, todoId: int, title: string)
    ensures var r := RestoreState(BotRouter, ItemLocator(todoId), chatId, BotBehaviour(w).accepts);
      r.Success? && r.value.cls == ShowTodoState && IntField(r.value.fields, "todo_id") == todoId
    ensures var r := RestoreState(BotRouter, StartLocator, chatId, BotBehaviour(w).accepts);
      r.Success? && r.value.cls == StartState && !EditsInPlace(r.value.fields)
    ensures var r := RestoreState(BotRouter, TitleLocator, chatId, BotBehaviour(w).accepts);
      r.Success? && r.value.cls == AddTodoTitleState
    ensures var r := RestoreState(BotRouter, ContentLocator(title), chatId, BotBehaviour(w).accepts);
      r.Success? && r.value.cls == AddTodoContentState && StrField(r.value.fields, "title") == title
  {
    assert Accepts(StartState, Merge(map[], map[ChatIdField := IntV(chatId)]));
    assert Accepts(AddTodoTitleState, Merge(map[], map[ChatIdField := IntV(chatId)]));
  }

  /** A chain that enters `first` and stops there. */
  lemma ChainOfOne<K>(m: Machine<K>, b: Behaviour<K>, store: Repo.Store, chatId: int, u: Update,
                      first: Locator, origin: Locator)
    requires SwitchState(m, b, store, chatId, u, first).Success?
    requires SwitchState(m, b, store, chatId, u, first).value.next == None
    ensures Chain(m, b, store, chatId, u, Some(first), MaxStatesChainLen, origin)
         == Outcome(store[chatId := first], [Entered(first, None), Saved(first)], Completed)
  {
    var s1 := store[chatId := first];
    assert Chain(m, b, s1, chatId, u, None, MaxStatesChainLen - 1, origin) == Outcome(s1, [], Completed);
    assert [Entered(first, None), Saved(first)] + [] == [Entered(first, None), Saved(first)];
  }

  /** A chain that enters `first`, is sent on to `second`, and stops there. */
  lemma ChainOfTwo<K>(m: Machine<K>, b: Behaviour<K>, store: Repo.Store, chatId: int, u: Update,
                      first: Locator, second: Locator, origin: Locator)
    requires SwitchState(m, b, store, chatId, u, first).Success?
    requires SwitchState(m, b, store, chatId, u, first).value.next == Some(second)
    requires SwitchState(m, b, store[chatId := first], chatId, u, second).Success?
    requires SwitchState(m, b, store[chatId := first], chatId, u, second).value.next == None
    ensures Chain(m, b, store, chatId, u, Some(first), MaxStatesChainLen, origin)
         == Outcome(store[chatId := second],
                    [Entered(first, Some(second)), Saved(first), Entered(second, None), Saved(second)], Completed)
  {
    var s1 := store[chatId := first];
    var s2 := s1[chatId := second];
    assert Chain(m, b, s2, chatId, u, None, MaxStatesChainLen - 2, origin) == Outcome(s2, [], Completed);
    var tail := Chain(m, b, s1, chatId, u, Some(second), MaxStatesChainLen - 1, origin);
    assert tail == Outcome(s2, [Entered(second, None), Saved(second)] + [], Completed);
    assert s2 == store[chatId := second];
  }

  /** On a stored screen, a non-command update whose `process` returns `next`
      runs the transition to `next` (the bot's `exit_state` never raises). */
  lemma BotTakesTransition(h: Repo.Handle, w: World, store: Repo.Store, u: Update, next: Locator)
    requires CommandLocator(BotMachine(h), u).None? && u.chatId in store
    requires RestoreState(BotRouter, store[u.chatId], u.chatId, BotBehaviour(w).accepts).Success?
    requires ProcessHook(w, RestoreState(BotRouter, store[u.chatId], u.chatId, BotBehaviour(w).accepts).value, u)
          == Returned(Some(next))
    ensures Process(BotMachine(h), BotBehaviour(w), store, u)
         == Transition(BotMachine(h), BotBehaviour(w), store, u, store[u.chatId], next)
  {
  }

  /** Entering the list anew: nothing chains on, and the send either goes
      through or raises. */
  lemma EnterList(h: Repo.Handle, w: World, store: Repo.Store, chatId: int, u: Update)
    ensures var sw := SwitchState(BotMachine(h), BotBehaviour(w), store, chatId, u, StartLocator);
      && (w.delivered(StartState) ==> sw.Success? && sw.value.next == None)
      && (!w.delivered(StartState) ==> sw == Failure(HookFault(InEnter, StartLocator)))
  {
    BotStatesRestore(w, chatId, 0, "");
  }

  // ---------------------------------------------------------------------------
  // The list

  /** `/start` from anyone, whatever their stored state, enters the list once
      and stores the start locator; if that first message cannot be sent,
      nothing is stored. */
  lemma StartCommand(h: Repo.Handle, w: World, store: Repo.Store, chatId: int, messageId: int)
    ensures var o := Process(BotMachine(h), BotBehaviour(w), store,
                             Update(chatId, Some(Message(messageId, Some("/start"))), None));
      && (w.delivered(StartState) ==>
            o == Outcome(store[chatId := StartLocator], [Entered(StartLocator, None), Saved(StartLocator)], Completed))
      && (!w.delivered(StartState) ==> o == Outcome(store, [], Raised(HookFault(InEnter, StartLocator))))
  {
    var m := BotMachine(h);
    var u := Update(chatId, Some(Message(messageId, Some("/start"))), None);
    assert CommandLocator(m, u) == Some(StartLocator);
    EnterList(h, w, store, chatId, u);
  }

  /** `switch_state` saves only after `enter_state` returns: a first-time user
      whose greeting cannot be sent stays unknown, so the next update starts
      over from the list again. */
  lemma FirstContactSendFails(h: Repo.Handle, w: World, store: Repo.Store, u: Update)
    requires CommandLocator(BotMachine(h), u).None? && u.chatId !in store
    requires !w.delivered(StartState)
    ensures Process(BotMachine(h), BotBehaviour(w), store, u)
         == Outcome(store, [], Raised(HookFault(InEnter, StartLocator)))
    ensures u.chatId !in Process(BotMachine(h), BotBehaviour(w), store, u).store
  {
    EnterList(h, w, store, u.chatId, u);
  }

  /** On the list, whichever page or filter it shows, pressing the button of
      an existing item leaves the list (exit), enters the item's screen and
      stores its locator; nothing is written to the database. */
  lemma OpenItemFromList(h: Repo.Handle, w: World, store: Repo.Store, chatId: int,
                         todoId: nat, messageId: int)
    requires chatId in store && store[chatId].stateName == StartName && ListParams(store[chatId].params)
    requires w.todoExists(todoId) && w.delivered(ShowTodoState)
    ensures var u := Update(chatId, None, Some(CallbackQuery(ShowNat(todoId), messageId)));
      var list := store[chatId];
      && Process(BotMachine(h), BotBehaviour(w), store, u)
         == Outcome(store[chatId := ItemLocator(todoId)],
                    [Processed(list, Some(ItemLocator(todoId))), Exited(list),
                     Entered(ItemLocator(todoId), None), Saved(ItemLocator(todoId))],
                    Completed)
      && UpdateEffects(h, w, store, u) == []
  {
    var m := BotMachine(h);
    var b := BotBehaviour(w);
    var u := Update(chatId, None, Some(CallbackQuery(ShowNat(todoId), messageId)));
    var item := ItemLocator(todoId);
    var list := store[chatId];
    ItemButtonRoundTrip(todoId, messageId);
    BotStatesRestore(w, chatId, todoId, "");
    assert list == Locator(StartName, list.params);
    StartRestores(w, list.params, chatId);
    var rs := RestoreState(m.router, list, chatId, b.accepts);
    assert ProcessHook(w, rs.value, u) == Returned(Some(item));
    BotTakesTransition(h, w, store, u, item);
    assert !LocatorEq(list, item);
    var ri := RestoreState(m.router, item, chatId, b.accepts);
    assert b.enter(ri.value, u) == Returned(None);
    ChainOfOne(m, b, store, chatId, u, item, list);
  }

  // ---------------------------------------------------------------------------
  // Adding an item

  /** On the title step, a text `t` leaves the step (exit) for the content
      step with `title = t`; the content step's prompt either goes out and its
      locator is stored, or raises and the title step stays stored. */
  lemma TitleTextLeadsToContent(h: Repo.Handle, w: World, store: Repo.Store, chatId: int, messageId: int, t: string)
    requires chatId in store && store[chatId] == TitleLocator
    requires t != "/start"
    ensures var u := Update(chatId, Some(Message(messageId, Some(t))), None);
      var o := Process(BotMachine(h), BotBehaviour(w), store, u);
      var departure := [Processed(TitleLocator, Some(ContentLocator(t))), Exited(TitleLocator)];
      && (w.delivered(AddTodoContentState) ==>
            o == Outcome(store[chatId := ContentLocator(t)],
                         departure + [Entered(ContentLocator(t), None), Saved(ContentLocator(t))], Completed))
      && (!w.delivered(AddTodoContentState) ==>
            o == Outcome(store, departure, Raised(HookFault(InEnter, ContentLocator(t)))))
  {
    var m := BotMachine(h);
    var b := BotBehaviour(w);
    var u := Update(chatId, Some(Message(messageId, Some(t))), None);
    var content := ContentLocator(t);
    BotStatesRestore(w, chatId, 0, t);
    var rs := RestoreState(m.router, TitleLocator, chatId, b.accepts);
    assert AddTodoTitleText(Some(t)) == content;
    assert ProcessHook(w, rs.value, u) == Returned(Some(content));
    BotTakesTransition(h, w, store, u, content);
    assert !LocatorEq(TitleLocator, content);
    assert Departure(TitleLocator, content) == [Processed(TitleLocator, Some(content)), Exited(TitleLocator)];
    var rc := RestoreState(m.router, content, chatId, b.accepts);
    if w.delivered(AddTodoContentState) {
      assert b.enter(rc.value, u) == Returned(None);
      ChainOfOne(m, b, store, chatId, u, content, TitleLocator);
    } else {
      assert b.enter(rc.value, u) == Threw;
      assert Departure(TitleLocator, content) + [] == Departure(TitleLocator, content);
    }
  }

  /** On the title step, a message without text leaves the step (exit) and
      then fails validation of the content step (`title` is None): the update
      raises and the title step stays stored. */
  lemma NonTextTitleRaises(h: Repo.Handle, w: World, store: Repo.Store, chatId: int, messageId: int)
    requires chatId in store && store[chatId] == TitleLocator
    ensures var u := Update(chatId, Some(Message(messageId, None)), None);
      var next := Locator(AddContentName, map["title" := NoneV]);
      Process(BotMachine(h), BotBehaviour(w), store, u)
      == Outcome(store, [Processed(TitleLocator, Some(next)), Exited(TitleLocator)],
                 Raised(RouterFault(InvalidParams(AddContentName))))
  {
    var m := BotMachine(h);
    var b := BotBehaviour(w);
    var u := Update(chatId, Some(Message(messageId, None)), None);
    var next := Locator(AddContentName, map["title" := NoneV]);
    BotStatesRestore(w, chatId, 0, "");
    var rs := RestoreState(m.router, TitleLocator, chatId, b.accepts);
    assert ProcessHook(w, rs.value, u) == Returned(Some(next));
    BotTakesTransition(h, w, store, u, next);
    assert !LocatorEq(TitleLocator, next);
    assert !Accepts(AddTodoContentState, Merge(next.params, map[ChatIdField := IntV(chatId)]));
    assert Departure(TitleLocator, next) + [] == Departure(TitleLocator, next);
  }

  /** The database writes of a message on the content step: the new item
      with the cut title and the text, or nothing when the message has no
      text, since the database refuses an item without content. Delivery
      plays no part. */
  lemma ContentEffects(h: Repo.Handle, w: World, store: Repo.Store, chatId: int, messageId: int,
                       title: string, text: Option<string>)
    requires chatId in store && store[chatId] == ContentLocator(title)
    requires text != Some("/start")
    ensures var u := Update(chatId, Some(Message(messageId, text)), None);
      UpdateEffects(h, w, store, u) == if text.Some? then [CreateTodo(chatId, TruncateTitle(title), text)] else []
  {
    BotStatesRestore(w, chatId, 0, title);
  }

  /** On the content step, any text saves the item and returns to the list:
      the list's locator is what ends up stored. A message without text
      raises instead, and the content step stays stored. */
  lemma ContentTextEndsOnList(h: Repo.Handle, w: World, store: Repo.Store, chatId: int, messageId: int,
                              title: string, text: Option<string>)
    requires chatId in store && store[chatId] == ContentLocator(title)
    requires w.delivered(AddTodoContentState) && w.delivered(StartState)
    ensures var u := Update(chatId, Some(Message(messageId, text)), None);
      var o := Process(BotMachine(h), BotBehaviour(w), store, u);
      && (text.Some? ==> o.status.Completed? && o.store == store[chatId := StartLocator])
      && (text.Some? && text != Some("/start") ==>
            o.trace == [Processed(ContentLocator(title), Some(StartLocator)), Exited(ContentLocator(title)),
                        Entered(StartLocator, None), Saved(StartLocator)])
      && (text.None? ==> o == Outcome(store, [], Raised(HookFault(InProcess, ContentLocator(title)))))
  {
    var m := BotMachine(h);
    var b := BotBehaviour(w);
    var u := Update(chatId, Some(Message(messageId, text)), None);
    var cur := ContentLocator(title);
    if text == Some("/start") {
      EnterList(h, w, store, chatId, u);
      assert CommandLocator(m, u) == Some(StartLocator);
    } else if text.None? {
      ContentWithoutTextRaises(h, w, store, chatId, messageId, title);
    } else {
      EnterList(h, w, store, chatId, u);
      BotStatesRestore(w, chatId, 0, title);
      var rs := RestoreState(m.router, cur, chatId, b.accepts);
      assert ProcessHook(w, rs.value, u) == Returned(Some(StartLocator));
      BotTakesTransition(h, w, store, u, StartLocator);
      assert !LocatorEq(cur, StartLocator);
      ChainOfOne(m, b, store, chatId, u, StartLocator, cur);
    }
  }

  /** On the content step, a message without text asks the database for an
      item without content, which it refuses: `process` raises before any
      confirmation, nothing is created, and the content step stays stored. */
  lemma ContentWithoutTextRaises(h: Repo.Handle, w: World, store: Repo.Store, chatId: int, messageId: int,
                                 title: string)
    requires chatId in store && store[chatId] == ContentLocator(title)
    ensures var u := Update(chatId, Some(Message(messageId, None)), None);
      && Process(BotMachine(h), BotBehaviour(w), store, u)
         == Outcome(store, [], Raised(HookFault(InProcess, ContentLocator(title))))
      && UpdateEffects(h, w, store, u) == []
  {
    var u := Update(chatId, Some(Message(messageId, None)), None);
    BotStatesRestore(w, chatId, 0, title);
    var rs := RestoreState(BotRouter, ContentLocator(title), chatId, BotBehaviour(w).accepts);
    assert ProcessHook(w, rs.value, u) == Threw;
  }

  /** The content step's handler creates the item before it confirms: when
      the confirmation cannot be sent `process` raises after the item was
      created, and the user is left on the content step, so sending the text
      again creates a second item. */
  lemma ContentConfirmationFails(h: Repo.Handle, w: World, store: Repo.Store, chatId: int, messageId: int,
                                 title: string, text: Option<string>)
    requires chatId in store && store[chatId] == ContentLocator(title)
    requires !w.delivered(AddTodoContentState) && text != Some("/start")
    ensures var u := Update(chatId, Some(Message(messageId, text)), None);
      && Process(BotMachine(h), BotBehaviour(w), store, u)
         == Outcome(store, [], Raised(HookFault(InProcess, ContentLocator(title))))
      && UpdateEffects(h, w, store, u) == if text.Some? then [CreateTodo(chatId, TruncateTitle(title), text)] else []
  {
    var m := BotMachine(h);
    var b := BotBehaviour(w);
    var u := Update(chatId, Some(Message(messageId, text)), None);
    BotStatesRestore(w, chatId, 0, title);
    var rs := RestoreState(m.router, ContentLocator(title), chatId, b.accepts);
    assert ProcessHook(w, rs.value, u) == Threw;
    ContentEffects(h, w, store, chatId, messageId, title, text);
  }

  // ---------------------------------------------------------------------------
  // An item's screen

  /** On an item's screen, `done`, `delete` and `back` leave the screen once
      (exit) and end with the list stored. */
  lemma ItemButtonsReturnToList(h: Repo.Handle, w: World, store: Repo.Store, chatId: int,
                                todoId: int, data: string, messageId: int)
    requires chatId in store && store[chatId] == ItemLocator(todoId)
    requires data in {"done", "delete", "back"}
    requires w.delivered(StartState)
    ensures var u := Update(chatId, None, Some(CallbackQuery(data, messageId)));
      Process(BotMachine(h), BotBehaviour(w), store, u)
      == Outcome(store[chatId := StartLocator],
                 [Processed(ItemLocator(todoId), Some(StartLocator)), Exited(ItemLocator(todoId)),
                  Entered(StartLocator, None), Saved(StartLocator)],
                 Completed)
  {
    var m := BotMachine(h);
    var b := BotBehaviour(w);
    var u := Update(chatId, None, Some(CallbackQuery(data, messageId)));
    var item := ItemLocator(todoId);
    ItemButtonTakesTransition(h, w, store, chatId, todoId, data, messageId);
    assert !LocatorEq(item, StartLocator);
    EnterList(h, w, store, chatId, u);
    ChainOfOne(m, b, store, chatId, u, StartLocator, item);
  }

  /** A button press on an item's screen writes what its handler asks for:
      `done` marks the item done, `delete` deletes it, anything else writes
      nothing. */
  lemma ItemButtonEffects(h: Repo.Handle, w: World, store: Repo.Store, chatId: int,
                          todoId: int, data: string, messageId: int)
    requires chatId in store && store[chatId] == ItemLocator(todoId)
    ensures var u := Update(chatId, None, Some(CallbackQuery(data, messageId)));
      var e := UpdateEffects(h, w, store, u);
      && (data == "done" <==> e == [MarkTodoDone(todoId)])
      && (data == "delete" <==> e == [DeleteTodo(todoId)])
      && (data != "done" && data != "delete" ==> e == [])
  {
    BotStatesRestore(w, chatId, todoId, "");
  }

  /** `done`, `delete` and `back` return the list's locator, so the machine
      runs the transition from the item to the list. */
  lemma ItemButtonTakesTransition(h: Repo.Handle, w: World, store: Repo.Store, chatId: int,
                                  todoId: int, data: string, messageId: int)
    requires chatId in store && store[chatId] == ItemLocator(todoId)
    requires data in {"done", "delete", "back"}
    ensures var u := Update(chatId, None, Some(CallbackQuery(data, messageId)));
      Process(BotMachine(h), BotBehaviour(w), store, u)
      == Transition(BotMachine(h), BotBehaviour(w), store, u, ItemLocator(todoId), StartLocator)
  {
    var u := Update(chatId, None, Some(CallbackQuery(data, messageId)));
    BotStatesRestore(w, chatId, todoId, "");
    var ri := RestoreState(BotRouter, ItemLocator(todoId), chatId, BotBehaviour(w).accepts);
    assert ShowTodoButtons(todoId, data).next == Some(StartLocator);
    assert ProcessHook(w, ri.value, u) == Returned(Some(StartLocator));
    BotTakesTransition(h, w, store, u, StartLocator);
  }

  /** On an item's screen, `edit` re-enters the same screen without an exit;
      it ends with the item stored when the item still exists, and with the
      list stored when it is gone. */
  lemma EditReentersItem(h: Repo.Handle, w: World, store: Repo.Store, chatId: int, todoId: int, messageId: int)
    requires chatId in store && store[chatId] == ItemLocator(todoId)
    requires w.delivered(ShowTodoState) && w.delivered(StartState)
    ensures var u := Update(chatId, None, Some(CallbackQuery("edit", messageId)));
      var o := Process(BotMachine(h), BotBehaviour(w), store, u);
      && o.status.Completed?
      && o.trace[0] == Processed(ItemLocator(todoId), Some(ItemLocator(todoId)))
      && ExitedCount(o.trace) == 0
      && (o.store[chatId] == ItemLocator(todoId) <==> w.todoExists(todoId))
      && (o.store[chatId] == StartLocator <==> !w.todoExists(todoId))
  {
    var u := Update(chatId, None, Some(CallbackQuery("edit", messageId)));
    var item := ItemLocator(todoId);
    var b := BotBehaviour(w);
    EditTakesTransition(h, w, store, chatId, todoId, messageId);
    var o := Transition(BotMachine(h), b, store, u, item, item);
    StateMachineProperties.TransitionFacts(BotMachine(h), b, store, u, item, item);
    assert LocatorEq(item, item);
    if w.todoExists(todoId) {
      EditExistingItem(h, w, store, chatId, todoId, messageId);
    } else {
      EditVanishedItem(h, w, store, chatId, todoId, messageId);
    }
  }

  /** `edit` returns the item's own locator, so the machine runs the
      transition from the item to itself. */
  lemma EditTakesTransition(h: Repo.Handle, w: World, store: Repo.Store, chatId: int, todoId: int, messageId: int)
    requires chatId in store && store[chatId] == ItemLocator(todoId)
    ensures var u := Update(chatId, None, Some(CallbackQuery("edit", messageId)));
      Process(BotMachine(h), BotBehaviour(w), store, u)
      == Transition(BotMachine(h), BotBehaviour(w), store, u, ItemLocator(todoId), ItemLocator(todoId))
  {
    var u := Update(chatId, None, Some(CallbackQuery("edit", messageId)));
    var item := ItemLocator(todoId);
    BotStatesRestore(w, chatId, todoId, "");
    var ri := RestoreState(BotRouter, item, chatId, BotBehaviour(w).accepts);
    assert ProcessHook(w, ri.value, u) == Returned(Some(item));
    BotTakesTransition(h, w, store, u, item);
  }

  /** `edit` on an existing item re-enters its screen. The same locator stays
      stored whether or not the screen's message is delivered: delivered, the
      update completes; undelivered, `enter_state` raises before any save. */
  lemma EditExistingItem(h: Repo.Handle, w: World, store: Repo.Store, chatId: int, todoId: int, messageId: int)
    requires chatId in store && store[chatId] == ItemLocator(todoId)
    requires w.todoExists(todoId)
    ensures var u := Update(chatId, None, Some(CallbackQuery("edit", messageId)));
      var o := Process(BotMachine(h), BotBehaviour(w), store, u);
      && o.store == store
      && (o.status.Completed? <==> w.delivered(ShowTodoState))
      && (w.delivered(ShowTodoState) ==>
            o == Outcome(store,
                         [Processed(ItemLocator(todoId), Some(ItemLocator(todoId))),
                          Entered(ItemLocator(todoId), None), Saved(ItemLocator(todoId))],
                         Completed))
      && (!w.delivered(ShowTodoState) ==>
            o == Outcome(store, [Processed(ItemLocator(todoId), Some(ItemLocator(todoId)))],
                         Raised(HookFault(InEnter, ItemLocator(todoId)))))
  {
    var m := BotMachine(h);
    var b := BotBehaviour(w);
    var u := Update(chatId, None, Some(CallbackQuery("edit", messageId)));
    var item := ItemLocator(todoId);
    EditTakesTransition(h, w, store, chatId, todoId, messageId);
    BotStatesRestore(w, chatId, todoId, "");
    var ri := RestoreState(m.router, item, chatId, b.accepts);
    assert LocatorEq(item, item);
    assert Departure(item, item) == [Processed(item, Some(item))];
    if w.delivered(ShowTodoState) {
      assert b.enter(ri.value, u) == Returned(None);
      ChainOfOne(m, b, store, chatId, u, item, item);
      assert store[chatId := item] == store;
    } else {
      assert b.enter(ri.value, u) == Threw;
      StateMachineProperties.RaisingEnterKeepsLocator(m, b, store, u, item, item);
    }
  }

  /** On an item's screen, "edit" returns the same locator, so the screen is
      entered again without an exit; if the item is gone, that entry chains on
      to the list. When the list's message is delivered the list is what ends
      up stored; when it is not, the list's `enter_state` raises and the item's
      locator, saved just before, stays stored. */
  lemma EditVanishedItem(h: Repo.Handle, w: World, store: Repo.Store, chatId: int,
                         todoId: int, messageId: int)
    requires chatId in store && store[chatId] == ItemLocator(todoId)
    requires !w.todoExists(todoId)
    ensures var u := Update(chatId, None, Some(CallbackQuery("edit", messageId)));
      var o := Process(BotMachine(h), BotBehaviour(w), store, u);
      && (o.status.Completed? <==> w.delivered(StartState))
      && (w.delivered(StartState) ==>
            o == Outcome(store[chatId := StartLocator],
                         [Processed(ItemLocator(todoId), Some(ItemLocator(todoId))),
                          Entered(ItemLocator(todoId), Some(StartLocator)), Saved(ItemLocator(todoId)),
                          Entered(StartLocator, None), Saved(StartLocator)],
                         Completed))
      && (!w.delivered(StartState) ==>
            o == Outcome(store,
                         [Processed(ItemLocator(todoId), Some(ItemLocator(todoId))),
                          Entered(ItemLocator(todoId), Some(StartLocator)), Saved(ItemLocator(todoId))],
                         Raised(HookFault(InEnter, StartLocator))))
  {
    var m := BotMachine(h);
    var b := BotBehaviour(w);
    var u := Update(chatId, None, Some(CallbackQuery("edit", messageId)));
    var item := ItemLocator(todoId);
    EditTakesTransition(h, w, store, chatId, todoId, messageId);
    VanishedItemChain(h, w, store, chatId, todoId, messageId);
    var c := Chain(m, b, store, chatId, u, Some(item), MaxStatesChainLen, item);
    assert LocatorEq(item, item);
    assert Departure(item, item) == [Processed(item, Some(item))];
    assert Transition(m, b, store, u, item, item) == Outcome(c.store, [Processed(item, Some(item))] + c.trace, c.status);
    assert store[chatId := item] == store;
  }

  /** The chain after `edit` on a vanished item: the item's screen, then the
      list, whose `enter_state` raises when its message is not delivered. */
  lemma VanishedItemChain(h: Repo.Handle, w: World, store: Repo.Store, chatId: int, todoId: int, messageId: int)
    requires !w.todoExists(todoId)
    ensures var u := Update(chatId, None, Some(CallbackQuery("edit", messageId)));
      var item := ItemLocator(todoId);
      var c := Chain(BotMachine(h), BotBehaviour(w), store, chatId, u, Some(item), MaxStatesChainLen, item);
      && (w.delivered(StartState) ==>
            c == Outcome(store[chatId := StartLocator],
                         [Entered(item, Some(StartLocator)), Saved(item), Entered(StartLocator, None), Saved(StartLocator)],
                         Completed))
      && (!w.delivered(StartState) ==>
            c == Outcome(store[chatId := item], [Entered(item, Some(StartLocator)), Saved(item)],
                         Raised(HookFault(InEnter, StartLocator))))
  {
    var m := BotMachine(h);
    var b := BotBehaviour(w);
    var u := Update(chatId, None, Some(CallbackQuery("edit", messageId)));
    var item := ItemLocator(todoId);
    BotStatesRestore(w, chatId, todoId, "");
    var ri := RestoreState(m.router, item, chatId, b.accepts);
    assert b.enter(ri.value, u) == Returned(Some(StartLocator));
    EnterList(h, w, store[chatId := item], chatId, u);
    if w.delivered(StartState) {
      ChainOfTwo(m, b, store, chatId, u, item, StartLocator, item);
    } else {
      var s1 := store[chatId := item];
      assert Chain(m, b, s1, chatId, u, Some(StartLocator), MaxStatesChainLen - 1, item)
          == Outcome(s1, [], Raised(HookFault(InEnter, StartLocator)));
      assert [Entered(item, Some(StartLocator)), Saved(item)] + [] == [Entered(item, Some(StartLocator)), Saved(item)];
    }
  }
}
