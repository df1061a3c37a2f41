/** The to-do bot's states (src/bot/states.py) as pure routing functions,
    plus the router and hooks that plug them into the state machine. Database
    calls (`Todo.*`) are effect values or an oracle. */
module BotStates {

  import opened Base
  import opened Text
  import opened Locators
  import opened Router
  import opened Telegram
  import opened StateMachine
  import opened StateClasses
  import Repo = LocatorsRepository

  const StartName: string := "/"
  const AddTitleName: string := "/add_todo/title/"
  const AddContentName: string := "/add_todo/content/"
  const ShowTodoName: string := "/todo/edit/"

  /** Titles are stored cut to this many characters. */
  const MaxTitleLength: nat := 30

  /** The marker of a page-turn button's callback data. */
  const PageMarker: string := "page#"

  /** `start_state_locator = Locator('/')`. */
  const StartLocator: Locator := Locator(StartName, map[])

  datatype StateKind = StartState | AddTodoTitleState | AddTodoContentState | ShowTodoState

  /** The `@router.register(...)` decorators, in file order. */
  const Registrations: seq<(string, StateKind)> := [
    (StartName, StartState),
    (AddTitleName, AddTodoTitleState),
    (AddContentName, AddTodoContentState),
    (ShowTodoName, ShowTodoState)
  ]

  const BotRouter: StateRouter<StateKind> := map[
    StartName := StartState,
    AddTitleName := AddTodoTitleState,
    AddContentName := AddTodoContentState,
    ShowTodoName := ShowTodoState
  ]

  /** The four registrations have distinct names, so building the router does
      not raise, and it maps each name to its class. */
  lemma BotRouterBuilds()
    ensures RegisterAll(map[], Registrations) == Success(BotRouter)
  {
    RegisterAllSucceedsIffDistinct(map[], Registrations);
    assert DistinctNames(Registrations);
    assert Names(Registrations) == BotRouter.Keys by {
      assert Registrations[0].0 == StartName;
      assert Registrations[1].0 == AddTitleName;
      assert Registrations[2].0 == AddContentName;
      assert Registrations[3].0 == ShowTodoName;
    }
    var out := RegisterAll(map[], Registrations).value;
    assert out[Registrations[0].0] == StartState;
    assert out[Registrations[1].0] == AddTodoTitleState;
    assert out[Registrations[2].0] == AddTodoContentState;
    assert out[Registrations[3].0] == ShowTodoState;
    assert out == BotRouter;
  }

  /** The database writes a handler asks for. */
  datatype TodoEffect =
    | CreateTodo(userId: int, title: string, content: Option<string>)
    | MarkTodoDone(todoId: int)
    | DeleteTodo(todoId: int)

  /** The `todos` table declares `content` as a non-null string
      (src/bot/repositories/models.py:24): the database refuses an item
      without content, so its commit raises and nothing is stored. */
  predicate Rejected(e: TodoEffect) {
    e.CreateTodo? && e.content.None?
  }

  /** A handler's database writes and the locator it returns. */
  datatype Reaction = Reaction(effects: seq<TodoEffect>, next: Option<Locator>)

  // ---------------------------------------------------------------------------
  // StartState.process

  /** The page asked for by page-turn data: the text after the last `#` when it
      is all digits, else 1. */
  function PageNumber(data: string): (r: int)
    requires Contains(data, PageMarker)
    ensures r >= 0
    ensures forall j :: 0 <= j < |data| && data[j] == '#' && (forall k :: j < k < |data| ==> data[k] != '#') ==>
      r == if IsDigits(data[j + 1..]) then DigitsValue(data[j + 1..]) else 1
  {
    ContainsCarriesChar(data, PageMarker, 4);
    RSplitOnceJoin(data, '#');
    var parts := RSplitOnce(data, '#');
    var suffix := parts[1];
    if IsDigits(suffix) then DigitsValue(suffix) else 1
  }

  /** The `match` on the callback data in `StartState.process`, cases in order. */
  function RouteStartButton(data: string, messageId: int): (r: Locator)
    ensures r.stateName == ShowTodoName <==> IsDigits(data)
    ensures r.stateName == AddTitleName <==> data == "add"
    ensures r.stateName in {StartName, AddTitleName, ShowTodoName}
    ensures IsDigits(data) ==> r == Locator(ShowTodoName, map["todo_id" := IntV(DigitsValue(data))])
  {
    DigitDataIsNoOtherButton(data);
    if data == "add" then Locator(AddTitleName, map[])
    else if data == "show_done" then Locator(StartName, map["show_done" := BoolV(true)])
    else if data == "show_active" then Locator(StartName, map[])
    else if Contains(data, PageMarker) then
      Locator(StartName, map["edit_message_id" := IntV(messageId), "page_number" := IntV(PageNumber(data))])
    else if IsDigits(data) then Locator(ShowTodoName, map["todo_id" := IntV(DigitsValue(data))])
    else Locator(StartName, map["switch_page" := BoolV(true)])
  }

  /** Digit-only data is none of the named buttons and holds no page marker,
      so the order of the cases does not hide the item branch. */
  lemma DigitDataIsNoOtherButton(data: string)
    ensures IsDigits(data) ==> !Contains(data, PageMarker) && data != "add" && data != "show_done" && data != "show_active"
  {
    if IsDigits(data) {
      DigitsContainOnlyDigits(data, PageMarker);
      assert data[0] != 'a' && data[0] != 's';
    }
  }

  /** `StartState.process`: only button presses move the user. */
  function StartProcess(u: Update): (r: Option<Locator>)
    ensures r.None? <==> u.callback.None?
  {
    if u.callback.None? then None else Some(RouteStartButton(u.callback.value.data, u.callback.value.messageId))
  }

  /** The three fixed buttons of the list screen. */
  lemma StartFixedButtons(messageId: int)
    ensures RouteStartButton("add", messageId) == Locator(AddTitleName, map[])
    ensures RouteStartButton("show_done", messageId) == Locator(StartName, map["show_done" := BoolV(true)])
    ensures RouteStartButton("show_active", messageId) == Locator(StartName, map[])
  {
  }

  /** Any data holding `page#`, cut at its last `#`: the list is redrawn in the
      pressed message, on the page the text after that `#` names when it is
      all digits, and on page 1 otherwise. */
  lemma PageButtonRoute(prefix: string, suffix: string, messageId: int)
    requires forall j :: 0 <= j < |suffix| ==> suffix[j] != '#'
    requires Contains(prefix + "#" + suffix, PageMarker)
    ensures RouteStartButton(prefix + "#" + suffix, messageId)
         == Locator(StartName, map["edit_message_id" := IntV(messageId),
                                   "page_number" := IntV(if IsDigits(suffix) then DigitsValue(suffix) else 1)])
  {
    var data := prefix + "#" + suffix;
    assert data == prefix + ['#'] + suffix;
    assert data[|prefix|] == '#';
    assert data != "add" && data != "show_done" && data != "show_active" by {
      assert forall j :: 0 <= j < |"add"| ==> "add"[j] != '#';
      assert forall j :: 0 <= j < |"show_done"| ==> "show_done"[j] != '#';
      assert forall j :: 0 <= j < |"show_active"| ==> "show_active"[j] != '#';
    }
    RSplitAtLast(prefix, '#', suffix);
  }

  /** A page-turn button `page#N` re-renders the list in place, on page N. */
  lemma PageButtonRoundTrip(n: nat, messageId: int)
    ensures RouteStartButton(PageMarker + ShowNat(n), messageId)
         == Locator(StartName, map["edit_message_id" := IntV(messageId), "page_number" := IntV(n)])
  {
    var data := PageMarker + ShowNat(n);
    HashOnlyAfterMarker(n);
    assert data == "page" + "#" + ShowNat(n);
    assert Contains(data, PageMarker) by { assert StartsWith(data, PageMarker); }
    PageButtonRoute("page", ShowNat(n), messageId);
    ShowNatRoundTrip(n);
  }

  /** A decimal numeral holds no `#`. */
  lemma HashOnlyAfterMarker(n: nat)
    ensures forall j :: 0 <= j < |ShowNat(n)| ==> ShowNat(n)[j] != '#'
  {
  }

  /** Page-turn data whose text after the last `#` is not a number, such as
      `page#2#x`, opens page 1. */
  lemma PageButtonNotANumber(prefix: string, suffix: string, messageId: int)
    requires forall j :: 0 <= j < |suffix| ==> suffix[j] != '#'
    requires Contains(prefix + "#" + suffix, PageMarker)
    requires !IsDigits(suffix)
    ensures RouteStartButton(prefix + "#" + suffix, messageId)
         == Locator(StartName, map["edit_message_id" := IntV(messageId), "page_number" := IntV(1)])
  {
    PageButtonRoute(prefix, suffix, messageId);
  }

  /** The case `page#2#x`: the page is taken after the last `#` only. */
  lemma PageAfterLastHash(messageId: int)
    ensures RouteStartButton("page#2#x", messageId)
         == Locator(StartName, map["edit_message_id" := IntV(messageId), "page_number" := IntV(1)])
  {
    assert "page#2#x" == "page#2" + "#" + "x";
    assert Contains("page#2#x", PageMarker) by { assert StartsWith("page#2#x", PageMarker); }
    assert !IsDigit("x"[0]);
    PageButtonNotANumber("page#2", "x", messageId);
  }

  /** A button whose data is a number opens that to-do item: the list's item
      buttons carry `str(todo.id)`, which routes back to the same id. */
  lemma ItemButtonRoundTrip(todoId: nat, messageId: int)
    ensures RouteStartButton(ShowNat(todoId), messageId) == Locator(ShowTodoName, map["todo_id" := IntV(todoId)])
  {
    var data := ShowNat(todoId);
    DigitsContainOnlyDigits(data, PageMarker);
    assert data[0] != 'a' && data[0] != 's';
    ShowNatRoundTrip(todoId);
  }

  /** Leading zeros do not matter: `007` opens item 7, like `7`. */
  lemma LeadingZerosOpenSameItem(messageId: int)
    ensures RouteStartButton("007", messageId) == Locator(ShowTodoName, map["todo_id" := IntV(7)])
    ensures RouteStartButton("007", messageId) == RouteStartButton("7", messageId)
  {
    assert IsDigits("007") && IsDigits("7");
    assert DigitsValue("007") == 7 by {
      assert "007"[..2] == "00" && "00"[..1] == "0";
    }
    assert DigitsValue("7") == 7;
  }

  /** Data that is none of the above asks the list to switch page. */
  lemma StartUnknownButton(data: string, messageId: int)
    requires data != "add" && data != "show_done" && data != "show_active"
    requires !Contains(data, PageMarker) && !IsDigits(data)
    ensures RouteStartButton(data, messageId) == Locator(StartName, map["switch_page" := BoolV(true)])
  {
  }

  // ---------------------------------------------------------------------------
  // Adding a to-do item

  /** `AddTodoTitleState.handle_text_message`: the text, as sent, becomes the
      title parameter of the next state. */
  function AddTodoTitleText(text: Option<string>): (r: Locator)
    ensures r.stateName == AddContentName && r.params.Keys == {"title"}
    ensures text.Some? ==> r.params["title"] == StrV(text.value)
    ensures text.None? ==> r.params["title"] == NoneV
  {
    Locator(AddContentName, map["title" := if text.Some? then StrV(text.value) else NoneV])
  }

  /** The stored title: at most `MaxTitleLength` characters, cut from the front. */
  function TruncateTitle(title: string): (r: string)
    ensures |r| == if |title| > MaxTitleLength then MaxTitleLength else |title|
    ensures r <= title
  {
    if |title| > MaxTitleLength then title[..MaxTitleLength] else title
  }

  /** Truncation only changes titles longer than the limit, and is idempotent. */
  lemma TruncateTitleProperties(title: string)
    ensures |title| <= MaxTitleLength ==> TruncateTitle(title) == title
    ensures TruncateTitle(TruncateTitle(title)) == TruncateTitle(title)
  {
  }

  /** `AddTodoContentState.handle_text_message`: create the item from the
      (truncated) title and the text, then go back to the list. */
  function AddTodoContentText(chatId: int, title: string, text: Option<string>): (r: Reaction)
    ensures r.next == Some(StartLocator)
    ensures |r.effects| == 1 && r.effects[0].CreateTodo?
    ensures r.effects[0].userId == chatId && r.effects[0].content == text
    ensures r.effects[0].title == TruncateTitle(title)
  {
    Reaction([CreateTodo(chatId, TruncateTitle(title), text)], Some(StartLocator))
  }

  // ---------------------------------------------------------------------------
  // Showing one to-do item

  /** `ShowTodoState.enter_state`: a missing item sends the user back to the
      list; an existing one is shown with `send_text_message`, which raises
      when the message is not delivered. */
  function ShowTodoEnter(todoExists: bool, delivered: bool): (r: Call)
    ensures r == Returned(Some(StartLocator)) <==> !todoExists
    ensures r == Returned(None) <==> todoExists && delivered
    ensures r.Threw? <==> todoExists && !delivered
  {
    if !todoExists then Returned(Some(StartLocator))
    else if delivered then Returned(None)
    else Threw
  }

  /** `ShowTodoState.handle_inline_buttons`. */
  function ShowTodoButtons(todoId: int, data: string): (r: Reaction)
    ensures data in {"done", "delete", "back"} ==> r.next == Some(StartLocator)
    ensures data == "edit" ==> r.next == Some(Locator(ShowTodoName, map["todo_id" := IntV(todoId)]))
    ensures data !in {"done", "edit", "delete", "back"} ==> r == Reaction([], None)
    ensures data == "done" <==> r.effects == [MarkTodoDone(todoId)]
    ensures data == "delete" <==> r.effects == [DeleteTodo(todoId)]
  {
    if data == "done" then Reaction([MarkTodoDone(todoId)], Some(StartLocator))
    else if data == "edit" then Reaction([], Some(Locator(ShowTodoName, map["todo_id" := IntV(todoId)])))
    else if data == "delete" then Reaction([DeleteTodo(todoId)], Some(StartLocator))
    else if data == "back" then Reaction([], Some(StartLocator))
    else Reaction([], None)
  }

  // ---------------------------------------------------------------------------
  // Wiring the states into the machine

  predicate OptionalInt(fields: Params, key: string) {
    key !in fields || fields[key].IntV?
  }

  /** Pydantic validation of each state's fields (exact types; `chat_id` always
      an int). Unknown parameters such as `switch_page` are ignored. */
  predicate Accepts(kind: StateKind, fields: Params) {
    && ChatIdField in fields && fields[ChatIdField].IntV?
    && match kind
       case StartState =>
         && OptionalInt(fields, "page_number")
         && ("show_done" !in fields || fields["show_done"].BoolV?)
         && ("edit_message_id" !in fields || fields["edit_message_id"].IntV? || fields["edit_message_id"].NoneV?)
       case AddTodoTitleState => true
       case AddTodoContentState => "title" in fields && fields["title"].StrV?
       case ShowTodoState => "todo_id" in fields && fields["todo_id"].IntV?
  }

  /** A validated field (the fallbacks are never used for accepted fields). */
  function IntField(fields: Params, key: string): int {
    if key in fields && fields[key].IntV? then fields[key].i else 0
  }

  function StrField(fields: Params, key: string): string {
    if key in fields && fields[key].StrV? then fields[key].s else ""
  }

  /** The outside world the states consult: which to-do items exist
      (`Todo.get_by_id`), and whether the messages each state class sends
      reach Telegram (`send_text_message` raises when they do not). */
  datatype World = World(todoExists: int -> bool, delivered: StateKind -> bool)

  /** `if self.edit_message_id:`: the list is redrawn in an existing message
      when the field holds a non-zero id. */
  predicate EditsInPlace(fields: Params) {
    "edit_message_id" in fields && fields["edit_message_id"].IntV? && fields["edit_message_id"].i != 0
  }

  /** `StartState.enter_state`: the list never chains onward. Redrawn in place
      it goes through `edit_inline_keyboard`, which swallows status errors;
      sent anew it raises when the message is not delivered. */
  function StartEnter(fields: Params, delivered: bool): (r: Call)
    ensures r.Returned? ==> r.next.None?
    ensures r.Threw? <==> !EditsInPlace(fields) && !delivered
  {
    if EditsInPlace(fields) || delivered then Returned(None) else Threw
  }

  /** Each class's `enter_state`. */
  function EnterHook(w: World, state: Instance<StateKind>): (r: Call)
    ensures r.Returned? && r.next.Some? ==> state.cls == ShowTodoState && r.next.value == StartLocator
  {
    match state.cls
    case StartState => StartEnter(state.fields, w.delivered(StartState))
    case ShowTodoState => ShowTodoEnter(w.todoExists(IntField(state.fields, "todo_id")), w.delivered(ShowTodoState))
    case _ => if w.delivered(state.cls) then Returned(None) else Threw
  }

  /** The database writes a state's `process` carries out, whether it then
      returns or raises: the content step's new item, unless the database
      refuses it, and the item screen's mark-done or delete. */
  function ProcessEffects(state: Instance<StateKind>, u: Update): (r: seq<TodoEffect>)
    ensures |r| <= 1 && forall i :: 0 <= i < |r| ==> !Rejected(r[i])
    ensures state.cls == StartState || state.cls == AddTodoTitleState ==> r == []
    ensures state.cls == AddTodoContentState && u.callback.None? && u.message.Some? ==>
      (r == [] <==> u.message.value.text.None?)
  {
    match state.cls
    case AddTodoContentState =>
      if u.callback.None? && u.message.Some? then
        var e := AddTodoContentText(IntField(state.fields, ChatIdField), StrField(state.fields, "title"),
                                    u.message.value.text).effects[0];
        if Rejected(e) then [] else [e]
      else []
    case ShowTodoState =>
      if u.callback.Some? then ShowTodoButtons(IntField(state.fields, "todo_id"), u.callback.value.data).effects
      else []
    case _ => []
  }

  /** Each class's `process`. The content step's handler creates the item and
      then confirms with `send_text_message`, so it raises when the database
      refuses the item or the confirmation is not delivered. */
  function ProcessHook(w: World, state: Instance<StateKind>, u: Update): (r: Call)
    ensures r.Threw? <==> state.cls == AddTodoContentState && u.callback.None? && u.message.Some?
                          && (u.message.value.text.None? || !w.delivered(AddTodoContentState))
    ensures u.callback.None? && u.message.None? ==> r == Returned(None)
  {
    match state.cls
    case StartState => Returned(StartProcess(u))
    case AddTodoTitleState => Returned(ClassicProcess(u, NoButtonHandler, t => Some(AddTodoTitleText(t))))
    case AddTodoContentState =>
      var next := ClassicProcess(u, NoButtonHandler,
                                 t => AddTodoContentText(IntField(state.fields, ChatIdField), StrField(state.fields, "title"), t).next);
      if next.Some? && (ProcessEffects(state, u) == [] || !w.delivered(AddTodoContentState)) then Threw else Returned(next)
    case ShowTodoState =>
      Returned(ClassicProcess(u, d => ShowTodoButtons(IntField(state.fields, "todo_id"), d).next, NoTextHandler))
  }

  /** The bot's states as a machine behaviour; `exit_state` never raises
      (the keyboard-removing mixin is not part of this model). */
  function BotBehaviour(w: World): (r: Behaviour<StateKind>)
    ensures forall s, u :: !r.exitRaises(s, u)
    ensures forall k, f :: r.accepts(k, f) == Accepts(k, f)
  {
    Behaviour((k, f) => Accepts(k, f), (s, u) => EnterHook(w, s), (s, u) => false, (s, u) => ProcessHook(w, s, u))
  }

  /** The bot's machine: `/start` always leads to the list. */
  function BotMachine(repository: Repo.Handle): (r: Machine<StateKind>)
    ensures forall u :: CommandLocator(r, u).Some? <==> u.message.Some? && u.message.value.text == Some("/start")
    ensures forall u :: CommandLocator(r, u).Some? ==> CommandLocator(r, u).value == r.start == StartLocator
  {
    Machine(BotRouter, repository, StartLocator, map["/start" := StartLocator])
  }

  /** The database writes of one update: only the current state's `process`
      writes, so a command, a first contact or a locator that does not
      rebuild writes nothing. */
  function UpdateEffects(h: Repo.Handle, w: World, store: Repo.Store, u: Update): (r: seq<TodoEffect>)
    ensures r != [] ==> CommandLocator(BotMachine(h), u).None? && u.chatId in store
  {
    if CommandLocator(BotMachine(h), u).Some? || u.chatId !in store then []
    else match RestoreState(BotRouter, store[u.chatId], u.chatId, BotBehaviour(w).accepts)
      case Failure(_) => []
      case Success(state) => ProcessEffects(state, u)
  }

  /** Every locator a bot hook hands the machine names a registered state whose
      fields validate, except the content step reached by a message without
      text, whose `title` is None. */
  lemma HookTargetsRestore(w: World, state: Instance<StateKind>, u: Update, chatId: int)
    ensures var r := ProcessHook(w, state, u);
      r.Returned? && r.next.Some? && r.next.value != Locator(AddContentName, map["title" := NoneV]) ==>
        RestoreState(BotRouter, r.next.value, chatId, BotBehaviour(w).accepts).Success?
    ensures var r := EnterHook(w, state);
      r.Returned? && r.next.Some? ==> RestoreState(BotRouter, r.next.value, chatId, BotBehaviour(w).accepts).Success?
  {
    var accepts := BotBehaviour(w).accepts;
    StartRestores(w, map[], chatId);
    match state.cls
    case StartState =>
      if u.callback.Some? {
        RouteTargetsRestore(w, u.callback.value.data, u.callback.value.messageId, chatId);
      }
    case AddTodoTitleState =>
      if u.callback.None? && u.message.Some? && u.message.value.text.Some? {
        var l := AddTodoTitleText(u.message.value.text);
        assert Accepts(AddTodoContentState, Merge(l.params, map[ChatIdField := IntV(chatId)]));
      }
    case AddTodoContentState =>
    case ShowTodoState =>
      if u.callback.Some? && u.callback.value.data == "edit" {
        var id := IntField(state.fields, "todo_id");
        assert Accepts(ShowTodoState, Merge(map["todo_id" := IntV(id)], map[ChatIdField := IntV(chatId)]));
      }
  }

  /** The parameters the list screen's own locators carry (`show_done`, the
      page turn's `edit_message_id` and `page_number`, `switch_page`). */
  predicate ListParams(params: Params) {
    && params.Keys <= {"show_done", "edit_message_id", "page_number", "switch_page"}
    && ("show_done" in params ==> params["show_done"].BoolV?)
    && ("edit_message_id" in params ==> params["edit_message_id"].IntV?)
    && ("page_number" in params ==> params["page_number"].IntV?)
  }

  /** The list screen rebuilds from any parameters it produces itself. */
  lemma StartRestores(w: World, params: Params, chatId: int)
    requires ListParams(params)
    ensures var r := RestoreState(BotRouter, Locator(StartName, params), chatId, BotBehaviour(w).accepts);
      r.Success? && r.value.cls == StartState
  {
    assert Accepts(StartState, Merge(params, map[ChatIdField := IntV(chatId)]));
  }

  /** Every locator the list screen's buttons lead to rebuilds. */
  lemma RouteTargetsRestore(w: World, data: string, messageId: int, chatId: int)
    ensures RestoreState(BotRouter, RouteStartButton(data, messageId), chatId, BotBehaviour(w).accepts).Success?
  {
    var l := RouteStartButton(data, messageId);
    if l.stateName == StartName {
      StartRestores(w, l.params, chatId);
    } else if l.stateName == AddTitleName {
      assert Accepts(AddTodoTitleState, Merge(l.params, map[ChatIdField := IntV(chatId)]));
    } else {
      assert Accepts(ShowTodoState, Merge(l.params, map[ChatIdField := IntV(chatId)]));
    }
  }
}
