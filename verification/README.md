# Locator-addressed state machine of a Telegram to-do bot, in Dafny

This project models the dialogue core of a Telegram to-do bot. Every user sits
in a dialogue *state* addressed by a `Locator` (a state name plus a parameter
bag). A `StateRouter` maps names to state classes. `StateMachine.process`
handles one inbound update as follows:

- a command from the command table wins;
- a user with no stored locator is sent to the start state;
- otherwise the current state's `process` hook picks the next locator, the old
  state's `exit_state` runs when the locators differ, and `enter_state` hooks
  are chained up to `MAX_STATES_CHAIN_LEN` (10) times.

The model also covers:

- the per-user locator and session repositories;
- the bot's concrete routing rules (list screen, add-item dialogue, item screen);
- the keyboard builders used to render screens.

Everything is pure.

- State hooks are functions in a `Behaviour` value. Each call either returns
  (possibly a next locator) or raises (`Call`).
- The locator repository is a `map`.
- `Process` returns the new repository, an event `trace`, and a status. The
  trace lists the `process`, `exit_state` and `enter_state` calls with what
  they returned, plus the repository writes, in order. The status says whether
  the update ended normally, at the chain ceiling, or by an exception. An
  exception is a routing or validation error, or a hook that raised, named by
  its stage and locator.

Modules follow the source files:

| module | source |
|---|---|
| `Locators`, `Router` | `Locator` and `StateRouter` |
| `StateMachine`, `StateMachineProperties` | `StateMachine.process` and `switch_state` |
| `LocatorsRepository` | the class-level locator map |
| `Sessions` | `MemorySessionRepository` |
| `StateClasses` | `ClassicState` |
| `BotStates`, `BotScenarios` | the bot's states and whole-update runs of the bot |
| `Shortcuts` | the core Telegram shortcuts |
| `Helpers` | the bot's keyboard helper |
| `Text` | the Python string operations the routing uses |
| `Telegram` | the Bot API types |
| `Base` | `Option` and `Result` |

The model keeps these behaviours of the code exactly as written:

- The locator is saved only after `enter_state` has returned. An
  `enter_state` that raises leaves the user's stored locator as it was.
- `exit_state` runs when the locators differ under Python `==` (name and
  parameters), not only when the names differ.
- At the chain ceiling the locator the user had before the update is saved
  again, rather than the last entered one.
- The session history keeps its oldest entries (see Findings).
- An unregistered name or a rejected parameter raises out of `process`
  (`Raised` status) after any writes already made.

## Model

| member | source | states |
|---|---|---|
| `Router.Register` | src/core/state_machine/state_machine.py:54-57 | a name already in the router is refused with `AlreadyRegistered` and never overwritten; otherwise the name is added and every old entry kept |
| `Router.RegisterAllSucceedsIffDistinct` | src/core/state_machine/state_machine.py:35-40 | a run of `register` decorators succeeds iff its names are pairwise distinct and new, and then maps each name to its own class |
| `Router.Lookup` | src/core/state_machine/state_machine.py:59-63 | looking up a name succeeds iff it is registered; an unknown name raises `NotRegistered` |
| `Router.CreateByMergingKeys` | src/core/state_machine/state_machine.py:47-52 | the merged router holds exactly the names of the merged routers, and merging never raises, even on shared names |
| `Router.CreateByMergingLastWins` | src/core/state_machine/state_machine.py:47-52 | a shared name is bound to the class of the last router that has it |
| `Router.RestoreState` | src/core/state_machine/state_machine.py:42-45 | a built state has the class registered under the locator's name and exactly the given `chat_id`, even when the parameters carry their own `chat_id`; other parameters are kept; unknown names and rejected fields are errors |
| `Locators.LocatorEq` | src/core/state_machine/state_machine.py:12-14 | equal locators share the state name and the parameter keys, and identical locators are equal |
| `Locators.Merge` | src/core/state_machine/state_machine.py:44 | the dict union `restore_state` builds its fields with: the union of keys, with the right-hand side winning on shared keys |
| `Locators.LocatorEqProperties` | src/core/state_machine/state_machine.py:12-14 | locator equality is an equivalence implied by identity; different names or parameter keys make locators unequal |
| `Locators.LocatorEqStructural` | src/core/state_machine/state_machine.py:12-14 | without boolean parameters, locator equality is structural equality |
| `StateMachine.SwitchState` | src/core/state_machine/state_machine.py:121-127 | `switch_state` calls `enter_state` first, then saves exactly the target locator, and returns what `enter_state` returned; a failed restore raises before any of that, and an `enter_state` that raises does so before the save |
| `StateMachine.Chain` | src/core/state_machine/state_machine.py:112-119 | the loop is cut at the ceiling only while a locator is still pending, and then the user's stored locator is the one from before the update, with other users untouched |
| `StateMachine.Process` | src/core/state_machine/state_machine.py:87-119 | the chain ceiling can only be reached on the stored-locator path (no command, a known user), and leaves the repository as it was |
| `StateMachine.ProcessCurrent` | src/core/state_machine/state_machine.py:102-119 | a raise in `process` or `exit_state` names the current locator and writes nothing; an update that records no call at all raised and wrote nothing |
| `StateMachine.Transition` | src/core/state_machine/state_machine.py:109-119 | the transition's record starts with the `process` call that chose `next`, and the only hook that can raise inside it is an `enter_state` |
| `StateMachineProperties.SingleSwitchPaths` | src/core/state_machine/state_machine.py:90-101 | a command, or a user with no stored locator, gets exactly one enter and save of the command's (or start) locator, with no `process` or `exit_state` call and the chained locator dropped; the update raises exactly when the target cannot be built or its `enter_state` raises, and then nothing is written |
| `StateMachineProperties.NoTransition` | src/core/state_machine/state_machine.py:103-107 | when `process` returns None, nothing but that call happens and the repository is unchanged |
| `StateMachineProperties.ExitIffUnequal` | src/core/state_machine/state_machine.py:109-110 | `exit_state` runs exactly when the next locator differs from the current one by name or by parameters, right after `process` and before any enter |
| `StateMachineProperties.TransitionFacts` | src/core/state_machine/state_machine.py:109-119 | the transition path: exit iff unequal, saves right after enters, at most 10 enters and fewer when an `enter_state` raised (so never more than 10 `switch_state` calls), and at the ceiling a final re-save of the current locator |
| `StateMachineProperties.TransitionLog` | src/core/state_machine/state_machine.py:109-119 | the transition's log order: `process` first, an exit iff the locators differ, each enter followed by its save, at most 10 enters, fewer than 10 when a `switch_state` raised, exactly 10 at the ceiling |
| `StateMachineProperties.TransitionReplays` | src/core/state_machine/state_machine.py:109-119 | the transition leaves the old repository with the log's saves applied, and at the ceiling the last save re-stores the current locator |
| `StateMachineProperties.ChainFacts` | src/core/state_machine/state_machine.py:112-119 | the chain loop's log is made of enter-then-save pairs, has at most as many enters as switches left and fewer when a `switch_state` raised, replays to the final repository, and at the ceiling ends by re-saving the pre-update locator |
| `StateMachineProperties.ChainCounted` | src/core/state_machine/state_machine.py:112-119 | the loop makes at most as many `switch_state` calls as it has switches left: a raised loop entered fewer states than that (the raising call leaves no enter), and a loop that reaches the ceiling used them all before the re-save |
| `StateMachineProperties.ProcessInvariants` | src/core/state_machine/state_machine.py:87-127 | for every update: each enter is immediately followed by the save of the same locator, exits precede enters, at most one exit, at most `MAX_STATES_CHAIN_LEN` enters and fewer when the update raised (so `switch_state` is never called more than `MAX_STATES_CHAIN_LEN` times), and the repository is the old one with the trace's writes applied |
| `StateMachineProperties.OtherUsersUntouched` | src/core/state_machine/state_machine.py:87-127 | handling one user's update never adds, removes or changes another user's locator |
| `StateMachineProperties.CeilingRestoresLocator` | src/core/state_machine/state_machine.py:112-119 | hitting the ceiling happens only after 10 enters, ends by saving the locator the user had before the update, and leaves the repository as it was |
| `StateMachineProperties.CompletedKeepsLastEntered` | src/core/state_machine/state_machine.py:112-127 | a transition that ends normally ends on a state whose `enter_state` returned None, and that state's locator is what is stored |
| `StateMachineProperties.EndlessChainIsCut` | src/core/state_machine/state_machine.py:112-119 | states that always chain onward (and never raise) still stop at the ceiling, with the repository unchanged |
| `StateMachineProperties.RaisingEnterKeepsLocator` | src/core/state_machine/state_machine.py:109-127 | when the first chained `enter_state` raises, the update raises naming that locator, no state is entered and the repository is unchanged, although `exit_state` may already have run |
| `LocatorsRepository.RestoreLocatorByUserId` | src/bot/repositories/locator.py:7-8 | an unsaved user has no locator; a saved one gets the stored locator |
| `LocatorsRepository.SaveUserLocator` | src/bot/repositories/locator.py:10-11 | a save stores the locator under the user and leaves every other user's entry as it was |
| `LocatorsRepository.SaveThenRestore` | src/bot/repositories/locator.py:7-11 | after a save, restore returns the saved locator, and other users read what they read before |
| `LocatorsRepository.SaveOverwrites` | src/bot/repositories/locator.py:10-11 | a later save for the same user replaces the earlier one |
| `LocatorsRepository.SharedAcrossInstances` | src/bot/repositories/locator.py:5 | a save through one repository instance is visible through any other |
| `Sessions.SaveThenGet` | src/bot/repositories/sessions.py:10-21 | after saving a user's locator, reading it back gives that locator |
| `Sessions.SaveUserLocator` | src/bot/repositories/sessions.py:10-18 | a save creates the user's record if needed and makes the saved locator current, keeping the bound and every other user |
| `Sessions.SaveUserHistory` | src/bot/repositories/sessions.py:23-27 | recording history adds no user, keeps the bound, leaves the current locator and every other user unchanged |
| `Sessions.GetLocatorByUserId` | src/bot/repositories/sessions.py:20-21 | None iff the user has no record, and otherwise the record's current locator |
| `Sessions.GetUserHistory` | src/bot/repositories/sessions.py:29-30 | an unknown user has an empty history, and in a bounded repository no history is longer than the bound |
| `Sessions.UnknownUser` | src/bot/repositories/sessions.py:20-30 | a user never saved has no locator and an empty history |
| `Sessions.FirstSaveHistory` | src/bot/repositories/sessions.py:10-18 | the first save starts the history as exactly the saved locator (empty if the bound is below 1) |
| `Sessions.PyPrefix` | src/bot/repositories/sessions.py:27 | the slice `[:n]` is a prefix of the list, of length `n` clamped to the list, counting from the end for negative `n` |
| `Sessions.DefaultRepository` | src/bot/repositories/sessions.py:6-8 | a repository built without arguments knows no user and bounds every history at 50 locators |
| `Sessions.SaveKeepsHistoryBounded` | src/bot/repositories/sessions.py:6-8 | a new repository is bounded and every save keeps each history within `max_history_length` |
| `Sessions.SaveKeepsOldest` | src/bot/repositories/sessions.py:23-27 | the old history is a prefix of the new one; below the bound the locator is appended; when full the history is unchanged while the current locator still moves |
| `Sessions.SaveHistoryUnknownUser` | src/bot/repositories/sessions.py:23-24 | recording history for an unknown user changes nothing |
| `Sessions.SaveIsolatesUsers` | src/bot/repositories/sessions.py:10-18 | a save for one user leaves every other user's locator and history unchanged |
| `Sessions.TruncationKeepsOldestCounterexample` | src/bot/repositories/sessions.py:26-27 | with a bound of 1, saving `b` after `a` keeps `[a]` as written, where eviction of the oldest keeps `[b]` |
| `Sessions.EvictingSaveKeepsNewest` | src/bot/repositories/sessions.py:26-27 | the corrected truncation keeps the bound, always ends with the newest locator, and drops the oldest entry of a full history |
| `StateClasses.ClassicProcess` | src/bot/state_classes.py:5-9 | a button press goes to the button handler; otherwise a message goes to the text handler; with neither there is no transition |
| `StateClasses.ButtonWinsOverText` | src/bot/state_classes.py:5-7 | with a button press present the text handler has no influence, even if a message is present too |
| `StateClasses.DefaultHandlersStay` | src/bot/state_classes.py:11-15 | a state that overrides neither handler never transitions |
| `BotStates.BotRouterBuilds` | src/bot/states.py:30-143 | the bot's four registrations do not clash and build the router mapping each screen's name to its class |
| `BotStates.StartProcess` | src/bot/states.py:75-77 | the list screen moves the user iff the update is a button press |
| `BotStates.PageNumber` | src/bot/states.py:87-94 | the page is read after the last `#`: that text's number when it is all digits, and 1 otherwise; it is never negative |
| `BotStates.RouteStartButton` | src/bot/states.py:79-99 | the list screen's data routes to the item screen iff it is all digits, and then to the item `int(data)`; to the add dialogue iff it is `add`; otherwise to the list |
| `BotStates.DigitDataIsNoOtherButton` | src/bot/states.py:86-97 | digit-only data is none of the fixed buttons and contains no `page#`, so testing `page#` first never hides the item branch |
| `BotStates.StartFixedButtons` | src/bot/states.py:80-85 | `add`, `show_done` and `show_active` lead to the add dialogue, the list with done items, and the plain list |
| `BotStates.PageButtonRoute` | src/bot/states.py:86-95 | any data holding `page#` is split at its last `#`; the list is redrawn in the pressed message on the page named after that `#` when it is all digits, and on page 1 otherwise |
| `BotStates.PageButtonRoundTrip` | src/bot/states.py:86-95 | `page#N` re-renders the list in the pressed message on page N |
| `BotStates.PageButtonNotANumber` | src/bot/states.py:86-95 | any data holding `page#` whose text after the last `#` is not all digits opens page 1 in the pressed message |
| `BotStates.PageAfterLastHash` | src/bot/states.py:90-94 | `page#2#x` opens page 1: only the text after the last `#` counts |
| `BotStates.ItemButtonRoundTrip` | src/bot/states.py:96-97 | data `str(id)` opens the item screen for that same `id` |
| `BotStates.LeadingZerosOpenSameItem` | src/bot/states.py:96-97 | data `007` opens item 7, the same screen as `7` |
| `BotStates.StartUnknownButton` | src/bot/states.py:98-99 | any other data leads to the list with `switch_page` set |
| `BotStates.AddTodoTitleText` | src/bot/states.py:111-112 | the title text is passed on unchanged as the `title` parameter of the content step |
| `BotStates.TruncateTitle` | src/bot/states.py:126-129 | the stored title is the prefix of length `min(30, len(title))` |
| `BotStates.TruncateTitleProperties` | src/bot/states.py:126-129 | short titles are kept as they are, and truncation is idempotent |
| `BotStates.AddTodoContentText` | src/bot/states.py:125-139 | the content step creates one item for the user with the truncated title and the message text, then returns to the list |
| `BotStates.ShowTodoEnter` | src/bot/states.py:146-170 | entering the item screen chains to the list iff the item does not exist; for an existing item it returns None iff its message is delivered, and raises otherwise |
| `BotStates.ShowTodoButtons` | src/bot/states.py:180-189 | `done`, `delete` and `back` return to the list, with mark-done or delete exactly for the first two; `edit` re-addresses the same item; anything else stays put with no effect |
| `BotStates.StartEnter` | src/bot/states.py:61-73 | the list never chains onward; it raises exactly when it is sent anew (no non-zero `edit_message_id`) and the message is not delivered, because the in-place edit swallows status errors |
| `BotStates.EnterHook` | src/bot/states.py:36-170 | of the bot's `enter_state` hooks only the item screen's chains onward, and then always to the list |
| `BotStates.ProcessHook` | src/bot/states.py:75-189 | of the bot's `process` hooks only the content step's can raise, exactly when a plain message reaches it and either has no text (the database refuses the item) or its confirmation is not delivered; an update with neither a message nor a button press moves nobody |
| `BotStates.ProcessEffects` | src/bot/states.py:125-189 | a `process` call writes at most one item change and never one the database refuses; the list and the title step write nothing; a plain message on the content step writes nothing iff it has no text |
| `BotStates.UpdateEffects` | src/core/state_machine/state_machine.py:90-104 | only the stored state's `process` writes to the database, so a command or a first contact writes nothing |
| `BotStates.BotBehaviour` | src/bot/states.py:30-143 | the bot's states as machine hooks: validation is the states' field rules and no `exit_state` raises |
| `BotStates.BotMachine` | src/bot/states.py:16-27 | `/start` is the only command, and it and first contact both lead to the list |
| `BotStates.HookTargetsRestore` | src/bot/states.py:30-189 | every locator a bot hook hands the machine names a registered state whose fields validate, except the content step reached by a message without text |
| `BotScenarios.BotStatesRestore` | src/bot/states.py:142-144 | the item screen and the list rebuild from their locators, the item screen with its `todo_id` |
| `BotScenarios.StartCommand` | src/core/state_machine/state_machine.py:90-94 | `/start` from any user enters the list once and stores the start locator; if the list's message is not delivered the update raises and nothing is stored |
| `BotScenarios.FirstContactSendFails` | src/core/state_machine/state_machine.py:96-127 | a first-time user whose greeting is not delivered stays unknown: the update raises in `enter_state` and nothing is stored |
| `BotScenarios.OpenItemFromList` | src/core/state_machine/state_machine.py:103-127 | pressing an existing item on the list, on any page or filter the list stores, exits the list, enters the item screen and, when its message is delivered, stores its locator, with no database write |
| `BotScenarios.TitleTextLeadsToContent` | src/bot/states.py:105-123 | on the title step a text `t` exits the step and enters the content step with `title = t`, which is stored iff its prompt is delivered; otherwise the update raises and the title step stays stored |
| `BotScenarios.NonTextTitleRaises` | src/bot/states.py:111-117 | on the title step a message without text exits the step, then fails validation of the content step, and the title step stays stored |
| `BotScenarios.ContentEffects` | src/bot/states.py:125-139 | a message on the content step creates exactly one item, for the chat, with the cut title and the text, and creates nothing when the message has no text |
| `BotScenarios.ContentTextEndsOnList` | src/bot/states.py:125-139 | with both messages delivered, a text on the content step ends with the list stored, via one exit and one enter; a message without text raises and the content step stays stored |
| `BotScenarios.ContentWithoutTextRaises` | src/bot/states.py:125-134 | a message without text on the content step asks for an item without content, which the database refuses: the update raises in `process`, creates nothing and leaves the content step stored |
| `BotScenarios.ContentConfirmationFails` | src/bot/states.py:130-138 | when the confirmation is not delivered the update raises in `process` after that same run created the item, and the content step stays stored, so sending the text again creates a second item |
| `BotScenarios.ItemButtonEffects` | src/bot/states.py:172-189 | a button press on an item's screen marks it done iff the data is `done`, deletes it iff it is `delete`, and writes nothing otherwise |
| `BotScenarios.ItemButtonsReturnToList` | src/bot/states.py:180-189 | on an item's screen `done`, `delete` and `back` exit the screen once and, when the list's message is delivered, end with the list stored |
| `BotScenarios.EditReentersItem` | src/bot/states.py:146-185 | on an item's screen `edit` re-enters it without an exit and, when the item's and the list's messages are delivered, ends with the item stored iff the item exists, and with the list stored iff it does not |
| `BotScenarios.EditExistingItem` | src/bot/states.py:146-185 | `edit` on an existing item re-enters its screen and the same locator stays stored; the update completes iff the screen's message is delivered, and otherwise raises in that `enter_state` |
| `BotScenarios.EditVanishedItem` | src/bot/states.py:146-185 | `edit` on a deleted item re-enters the same screen without an exit, which chains to the list; when the list's message is delivered the list is what is stored, and otherwise the list's `enter_state` raises and the item's locator stays stored |
| `BotScenarios.VanishedItemChain` | src/bot/states.py:144-147 | the loop after `edit` on a deleted item: the item's screen sends the user to the list, whose entry completes the loop when delivered and raises after the item's save when not |
| `Text.ContainsIffOccurs` | src/bot/states.py:86 | Python's `sub in s` holds iff `sub` occurs at some position of `s` |
| `Text.RSplitAtLast` | src/bot/states.py:90 | splitting at a `#` with no `#` after it gives exactly the text before and the text after |
| `Text.RSplitOnceJoin` | src/bot/states.py:90 | `rsplit('#', 1)` gives one part iff there is no `#`; two parts re-join to the string, and the right part holds no `#` |
| `Text.ShowNatRoundTrip` | src/bot/states.py:97 | `int(str(n)) == n` for non-negative `n` |
| `Shortcuts.GenerateInlineButtons` | src/core/tg_api/shortcuts.py:19-26 | one row per line; each row as long as its line; button `i` has the text and callback data of pair `i` |
| `Shortcuts.GenerateReplyButtons` | src/core/tg_api/shortcuts.py:29-36 | the same shape, each button carrying only the text of its pair |
| `Shortcuts.SelectReplyMarkup` | src/core/tg_api/shortcuts.py:51-57 | markup exists iff the keyboard has a first button; it is inline markup for an inline first button and reply markup for a reply one, with the grid unchanged |
| `Shortcuts.SendTextMessage` | src/core/tg_api/shortcuts.py:39-69 | the request carries the text, the chat and the selected markup |
| `Shortcuts.GeneratedKeyboardMarkup` | src/core/tg_api/shortcuts.py:51-57 | generated inline keyboards get inline markup and generated reply keyboards get reply markup; None, `[]` and `[[]]` get none |
| `Shortcuts.EditRequest` | src/core/tg_api/shortcuts.py:79-82 | with no keyboard the edit sends inline markup `[[]]`; otherwise the given keyboard unchanged |
| `Shortcuts.EditInlineKeyboard` | src/core/tg_api/shortcuts.py:72-96 | the edit yields a message exactly when its request is delivered, and never raises on a status error |
| `Shortcuts.EditInlineKeyboardOutcome` | src/core/tg_api/shortcuts.py:84-96 | the edit yields the message iff the request was delivered; every status error yields None whatever its text and whatever `ignore_exactly_the_same` says |
| `Helpers.InlineLine` | src/bot/helpers.py:9-12 | a line becomes a row of the same length whose button `i` carries pair `i` |
| `Helpers.GenerateInlineButtons` | src/bot/helpers.py:6-13 | one row per line, each the inline rendering of its line; no lines gives `[]` |
| `Helpers.InlineRenderingIsUnique` | src/bot/helpers.py:6-13 | the inline rendering of a list of lines is unique, so the bot's helper and the core shortcut build the same keyboard |

## Left out

- Telegram HTTP calls (`SendMessageRequest.send`, `EditMessageReplyMarkupRequest.send`) are network I/O. A send is modelled as the request value it builds. An edit's answer is the `send` parameter of `Shortcuts.EditInlineKeyboard`. Exceptions other than `TgHttpStatusError` are not modelled.
- Shortcuts.SelectReplyMarkup: the reply branch passes the grid under the keyword `inline_keyboard` (src/core/tg_api/shortcuts.py:55). The markup classes are not part of this model, so the grid is assumed to become the reply keyboard. It may not if those classes reject or drop that keyword.
- `send_text_message`'s pass-through options (`parse_mode`, `entities` and the other flags) do not affect markup selection and are not modelled.
- The button types hold only the two button classes. Keyboard entries of other types, which `send_text_message` would also send without markup, cannot be represented.
- `Todo.*` database calls (src/bot/repositories/models.py) are effects (`TodoEffect`) or the `todoExists` oracle. The one database refusal modelled is an item without content (`BotStates.Rejected`); other database errors are not modelled. Neither is the session state after a refused commit: SQLAlchemy keeps such a session unusable until it is rolled back, which the code never does.
- BotStates.ShowTodoButtons: `done` calls `Todo.mark_todo_as_done` (src/bot/states.py:173), which `Todo` in src/bot/repositories/models.py does not define. The `Todo` that src/bot/states.py imports from the repositories package is not part of this model, so the method is assumed to exist and to mark the item done; if it does not, every `done` press raises `AttributeError` in `process` and the item screen stays stored.
- The rendering in the `enter_state` hooks (texts, keyboards, the list's `Todo` queries) is left out. What is modelled is whether a hook chains onward and whether its send raises.
- BotStates.EnterHook: delivery is one answer per state class (`World.delivered`), not per message, so two sends from the same state class in one update succeed or fail together.
- `Paginator` and `DestroyInlineKeyboardMixin` are not part of this model, because their source is not available. The generic machine allows an `exit_state` that raises; the bot's `exit_state` is modelled as never raising (`BotBehaviour`).
- `BaseSessionRepository` is not part of this model. The bot wires `StateMachine` with field names the class does not declare (src/bot/states.py:20-27). So the machine is modelled over `LocatorsRepository`, and the session repository on its own.
- Pydantic validation is modelled as exact type checks (`BotStates.Accepts`). Lax coercions, such as a numeric string into an `int` field, are not modelled.
- `register` also sets the class's `_state_name`, and its decorator returns None. Neither affects routing, so neither is modelled.
- `print` logging is not modelled.
- Concurrency is not modelled: the code has none.
- `str.isdigit` is modelled for ASCII digits only. Python also accepts other Unicode digits.
- A button press is modelled as always carrying its message id and a string of data, so three source behaviours are not representable:
  - In `StartState.process`, the message is read only in the `page#` branch, which raises `AttributeError` when it is absent (src/bot/states.py:88).
  - In `StartState.process`, data that is None raises `TypeError` at the `'page#' in` test (src/bot/states.py:86).
  - In `ShowTodoState`, None data matches no case and the user stays put (src/bot/state_classes.py:7, src/bot/states.py:181-189).
- `generate_reply_buttons` is modelled on `(text, callback_data)` pairs, because the code unpacks pairs (src/core/tg_api/shortcuts.py:33). Its type hint says plain strings.
- The superseded wiring (src/states.py), src/engine/tg_api/shortcuts.py and src/run.py are left out: they hold only wiring and the polling loop.

## Findings

| source | as written | input that shows it | evidently intended | confidence | as-written member | corrected member |
|---|---|---|---|---|---|---|
| src/bot/repositories/sessions.py:26-27 | an overfull history is cut with `history[:max_history_length]`, which keeps the oldest entries and drops the new one | `max_history_length=1`, save `a` then `b` for the same user: history stays `[a]` | a bounded history that keeps the newest `max(max_history_length, 0)` entries and evicts the oldest, giving `[b]` | medium, not executed | `Sessions.TruncationKeepsOldestCounterexample` | `Sessions.EvictingSaveKeepsNewest` |
