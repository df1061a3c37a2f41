/** `ClassicState` (src/bot/state_classes.py): a state whose `process` hands a
    button press to `handle_inline_buttons` and a text message to
    `handle_text_message`; both handlers default to "stay". */
module StateClasses {

  import opened Base
  import opened Locators
  import opened Telegram

  /** `ClassicState.process`: the button press is checked first, so it wins
      when an update carries both. */
  function ClassicProcess(u: Update, onButton: string -> Option<Locator>, onText: Option<string> -> Option<Locator>)
    : (r: Option<Locator>)
    ensures u.callback.Some? ==> r == onButton(u.callback.value.data)
    ensures u.callback.None? && u.message.Some? ==> r == onText(u.message.value.text)
    ensures u.callback.None? && u.message.None? ==> r == None
  {
    if u.callback.Some? then onButton(u.callback.value.data)
    else if u.message.Some? then onText(u.message.value.text)
    else None
  }

  /** The default `handle_inline_buttons`. */
  function NoButtonHandler(data: string): Option<Locator> {
    None
  }

  /** The default `handle_text_message`. */
  function NoTextHandler(text: Option<string>): Option<Locator> {
    None
  }

  /** With a button press present, the text handler is never consulted. */
  lemma ButtonWinsOverText(u: Update, onButton: string -> Option<Locator>,
                           onText1: Option<string> -> Option<Locator>, onText2: Option<string> -> Option<Locator>)
    requires u.callback.Some?
    ensures ClassicProcess(u, onButton, onText1) == ClassicProcess(u, onButton, onText2)
  {
  }

  /** A `ClassicState` that overrides neither handler never leaves. */
  lemma DefaultHandlersStay(u: Update)
    ensures ClassicProcess(u, NoButtonHandler, NoTextHandler) == None
  {
  }
}
