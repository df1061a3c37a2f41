/** Keyboard and message helpers of src/core/tg_api/shortcuts.py. The HTTP
    requests themselves are not modelled: a request is a value, and what the
    Bot API answered is an input. */
module Shortcuts {

  import opened Base
  import opened Text
  import opened Telegram

  /** `row` is the inline-button rendering of `line`: same length, and button
      `j` carries the text and callback data of pair `j`. */
  predicate InlineRow(row: seq<Button>, line: seq<(string, string)>) {
    |row| == |line| && forall j :: 0 <= j < |line| ==> row[j] == InlineKeyboardButton(line[j].0, line[j].1)
  }

  /** `row` is the reply-button rendering of `line`: same length, and button
      `j` carries only the text of pair `j`. */
  predicate ReplyRow(row: seq<Button>, line: seq<(string, string)>) {
    |row| == |line| && forall j :: 0 <= j < |line| ==> row[j] == KeyboardButton(line[j].0)
  }

  /** `generate_inline_buttons(*lines)`: one row per line, one button per pair. */
  method GenerateInlineButtons(lines: seq<seq<(string, string)>>) returns (keyboard: Keyboard)
    ensures |keyboard| == |lines|
    ensures forall i :: 0 <= i < |lines| ==> InlineRow(keyboard[i], lines[i])
  {
    keyboard := [];
    var i := 0;
    while i < |lines|
      invariant 0 <= i <= |lines|
      invariant |keyboard| == i
      invariant forall a :: 0 <= a < i ==> InlineRow(keyboard[a], lines[a])
    {
      var line := lines[i];
      var row: seq<Button> := [];
      var j := 0;
      while j < |line|
        invariant 0 <= j <= |line|
        invariant |row| == j
        invariant forall b :: 0 <= b < j ==> row[b] == InlineKeyboardButton(line[b].0, line[b].1)
      {
        row := row + [InlineKeyboardButton(line[j].0, line[j].1)];
        j := j + 1;
      }
      keyboard := keyboard + [row];
      i := i + 1;
    }
  }

  /** `generate_reply_buttons(*lines)`: the code unpacks each entry as a
      `(text, callback_data)` pair and keeps only the text. */
  method GenerateReplyButtons(lines: seq<seq<(string, string)>>) returns (keyboard: Keyboard)
    ensures |keyboard| == |lines|
    ensures forall i :: 0 <= i < |lines| ==> ReplyRow(keyboard[i], lines[i])
  {
    keyboard := [];
    var i := 0;
    while i < |lines|
      invariant 0 <= i <= |lines|
      invariant |keyboard| == i
      invariant forall a :: 0 <= a < i ==> ReplyRow(keyboard[a], lines[a])
    {
      var line := lines[i];
      var row: seq<Button> := [];
      var j := 0;
      while j < |line|
        invariant 0 <= j <= |line|
        invariant |row| == j
        invariant forall b :: 0 <= b < j ==> row[b] == KeyboardButton(line[b].0)
      {
        row := row + [KeyboardButton(line[j].0)];
        j := j + 1;
      }
      keyboard := keyboard + [row];
      i := i + 1;
    }
  }

  /** The markup `send_text_message` attaches: chosen by the kind of the first
      button of the first row; a missing keyboard, `[]` and `[[]]` get none. */
  function SelectReplyMarkup(keyboard: Option<Keyboard>): (r: Option<ReplyMarkup>)
    ensures r.Some? <==> keyboard.Some? && |keyboard.value| > 0 && |keyboard.value[0]| > 0
    ensures r.Some? && keyboard.value[0][0].InlineKeyboardButton? ==> r.value == InlineKeyboardMarkup(keyboard.value)
    ensures r.Some? && keyboard.value[0][0].KeyboardButton? ==> r.value == ReplyKeyboardMarkup(keyboard.value)
  {
    match keyboard
    case None => None
    case Some(kb) =>
      if |kb| > 0 && |kb[0]| > 0 then
        match kb[0][0]
        case InlineKeyboardButton(_, _) => Some(InlineKeyboardMarkup(kb))
        case KeyboardButton(_) => Some(ReplyKeyboardMarkup(kb))
      else None
  }

  /** The request `send_text_message` builds (formatting options pass through
      and are not modelled). */
  datatype SendMessageRequest = SendMessageRequest(text: string, chatId: int, replyMarkup: Option<ReplyMarkup>)

  function SendTextMessage(text: string, chatId: int, keyboard: Option<Keyboard>): (req: SendMessageRequest)
    ensures req.text == text && req.chatId == chatId
    ensures req.replyMarkup == SelectReplyMarkup(keyboard)
  {
    SendMessageRequest(text, chatId, SelectReplyMarkup(keyboard))
  }

  /** Keyboards built by the generators get the markup of their own kind, the
      grid passed on unchanged; empty keyboards get none. */
  lemma GeneratedKeyboardMarkup(keyboard: Keyboard, lines: seq<seq<(string, string)>>)
    requires |keyboard| == |lines| && |lines| > 0 && |lines[0]| > 0
    ensures InlineRow(keyboard[0], lines[0]) ==>
      SendTextMessage("", 0, Some(keyboard)).replyMarkup == Some(InlineKeyboardMarkup(keyboard))
    ensures ReplyRow(keyboard[0], lines[0]) ==>
      SendTextMessage("", 0, Some(keyboard)).replyMarkup == Some(ReplyKeyboardMarkup(keyboard))
    ensures SelectReplyMarkup(None) == None
    ensures SelectReplyMarkup(Some([])) == None
    ensures SelectReplyMarkup(Some([[]])) == None
  {
  }

  /** What the Bot API answered to a request: the resulting message, or an
      HTTP status error with its description. */
  datatype HttpOutcome = Delivered(message: Message) | StatusError(description: string)

  datatype EditMessageReplyMarkupRequest = EditMessageReplyMarkupRequest(chatId: int, messageId: int, replyMarkup: ReplyMarkup)

  /** The request `edit_inline_keyboard` sends: no keyboard means `[[]]`, which clears the buttons. */
  function EditRequest(chatId: int, messageId: int, keyboard: Option<Keyboard>): (req: EditMessageReplyMarkupRequest)
    ensures req.chatId == chatId && req.messageId == messageId
    ensures keyboard.None? ==> req.replyMarkup == InlineKeyboardMarkup([[]])
    ensures keyboard.Some? ==> req.replyMarkup == InlineKeyboardMarkup(keyboard.value)
  {
    var markup := if keyboard.None? then InlineKeyboardMarkup([[]]) else InlineKeyboardMarkup(keyboard.value);
    EditMessageReplyMarkupRequest(chatId, messageId, markup)
  }

  /** `edit_inline_keyboard`, with `send` standing for the HTTP round trip. */
  function EditInlineKeyboard(chatId: int, messageId: int, keyboard: Option<Keyboard>, ignoreExactlyTheSame: bool,
                              send: EditMessageReplyMarkupRequest -> HttpOutcome): (r: Option<Message>)
    ensures r.Some? <==> send(EditRequest(chatId, messageId, keyboard)).Delivered?
  {
    match send(EditRequest(chatId, messageId, keyboard))
    case Delivered(message) => Some(message)
    case StatusError(description) =>
      if ignoreExactlyTheSame && Contains(description, "exactly the same") then None
      else if Contains(description, "Message is not modified") then None
      else None
  }

  /** The edit yields the message exactly when the request was delivered; every
      status error, whatever its text and whatever `ignore_exactly_the_same`
      says, yields None rather than an exception. */
  lemma EditInlineKeyboardOutcome(chatId: int, messageId: int, keyboard: Option<Keyboard>, ignore: bool,
                                  send: EditMessageReplyMarkupRequest -> HttpOutcome)
    ensures var r := EditInlineKeyboard(chatId, messageId, keyboard, ignore, send);
      var outcome := send(EditRequest(chatId, messageId, keyboard));
      && (r.Some? <==> outcome.Delivered?)
      && (r.Some? ==> r.value == outcome.message)
      && r == EditInlineKeyboard(chatId, messageId, keyboard, !ignore, send)
  {
  }
}
