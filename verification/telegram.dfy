/** The slice of the Telegram Bot API types the core reads or builds: inbound
    updates, and the buttons and markups of outbound messages. The types
    module itself is not part of this model; only the fields used are kept. */
module Telegram {

  import opened Base

  datatype Message = Message(messageId: int, text: Option<string>)

  /** A button press; `messageId` is the id of the message carrying the button. */
  datatype CallbackQuery = CallbackQuery(data: string, messageId: int)

  /** One inbound update: the chat it belongs to and, independently, an
      optional text message and an optional button press. */
  datatype Update = Update(chatId: int, message: Option<Message>, callback: Option<CallbackQuery>)

  datatype Button =
    | InlineKeyboardButton(text: string, callbackData: string)
    | KeyboardButton(text: string)

  type Keyboard = seq<seq<Button>>

  datatype ReplyMarkup =
    | InlineKeyboardMarkup(inlineKeyboard: Keyboard)
    | ReplyKeyboardMarkup(keyboard: Keyboard)
}
