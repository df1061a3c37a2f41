/** `generate_inline_buttons` of src/bot/helpers.py: the bot's own copy of the
    inline keyboard builder. */
module Helpers {

  import opened Telegram
  import Shortcuts

  /** One line of `(text, callback_data)` pairs as a row of inline buttons. */
  function InlineLine(line: seq<(string, string)>): (row: seq<Button>)
    ensures Shortcuts.InlineRow(row, line)
    decreases |line|
  {
    if |line| == 0 then []
    else InlineLine(line[..|line| - 1]) + [InlineKeyboardButton(line[|line| - 1].0, line[|line| - 1].1)]
  }

  /** `generate_inline_buttons(*lines)`: rows appended in argument order; no
      lines gives `[]`. */
  function GenerateInlineButtons(lines: seq<seq<(string, string)>>): (keyboard: Keyboard)
    ensures |keyboard| == |lines|
    ensures forall i :: 0 <= i < |lines| ==> Shortcuts.InlineRow(keyboard[i], lines[i])
    ensures lines == [] ==> keyboard == []
    decreases |lines|
  {
    if |lines| == 0 then []
    else GenerateInlineButtons(lines[..|lines| - 1]) + [InlineLine(lines[|lines| - 1])]
  }

  /** The two builders agree: the rendering of a list of lines is unique. */
  lemma InlineRenderingIsUnique(k1: Keyboard, k2: Keyboard, lines: seq<seq<(string, string)>>)
    requires |k1| == |lines| && forall i :: 0 <= i < |lines| ==> Shortcuts.InlineRow(k1[i], lines[i])
    requires |k2| == |lines| && forall i :: 0 <= i < |lines| ==> Shortcuts.InlineRow(k2[i], lines[i])
    ensures k1 == k2
  {
    forall i | 0 <= i < |lines| ensures k1[i] == k2[i] {
      assert Shortcuts.InlineRow(k1[i], lines[i]) && Shortcuts.InlineRow(k2[i], lines[i]);
    }
  }
}
