/**
 * The decoded terminal actions the output handler consumes.
 *
 * These mirror the `Action` and `ControlCode` enums of the termwiz escape
 * parser. The parser itself is an external library and is not part of this
 * model: its output is taken as an uninterpreted input sequence. Only the
 * payloads the handler looks at are kept (the printed character and the
 * control code); the payloads of the other variants are abstracted away.
 */
module Escape {

  /** Control codes the parser reports as `Action::Control`. */
  datatype ControlCode =
    | Null
    | Bell
    | Backspace
    | HorizontalTab
    | LineFeed
    | VerticalTab
    | FormFeed
    | CarriageReturn
    | Escape
    | OtherControl              // any control code not named above

  /** One decoded unit of shell output. */
  datatype Action =
    | Print(c: char)
    | PrintString(s: string)
    | Control(code: ControlCode)
    | DeviceControl
    | OperatingSystemCommand
    | CSI
    | Esc
    | Sixel
    | XtGetTcap
    | KittyImage

  /** Actions that append one character to the text buffer. */
  predicate Appends(a: Action)
  {
    a.Print? || a == Control(LineFeed)
  }

  /** The character an appending action adds. */
  function AppendedChar(a: Action): char
    requires Appends(a)
  {
    if a.Print? then a.c else '\n'
  }

  /** The one action that removes a character from the text buffer. */
  predicate Erases(a: Action)
  {
    a == Control(Backspace)
  }

  /** Actions the output handler ignores entirely. */
  predicate Ignored(a: Action)
  {
    !Appends(a) && !Erases(a)
  }
}
