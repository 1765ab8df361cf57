/** Events delivered by the terminal source, reduced to what the
    application loop inspects. */
module Events {

  /** A key code: only `Esc` is distinguished by the application; every
      other code is `Other(n)`. */
  datatype KeyCode = Esc | Other(n: nat)

  datatype KeyEventKind = Press | Repeat | Release

  /** A keyboard event; `modifiers` is the bit set of held modifier keys. */
  datatype KeyEvent = KeyEvent(code: KeyCode, modifiers: bv8, kind: KeyEventKind)

  datatype MouseEvent = MouseEvent(column: nat, row: nat, modifiers: bv8)

  datatype Event =
    | Init
    | Quit
    | Error
    | Closed
    | Tick
    | Render
    | FocusGained
    | FocusLost
    | Paste(text: string)
    | Key(key: KeyEvent)
    | Mouse(mouse: MouseEvent)
    | Resize(width: nat, height: nat)
}
