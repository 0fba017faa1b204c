/** Stock optional-value datatype standing in for JavaScript's null/undefined. */
module Options {
  datatype Option<+T> = None | Some(value: T)
}

/** Raw input events handed to the engine by the host's event dispatcher. */
module Input {
  import opened Options

  /** A raw DOM-style event: its type ('keydown', 'keyup', 'mousemove', ...), the key code
      (meaningful for key events) and, for pointer events, the control whose id the DOM
      target carries, already looked up (None when no control has that id). */
  datatype RawEvent = RawEvent(name: string, keyCode: int, target: Option<nat>)

  const KEYDOWN := "keydown"
  const KEYUP := "keyup"
  const MOUSEMOVE := "mousemove"
}
