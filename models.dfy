/** Records and enumerations shared by the typing-speed service and the home page
    (src/app/models/typing-speed.models.ts). */
module Models {

  /** Display state of one character of the passage. */
  datatype State = Pending | Correct | Incorrect

  /** One character of the passage: the character itself, its display state, and whether it was
      ever typed wrong (sticky, independent of the current display state). */
  datatype CharState = CharState(value: char, state: State, historicalError: bool)

  /** TIMED runs a 60-second countdown; PASSAGE runs an open-ended timer. */
  datatype Mode = Timed | Passage

  /** The keys of the passage table. */
  datatype Difficulty = Easy | Medium | Hard

  /** The two fields of a browser keydown event that the core reads. */
  datatype KeyEvent = KeyEvent(key: string, code: string)

  /** A value that may be `undefined` or `null`. */
  datatype Option<T> = None | Some(value: T) {
    function GetOr(default: T): T {
      match this
      case Some(v) => v
      case None => default
    }
  }
}
