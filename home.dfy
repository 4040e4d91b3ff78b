/** The home page (src/app/pages/home/home.ts): the keystroke handler that scores the character
    under the cursor in place and moves the cursor, starting and restarting a run, and the settings
    change that reloads the passage. This version of the page keeps its own character record,
    without the historical-error flag. */
module Home {
  import opened Models
  import TypingSpeed

  /** The page's character record: a character and its display state. */
  datatype TextChar = TextChar(value: char, state: State)

  /** The passage table, one list of passages per difficulty. */
  datatype PassageTable = PassageTable(easy: seq<string>, medium: seq<string>, hard: seq<string>) {
    function Passages(d: Difficulty): seq<string> {
      match d
      case Easy => easy
      case Medium => medium
      case Hard => hard
    }
  }

  /** `#getCharsState`: one PENDING record per character of the text, in order. */
  function GetCharsState(text: string): (r: seq<TextChar>)
    ensures |r| == |text|
    ensures forall i :: 0 <= i < |r| ==> r[i] == TextChar(text[i], Pending)
  {
    if text == [] then [] else [TextChar(text[0], Pending)] + GetCharsState(text[1..])
  }

  function IsBackspace(e: KeyEvent): bool {
    e.code == "Backspace"
  }

  /** How one keystroke scores the character under the cursor: CORRECT when the key is that
      character, untouched for Backspace, INCORRECT otherwise. */
  function Score(c: TextChar, e: KeyEvent): (r: TextChar)
    ensures r.value == c.value
    ensures r.state == Correct <==> e.key == [c.value] || (IsBackspace(e) && c.state == Correct)
    ensures e.key != [c.value] && !IsBackspace(e) ==> r.state == Incorrect
    ensures e.key != [c.value] && IsBackspace(e) ==> r == c
  {
    if e.key == [c.value] then c.(state := Correct)
    else if IsBackspace(e) then c
    else c.(state := Incorrect)
  }

  /** Where the cursor goes after a scored keystroke: it stays on the last character (or beyond);
      otherwise Backspace moves it back one, not below 0, and any other key moves it forward one. */
  function NextCursor(cursor: nat, len: nat, e: KeyEvent): (r: nat)
    ensures cursor + 1 < len && !IsBackspace(e) ==> r == cursor + 1
    ensures cursor + 1 < len && IsBackspace(e) ==> r == if cursor == 0 then 0 else cursor - 1
    ensures cursor + 1 >= len ==> r == cursor
  {
    if cursor >= len - 1 then cursor
    else if IsBackspace(e) then (if cursor - 1 > 0 then cursor - 1 else 0)
    else cursor + 1
  }

  /** The page's run state: the passage records, the cursor and whether the run has started. */
  datatype Session = Session(text: seq<TextChar>, cursor: nat, started: bool)

  /** The cursor points at a character, or is 0 over an empty passage. */
  predicate CursorInBounds(s: Session) {
    if |s.text| == 0 then s.cursor == 0 else s.cursor < |s.text|
  }

  /** `#handleKeyboardEffect` as a state transition. Before the run starts, the key only starts it;
      afterwards it scores the character under the cursor and moves the cursor. */
  function Keystroke(s: Session, e: KeyEvent): (r: Session)
    requires s.started ==> s.cursor < |s.text|
    ensures r.started
    ensures |r.text| == |s.text|
    ensures !s.started ==> r.text == s.text && r.cursor == s.cursor
    ensures s.started ==> r.text[s.cursor] == Score(s.text[s.cursor], e)
    ensures s.started ==> r.cursor == NextCursor(s.cursor, |s.text|, e)
    ensures forall i :: 0 <= i < |s.text| && (i != s.cursor || !s.started) ==> r.text[i] == s.text[i]
  {
    if s.started then
      Session(s.text[s.cursor := Score(s.text[s.cursor], e)], NextCursor(s.cursor, |s.text|, e), true)
    else s.(started := true)
  }

  /** A keystroke keeps the cursor on the passage. */
  lemma KeystrokeKeepsCursorInBounds(s: Session, e: KeyEvent)
    requires CursorInBounds(s) && (s.started ==> |s.text| > 0)
    ensures CursorInBounds(Keystroke(s, e))
  {
  }

  /** Keystrokes in order, without the key filter. */
  function Run(s: Session, events: seq<KeyEvent>): (r: Session)
    requires CursorInBounds(s) && |s.text| > 0
    ensures CursorInBounds(r) && |r.text| == |s.text| && (events != [] ==> r.started)
    decreases |events|
  {
    if events == [] then s
    else
      KeystrokeKeepsCursorInBounds(s, events[0]);
      Run(Keystroke(s, events[0]), events[1..])
  }

  /** `#subscribeDocumentKeydown`: keydown events pass the key filter, then reach the handler. */
  function Dispatch(s: Session, events: seq<KeyEvent>): (r: Session)
    requires CursorInBounds(s) && |s.text| > 0
    ensures CursorInBounds(r) && |r.text| == |s.text|
    decreases |events|
  {
    if events == [] then s
    else if TypingSpeed.IsCharAllowed(events[0]) then
      KeystrokeKeepsCursorInBounds(s, events[0]);
      Dispatch(Keystroke(s, events[0]), events[1..])
    else Dispatch(s, events[1..])
  }

  /** When every event passes the filter, dispatching is running them all. */
  lemma {:induction false} DispatchAllowed(s: Session, events: seq<KeyEvent>)
    requires CursorInBounds(s) && |s.text| > 0
    requires forall i :: 0 <= i < |events| ==> TypingSpeed.IsCharAllowed(events[i])
    ensures Dispatch(s, events) == Run(s, events)
    decreases |events|
  {
    if events != [] {
      KeystrokeKeepsCursorInBounds(s, events[0]);
      DispatchAllowed(Keystroke(s, events[0]), events[1..]);
    }
  }

  /** From cursor `k` of a started run, keys spelling the rest of the passage (none of them
      Backspace) mark every remaining character CORRECT, leave the earlier ones alone, and leave
      the cursor on the last character. */
  lemma {:induction false} TypeRest(s: Session, events: seq<KeyEvent>)
    requires s.started && CursorInBounds(s) && |s.text| > 0
    requires events != [] && s.cursor + |events| == |s.text|
    requires forall i :: 0 <= i < |events| ==>
               events[i].key == [s.text[s.cursor + i].value] && !IsBackspace(events[i])
    ensures Run(s, events).cursor == |s.text| - 1
    ensures forall i :: 0 <= i < s.cursor ==> Run(s, events).text[i] == s.text[i]
    ensures forall i :: s.cursor <= i < |s.text| ==> Run(s, events).text[i] == TextChar(s.text[i].value, Correct)
    decreases |events|
  {
    var next := Keystroke(s, events[0]);
    if |events| > 1 {
      assert next.cursor == s.cursor + 1;
      forall i | 0 <= i < |events| - 1
        ensures events[1..][i].key == [next.text[next.cursor + i].value] && !IsBackspace(events[1..][i])
      {
        assert events[1..][i] == events[i + 1];
      }
      TypeRest(next, events[1..]);
    }
  }

  /** Typing a whole fresh passage without a mistake, after the run has started, leaves every
      character CORRECT and the cursor on the last one. */
  lemma {:induction false} TypeWholePassage(passage: string, events: seq<KeyEvent>)
    requires |passage| > 0 && |events| == |passage|
    requires forall i :: 0 <= i < |events| ==> events[i].key == [passage[i]] && !IsBackspace(events[i])
    ensures var r := Run(Session(GetCharsState(passage), 0, true), events);
            r.cursor == |passage| - 1 && forall i :: 0 <= i < |passage| ==> r.text[i] == TextChar(passage[i], Correct)
  {
    var s := Session(GetCharsState(passage), 0, true);
    assert forall i :: 0 <= i < |events| ==>
             events[i].key == [s.text[s.cursor + i].value] && !IsBackspace(events[i]) by {
      forall i | 0 <= i < |events|
        ensures events[i].key == [s.text[s.cursor + i].value]
      {
        assert s.text[s.cursor + i] == TextChar(passage[i], Pending);
      }
    }
    TypeRest(s, events);
    assert forall i :: 0 <= i < |passage| ==> s.text[i].value == passage[i];
  }

  /** The page: settings, the passage records in an array, the cursor and the started flag. */
  class HomePage {
    const data: PassageTable
    var difficulty: Difficulty
    var mode: Mode
    var randomTextIndex: nat
    var testText: array<TextChar>
    var cursorPosition: nat
    var testStarted: bool

    ghost function View(): Session
      reads this, testText
    {
      Session(testText[..], cursorPosition, testStarted)
    }

    ghost predicate Valid()
      reads this, testText
    {
      CursorInBounds(View())
    }

    constructor (data: PassageTable)
      ensures this.data == data && difficulty == Easy && mode == Timed && randomTextIndex == 0
      ensures Valid() && View() == Session([], 0, false)
    {
      this.data := data;
      difficulty := Easy;
      mode := Timed;
      randomTextIndex := 0;
      testText := new TextChar[0];
      cursorPosition := 0;
      testStarted := false;
    }

    /** Loads a fresh copy of a passage's records. */
    method LoadText(text: string)
      modifies this`testText
      ensures fresh(testText) && testText[..] == GetCharsState(text)
    {
      var records := GetCharsState(text);
      testText := new TextChar[|records|](i requires 0 <= i < |records| => records[i]);
    }

    /** The template's two-way binding of the difficulty selector. */
    method BindDifficulty(d: Difficulty)
      modifies this`difficulty
      ensures difficulty == d
    {
      difficulty := d;
    }

    method OnStartChallenge()
      modifies this`testStarted
      ensures testStarted
    {
      testStarted := true;
    }

    /** `onRestartChallenge`: a passage of the current difficulty (chosen by `index`, the random
        pick) replaces the text as fresh PENDING records; the cursor returns to 0 and the run is
        stopped. */
    method OnRestartChallenge(index: nat)
      requires index < |data.Passages(difficulty)|
      modifies this`randomTextIndex, this`testText, this`cursorPosition, this`testStarted
      ensures Valid() && fresh(testText)
      ensures randomTextIndex == index
      ensures View() == Session(GetCharsState(data.Passages(difficulty)[index]), 0, false)
    {
      randomTextIndex := index;
      LoadText(data.Passages(difficulty)[randomTextIndex]);
      cursorPosition := 0;
      testStarted := false;
    }

    /** `#handleSettingsFormValueChangesEffect`: loads the previously picked passage of the new
        difficulty, resets the cursor, switches the mode, then restarts. When the new difficulty has
        no passage at the previous pick, the lookup throws before anything changes; that is
        reported as `ok == false`. */
    method HandleSettingsFormValueChangesEffect(d: Difficulty, m: Mode, index: nat) returns (ok: bool)
      requires index < |data.Passages(difficulty)|
      modifies this`randomTextIndex, this`testText, this`cursorPosition, this`testStarted, this`mode
      ensures ok <==> old(randomTextIndex) < |data.Passages(d)|
      ensures !ok ==> mode == old(mode) && randomTextIndex == old(randomTextIndex) && testText == old(testText)
                      && cursorPosition == old(cursorPosition) && testStarted == old(testStarted)
      ensures ok ==> Valid() && fresh(testText) && mode == m && randomTextIndex == index
                     && View() == Session(GetCharsState(data.Passages(difficulty)[index]), 0, false)
    {
      if randomTextIndex >= |data.Passages(d)| {
        return false;
      }
      LoadText(data.Passages(d)[randomTextIndex]);
      cursorPosition := 0;
      mode := m;
      OnRestartChallenge(index);
      return true;
    }

    /** `#handleKeyboardEffect`: scores the character under the cursor in place and moves the
        cursor, or only starts the run when it has not started. There is no bounds check, so a
        started run needs a non-empty passage. */
    method HandleKeyboardEffect(event: KeyEvent)
      requires Valid() && (testStarted ==> testText.Length > 0)
      modifies this`cursorPosition, this`testStarted, testText
      ensures Valid()
      ensures View() == Keystroke(old(View()), event)
    {
      var isBackspace := event.code == "Backspace";
      if testStarted {
        if event.key == [testText[cursorPosition].value] {
          testText[cursorPosition] := testText[cursorPosition].(state := Correct);
        } else if isBackspace {
        } else {
          testText[cursorPosition] := testText[cursorPosition].(state := Incorrect);
        }
        if cursorPosition >= testText.Length - 1 {
          return;
        }
        if isBackspace {
          cursorPosition := if cursorPosition - 1 > 0 then cursorPosition - 1 else 0;
          return;
        }
        cursorPosition := cursorPosition + 1;
      } else {
        OnStartChallenge();
      }
    }

    /** One keydown event: filtered, then handled. */
    method OnKeydown(event: KeyEvent)
      requires Valid() && (testStarted ==> testText.Length > 0)
      modifies this`cursorPosition, this`testStarted, testText
      ensures Valid()
      ensures View() == if TypingSpeed.IsCharAllowed(event) then Keystroke(old(View()), event) else old(View())
    {
      if TypingSpeed.IsCharAllowed(event) {
        HandleKeyboardEffect(event);
      }
    }
  }
}
