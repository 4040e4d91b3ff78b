# Typing-speed test core, in Dafny

This project models the metrics and keystroke core of an Angular typing-speed test. A user types a
displayed passage. Each character of the passage is a record holding its value, a display state
(PENDING, CORRECT or INCORRECT) and a sticky "historical error" flag. From these records the service
derives completed characters, accuracy, and gross and net words per minute (WPM). It formats clock
values as `M:SS`, filters key events, and keeps a personal best that only ratchets upward. The home
page scores the character under the cursor in place and moves the cursor.

Files and modules:

- `models.dfy` (`Models`): the character record, its display state, the mode, the difficulty, the
  key event and an `Option` for values that may be `undefined`.
- `numerals.dfy` (`Numerals`): `Number.prototype.toString()` for non-negative integers,
  `String.prototype.padStart`, and the digit value that reads a rendering back.
- `typing_speed.dfy` (`TypingSpeed`): the service. Its pure operations are module-level functions.
  They cover records, the count reducer, accuracy, WPM, completed characters, the clock format, the
  key filter, the personal-best rule and the timer value sequences. The class
  `TypingSpeedService` holds the service's state holders (`wpm`, `testText`, `testStarted`,
  `mode`) and `personalBest`. Its methods update these fields in place.
- `home.dfy` (`Home`): the home page. `Keystroke` is the handler as a pure transition over a
  `Session` (records, cursor, started flag). The class `HomePage` keeps the records in an `array`
  and mutates them in place. Its handler is proved to produce exactly that transition.

Conventions:

- Speeds, accuracy arguments and the personal best are `real`.
- `Math.round(x)` is `Floor(x + 1/2)`.
- Strings are sequences of characters.
- Home's private `#isCharAllowed` (home.ts:116-123) is the same code as the service's
  `isCharAllowed`, with the same bounds 33 and 126.
- Home's `#secondsToStringTime` (home.ts:152-157) is the same code as the service's
  `secondsToStringTime`.
- Home's `countdown$`, `infiniteTimer$` and `time$` (home.ts:36-61) emit the same values as the
  service's timers.
- All of these are modelled once, in `TypingSpeed`, and `Home` uses them.
- The passage table and the constants file are not part of this model. The passage table is a
  value of type `PassageTable`, and the constants are taken from home.ts:26-28 (33, 126, 60).

Where the code and its accompanying documentation disagree, the model follows the code:

- `getCompletedChars` returns 0, not the text length, when no record is PENDING. See Findings.
- The service test file exercises a `getResultState` returning `{isFirstTime, isPersonalBest}`.
  The service has no such method. It has `shouldUpdatePersonalBest`, which returns one boolean.
- The stored personal best is read with `|| 0`, so it is never null. The "first time" branch of
  `shouldUpdatePersonalBest` therefore never fires against a stored number. A first run against 0
  succeeds through the new-best branch.
- The home page in src/app/pages/home/home.ts is older than the service and its test file: its
  records have no historical-error flag. Its
  handler has no completion event and no WPM update, and it never moves the cursor past the last
  character.

## Model

| member | source | states |
|---|---|---|
| `TypingSpeed.GetCharsState` | src/app/services/typing-speed.service.ts:116-118 | one record per character of the text, same length; record i carries character i (whitespace included), is PENDING and has no historical error |
| `TypingSpeed.GetCharsStateValues` | src/app/services/typing-speed.service.ts:116-118 | reading back the characters of the records gives the original text |
| `TypingSpeed.FreshPassageMetrics` | src/app/services/typing-speed.service.ts:116-118 | over a fresh passage every record is pending, none is wrong, completed characters are 0 and accuracy is 0 |
| `TypingSpeed.FoldCountsSums` | src/app/services/typing-speed.service.ts:178-190 | the reducer, from any accumulator, adds the number of PENDING and of historically wrong records, and after one step recomputes `correct` and `correctForAccuracy` from the full length |
| `TypingSpeed.GetCharsCount` | src/app/services/typing-speed.service.ts:177-191 | the reduce is seeded with `{0, 0, 0, len}`: the empty text gives all zeros; any other text ends with `correct == len - wrong - pending` and `correctForAccuracy == len - wrong` for the final counters |
| `TypingSpeed.CharsCountSpec` | src/app/services/typing-speed.service.ts:177-191 | `pending` is the number of PENDING records, `wrong` the number with a historical error, `correct == len - wrong - pending`, `correctForAccuracy == len - wrong`, the empty text included |
| `TypingSpeed.RightVsWrong` | src/app/services/typing-speed.service.ts:28-34 | an empty text emits nothing; otherwise `wrongChars` is the historical-error count and `correctChars` is `len - wrong - pending` |
| `TypingSpeed.RightVsWrongStream` | src/app/services/typing-speed.service.ts:28-36 | the stream always starts with `{0, 0}` |
| `TypingSpeed.RightVsWrongStreamOfNonEmpty` | src/app/services/typing-speed.service.ts:28-36 | for non-empty texts the stream is `{0, 0}` followed by exactly one tally per text, in order |
| `TypingSpeed.RightVsWrongStreamDropsEmpty` | src/app/services/typing-speed.service.ts:28-36 | for any emitted texts, including the initial `[]` of the text holder, the stream equals the stream of the non-empty texts alone, so with the lemma above it is `{0, 0}` and then one tally per non-empty text |
| `TypingSpeed.Round` | src/app/services/typing-speed.service.ts:137 | `Math.round` gives the nearest integer, with halves rounded up |
| `TypingSpeed.GetAccuracy` | src/app/services/typing-speed.service.ts:77-83 | always in 0..100; 0 when every record is PENDING (the empty text included) or every record was typed wrong; otherwise the rounded percentage of never-wrong records over the whole text |
| `TypingSpeed.AccuracyWithoutErrors` | src/app/services/typing-speed.service.ts:77-83 | a started text with no historical error has accuracy 100 |
| `TypingSpeed.CalculateWpm` | src/app/services/typing-speed.service.ts:127-134 | for distinct timestamps, the speed times the elapsed milliseconds is 12000 times the characters, which is (chars / 5) per (ms / 60000) minutes |
| `TypingSpeed.WpmMonotonicInChars` | src/app/services/typing-speed.service.ts:127-134 | over a positive elapsed time the speed is non-negative and does not decrease as characters grow |
| `TypingSpeed.CalculateNetWpm` | src/app/services/typing-speed.service.ts:136-138 | net speed is the integer nearest to `wpm * accuracy / 100` (halves up) |
| `TypingSpeed.NetWpmBounds` | src/app/services/typing-speed.service.ts:136-138 | for a non-negative speed and an accuracy in 0..100, net speed lies between 0 and the rounded gross speed |
| `TypingSpeed.WpmExamples` | src/app/services/typing-speed.service.spec.ts:91-103 | `calculateWpm(5, 0, 60000) == 1`, `(25, 0, 30000) == 10`; `calculateNetWpm(10, 100) == 10`, `(10, 50) == 5`, `(10, 0) == 0` |
| `TypingSpeed.FirstPendingIndex` | src/app/services/typing-speed.service.ts:193-195 | -1 exactly when no record is PENDING; otherwise the index of a PENDING record with none before it |
| `TypingSpeed.GetCompletedChars` | src/app/services/typing-speed.service.ts:141-147 | when some record is PENDING, the index of the first one; when none is (the empty text included), 0 |
| `TypingSpeed.CompletedCharsOfFinishedText` | src/app/services/typing-speed.service.ts:142-143 | a one-character text typed correctly reports 0 completed characters, where the intended count is 1 |
| `TypingSpeed.CompletedCharsIntended` | src/app/services/typing-speed.service.ts:141-147 | the length of the longest prefix of non-PENDING records: the whole text when nothing is PENDING |
| `TypingSpeed.CompletedCharsAgreeWhilePending` | src/app/services/typing-speed.service.ts:141-147 | the code as written and the intended count agree whenever some record is PENDING |
| `TypingSpeed.SecondsToStringTime` | src/app/services/typing-speed.service.ts:120-125 | the result has a colon three characters from its end |
| `TypingSpeed.SecondsToStringTimeFields` | src/app/services/typing-speed.service.ts:120-125 | before the colon is the decimal form of `s / 60`: digits that read as it, with no leading zero when there are two or more; after it are exactly two digits that read as `s % 60` |
| `TypingSpeed.SecondsToStringTimeRoundTrip` | src/app/services/typing-speed.service.ts:120-125 | parsing the formatted time gives back the seconds |
| `TypingSpeed.SecondsToStringTimeInjective` | src/app/services/typing-speed.service.ts:120-125 | different second counts never format the same |
| `TypingSpeed.SecondsToStringTimeExamples` | src/app/services/typing-speed.service.spec.ts:117-122 | 60 gives "1:00", 65 gives "1:05", 9 gives "0:09", 0 gives "0:00" |
| `TypingSpeed.IsCharAllowed` | src/app/services/typing-speed.service.ts:107-114 | an accepted key is non-empty; a key longer than one character needs the Backspace code; every single printable-ASCII key (33..126) is accepted |
| `TypingSpeed.IsCharAllowedCases` | src/app/services/typing-speed.service.ts:107-114 | a key longer than one character is accepted iff its code is Backspace and its first character is printable; a one-character key iff it is printable or its code is Space; an empty key never |
| `TypingSpeed.IsCharAllowedExamples` | src/app/services/typing-speed.service.spec.ts:125-149 | "a", Backspace and Space are accepted; "Shift" and the empty key are rejected |
| `TypingSpeed.PersonalBestStep` | src/app/services/typing-speed.service.ts:161-175 | an absent speed changes nothing and reports false; a reported update stores the speed; against a stored number, the update happens iff the speed is greater |
| `TypingSpeed.PersonalBestRatchet` | src/app/services/typing-speed.service.ts:161-175 | against a stored number the best never decreases and becomes the larger of best and speed |
| `TypingSpeed.PersonalBestIdempotent` | src/app/services/typing-speed.service.ts:161-175 | offering the same speed a second time reports false and leaves the best unchanged |
| `TypingSpeed.PersonalBestExamples` | src/app/services/typing-speed.service.ts:161-175 | from 0: 50 is a new best, then 60 is a new best, then 40 is not; an absent speed is not |
| `TypingSpeed.ScanDownSpec` | src/app/services/typing-speed.service.ts:42-44 | the decrementing scan from a seed, cut at the first negative value, is seed-1 down to 0 |
| `TypingSpeed.CountdownValues` | src/app/services/typing-speed.service.ts:38-56 | while started the countdown emits 61 values, the first 60 and the last 0; while stopped it emits 60 alone |
| `TypingSpeed.CountdownSpec` | src/app/services/typing-speed.service.ts:38-58 | while started the countdown emits 61 values, 60 down to 0 in steps of one, with 0 only as the last value; while stopped it emits 60 |
| `TypingSpeed.TimeStrings` | src/app/services/typing-speed.service.ts:57 | one string per value, each the formatted value |
| `TypingSpeed.TimeStringsParse` | src/app/services/typing-speed.service.ts:57 | each emitted string parses back to its value |
| `TypingSpeed.TimeStringsDistinct` | src/app/services/typing-speed.service.ts:57 | distinct values are emitted as distinct strings |
| `TypingSpeed.TimeValues` | src/app/services/typing-speed.service.ts:69-75 | value i is 60 - i in TIMED mode (counting down from 60) and i in PASSAGE mode (counting up from 0); a started TIMED clock has 61 values and a started PASSAGE clock one per tick; a stopped clock shows only its start value |
| `TypingSpeed.PassageDisplay` | src/app/services/typing-speed.service.ts:60-67 | a started PASSAGE clock shows "0:00" first, and each shown string parses back to the seconds elapsed |
| `TypingSpeed.PassageDisplayDistinct` | src/app/services/typing-speed.service.ts:60-67 | a started PASSAGE clock never shows the same string twice |
| `TypingSpeed.CountdownDisplay` | src/app/pages/home/home.ts:36-46 | a started TIMED clock shows 61 values, "1:00" first and "0:00" last |
| `TypingSpeed.StoppedDisplay` | src/app/pages/home/home.ts:36-61 | a stopped clock shows "1:00" in TIMED mode and "0:00" in PASSAGE mode |
| `TypingSpeed.TypingSpeedService.constructor` | src/app/services/typing-speed.service.ts:18-26 | speed 0, empty text, not started, TIMED; the personal best is the stored value, or 0 when there is none |
| `TypingSpeed.TypingSpeedService.UpdateWpm` | src/app/services/typing-speed.service.ts:91-93 | the published speed becomes the argument |
| `TypingSpeed.TypingSpeedService.UpdateTestText` | src/app/services/typing-speed.service.ts:99-101 | the published text becomes the argument |
| `TypingSpeed.TypingSpeedService.UpdateMode` | src/app/services/typing-speed.service.ts:149-151 | the mode becomes the argument |
| `TypingSpeed.TypingSpeedService.UpdateTestStarted` | src/app/services/typing-speed.service.ts:153-155 | the started flag becomes the argument |
| `TypingSpeed.TypingSpeedService.Accuracy` | src/app/services/typing-speed.service.ts:85-89 | the accuracy of the current text lies in 0..100 |
| `TypingSpeed.TypingSpeedService.ShouldUpdatePersonalBest` | src/app/services/typing-speed.service.ts:161-175 | reports true iff a speed is present and above the best, and then stores it; otherwise the best is unchanged; the best never decreases |
| `TypingSpeed.TypingSpeedService.OnCountdownTick` | src/app/services/typing-speed.service.ts:45-52 | only the value 0 checks the personal best against the latest speed and yields a navigation carrying the result |
| `TypingSpeed.TypingSpeedService.RunCountdown` | src/app/services/typing-speed.service.ts:38-58 | a started countdown shows the formatted 60 down to 0 and navigates exactly once, with the best raised to the speed if the speed beat it |
| `Numerals.NatToString` | src/app/services/typing-speed.service.ts:124 | the rendering of a non-negative integer is a non-empty digit string with no leading zero, one digit exactly below 10 |
| `Numerals.NatToStringValue` | src/app/services/typing-speed.service.ts:124 | the rendering reads back as the number |
| `Numerals.PadStart` | src/app/services/typing-speed.service.ts:124 | the result is the original string preceded by filler, up to the requested width; a string already that long is unchanged |
| `Numerals.TwoDigitPadding` | src/app/services/typing-speed.service.ts:124 | a number below 100, rendered and padded with '0' to width 2, is two digits that read as the number |
| `Home.GetCharsState` | src/app/pages/home/home.ts:148-150 | one PENDING record per character, same length, same characters in order |
| `Home.Score` | src/app/pages/home/home.ts:129-136 | a key equal to the character makes it CORRECT; otherwise Backspace leaves it untouched and any other key makes it INCORRECT; the character itself never changes |
| `Home.NextCursor` | src/app/pages/home/home.ts:138-141 | at or past the last character the cursor stays, even on Backspace; otherwise Backspace moves back one (not below 0) and any other key forward one |
| `Home.Keystroke` | src/app/pages/home/home.ts:125-146 | before the run starts a key only starts it (records and cursor unchanged); afterwards only the record under the cursor changes, scored by the key, and the cursor moves as `NextCursor` says |
| `Home.KeystrokeKeepsCursorInBounds` | src/app/pages/home/home.ts:138-141 | the cursor stays within the passage after any keystroke |
| `Home.Run` | src/app/pages/home/home.ts:125-146 | a sequence of keystrokes keeps the cursor within the passage and the passage length, and leaves the run started |
| `Home.Dispatch` | src/app/pages/home/home.ts:96-105 | filtered keydown events keep the cursor within the passage and the passage length |
| `Home.DispatchAllowed` | src/app/pages/home/home.ts:96-105 | when every event passes the key filter, dispatching equals running all the keystrokes |
| `Home.TypeRest` | src/app/pages/home/home.ts:125-146 | from a started run at cursor k, keys spelling the rest of the passage mark every remaining character CORRECT, leave the earlier ones alone and leave the cursor on the last character |
| `Home.TypeWholePassage` | src/app/pages/home/home.ts:125-146 | typing a fresh passage without a mistake marks every character CORRECT and leaves the cursor on the last character |
| `Home.HomePage.constructor` | src/app/pages/home/home.ts:20-35 | easy difficulty, TIMED mode, pick 0, empty text, cursor 0, not started |
| `Home.HomePage.LoadText` | src/app/pages/home/home.ts:79 | the text becomes a fresh array of the passage's PENDING records |
| `Home.HomePage.BindDifficulty` | src/app/pages/home/home.ts:23 | the difficulty field takes the selected value |
| `Home.HomePage.OnStartChallenge` | src/app/pages/home/home.ts:73-75 | the run is started |
| `Home.HomePage.OnRestartChallenge` | src/app/pages/home/home.ts:77-82 | the text becomes fresh PENDING records of the picked passage of the current difficulty, the cursor 0, the run stopped |
| `Home.HomePage.HandleSettingsFormValueChangesEffect` | src/app/pages/home/home.ts:107-114 | when the new difficulty has a passage at the old pick, the mode is switched and the page is restarted on the new pick; otherwise nothing changes |
| `Home.HomePage.HandleKeyboardEffect` | src/app/pages/home/home.ts:125-146 | the array and cursor after the handler are exactly `Keystroke` of those before it, and the cursor stays within the passage |
| `Home.HomePage.OnKeydown` | src/app/pages/home/home.ts:96-105 | a key that passes the filter is handled; any other key changes nothing |

## Left out

- Persistence: the local-storage read at typing-speed.service.ts:23-26 and the write effect at
  :13-16. The stored best is a constructor argument.
- Navigation: the router call at typing-speed.service.ts:50 and the result-page guard.
  `OnCountdownTick` returns the navigation payload instead.
- Stream scheduling and subscriptions. The model gives value sequences and state updates, not time.
  Left out are `timer`, `switchMap` cancellation, `distinctUntilChanged` and `share`, and the
  observable getters (`getWpm$`, `getTestText$`, `getTestStarted$`). Also left out are
  `ngAfterViewInit`/`ngOnDestroy`, `takeUntil`, and the settings form's filter and
  `distinctUntilChanged`.
- `TypingSpeed.TypingSpeedService.RunCountdown`: assumes no keystroke, restart or speed update
  arrives between two ticks of the countdown.
- `TypingSpeed.InfiniteTimerValues`: the open-ended timer is unbounded, so the model gives its
  first `ticks` values.
- `Home.Keystroke`: requires a non-empty passage once the run has started. In the source a key on
  a started, empty text reads `.value` of `undefined` (home.ts:129) and throws. The throw also ends
  the keydown subscription (home.ts:96-105), so no later key is handled. The model states neither
  the error nor the lost subscription.
- `Home.HomePage.HandleKeyboardEffect`: requires a non-empty passage once the run has started, for
  the same reason as `Home.Keystroke`; the throw and the lost keydown subscription are not modelled.
- `Home.HomePage.OnKeydown`: carries the same requirement as `Home.HomePage.HandleKeyboardEffect`,
  for the same reason.
- `Home.HomePage.HandleSettingsFormValueChangesEffect`: a failed passage lookup (home.ts:108) gives
  `ok == false` and no change, and later calls proceed normally. In the source the lookup throws.
  The throw also ends the `valueChanges` subscription (home.ts:86-92), so no later settings change
  is handled. The model does not capture that lost subscription.
- Publication of the page's text: the handler calls `testText$.next` only after a forward move
  (home.ts:141-142). On the last character (home.ts:138) and on Backspace (home.ts:139) it returns
  first, so subscribers are not told of that in-place change. The model has no notion of
  subscribers. `HomePage.HandleKeyboardEffect` updates the array in place in every case.
- `accuracy$`: only its value per text (`TypingSpeedService.Accuracy`) is modelled. Its
  `distinctUntilChanged` de-duplication is not.
- Randomness: `Math.random` in the index pick (home.ts:159-161, utils.service.ts). The pick is a
  parameter. It is required to lie within the difficulty's passage list, as `floor(random * n)` does.
- `TypingSpeed.CalculateWpm`: requires distinct timestamps. At zero elapsed time the source divides
  by zero and yields Infinity or NaN, which reals cannot express.
- Arithmetic is on reals, not IEEE doubles. Rounding error of floating-point division is not
  modelled.
- `TypingSpeed.SecondsToStringTime`: defined for seconds >= 0 only. The source's output for
  negative inputs (for example "-1:-1") is not modelled.
- Strings are sequences of Unicode scalar values. The source's `key.length`, `split("")` and
  `charCodeAt` count UTF-16 code units, so a key outside the Basic Multilingual Plane has length 2
  there and 1 here.
- The sticky historical-error flag: neither typing-speed.service.ts nor home.ts sets it, so its
  monotonicity is not stated. The records keep the flag, and counts and accuracy read it.
- The net-speed ratchet (publish only when positive), the completion event on the last character and
  the start-time bookkeeping belong to a newer home page. That page is not part of this model.
- The template's two-way binding of `difficulty` is reduced to `BindDifficulty`. When the binding
  runs relative to the form's `valueChanges` is not modelled.
- Presentational components, directives, the confetti animation, the routes, the option table in
  home.config.ts and the passage data itself.

## Findings

| source | as written | input that shows it | evidently intended | confidence | as-written member | corrected member |
|---|---|---|---|---|---|---|
| src/app/services/typing-speed.service.ts:142-143 | when no record is PENDING, returns `Math.min(-1 + 1, length)`, which is always 0 | a one-record text `[{a, CORRECT}]` gives 0 | the whole length (1 here): every character is completed | medium, not executed | `TypingSpeed.CompletedCharsOfFinishedText` | `TypingSpeed.CompletedCharsIntended` |
