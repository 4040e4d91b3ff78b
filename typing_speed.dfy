/** The typing-speed service (src/app/services/typing-speed.service.ts): turning a passage into
    character records, counting them, accuracy, gross and net words per minute, the `M:SS` clock
    format, the key filter, the personal-best ratchet and the value sequences of the timers. */
module TypingSpeed {
  import opened Models
  import opened Numerals

  /** Printable ASCII bounds of the key filter and the countdown start (home.ts:26-28; the
      constants file itself is not part of this model). */
  const MIN_CHAR_CODE: int := 33
  const MAX_CHAR_CODE: int := 126
  const COUNTDOWN_START_AT: nat := 60

  /** Characters per standard word. */
  const STD_WORD_CHARS: real := 5.0

  // ---------------------------------------------------------------------------------------------
  // Character records

  /** `getCharsState`: one PENDING record without historical error per character of the text. */
  function GetCharsState(text: string): (r: seq<CharState>)
    ensures |r| == |text|
    ensures forall i :: 0 <= i < |r| ==> r[i] == CharState(text[i], Pending, false)
  {
    if text == [] then [] else [CharState(text[0], Pending, false)] + GetCharsState(text[1..])
  }

  /** The characters a sequence of records carries. */
  function Values(t: seq<CharState>): (s: string)
    ensures |s| == |t|
  {
    if t == [] then [] else [t[0].value] + Values(t[1..])
  }

  /** Turning a passage into records and reading back the characters gives the passage. */
  lemma {:induction false} GetCharsStateValues(text: string)
    ensures Values(GetCharsState(text)) == text
  {
    if text != [] {
      GetCharsStateValues(text[1..]);
    }
  }

  /** Number of PENDING records. */
  function PendingCount(t: seq<CharState>): (n: nat)
    ensures n <= |t|
  {
    if t == [] then 0 else (if t[0].state == Pending then 1 else 0) + PendingCount(t[1..])
  }

  /** Number of records that were ever typed wrong. */
  function WrongCount(t: seq<CharState>): (n: nat)
    ensures n <= |t|
  {
    if t == [] then 0 else (if t[0].historicalError then 1 else 0) + WrongCount(t[1..])
  }

  // ---------------------------------------------------------------------------------------------
  // `#getCharsCount`: a left fold over the records

  datatype CharsCount = CharsCount(pending: int, wrong: int, correct: int, correctForAccuracy: int)

  /** One step of the reducer: bump the two counters, recompute the two derived values
      from the whole text length. */
  function CountStep(len: nat, acc: CharsCount, c: CharState): CharsCount {
    var pending := acc.pending + (if c.state == Pending then 1 else 0);
    var wrong := acc.wrong + (if c.historicalError then 1 else 0);
    CharsCount(pending, wrong, len - wrong - pending, len - wrong)
  }

  function FoldCounts(len: nat, acc: CharsCount, s: seq<CharState>): CharsCount
    decreases |s|
  {
    if s == [] then acc else FoldCounts(len, CountStep(len, acc, s[0]), s[1..])
  }

  /** The reduce seeded with `{0, 0, 0, len}`: the empty text keeps the seed, all zeros; any other
      text ends with `correct` and `correctForAccuracy` derived from the whole length and the two
      counters. */
  function GetCharsCount(t: seq<CharState>): (r: CharsCount)
    ensures t == [] ==> r == CharsCount(0, 0, 0, 0)
    ensures t != [] ==> r.correct == |t| - r.wrong - r.pending && r.correctForAccuracy == |t| - r.wrong
  {
    FoldCountsSums(|t|, CharsCount(0, 0, 0, |t|), t);
    FoldCounts(|t|, CharsCount(0, 0, 0, |t|), t)
  }

  lemma {:induction false} FoldCountsSums(len: nat, acc: CharsCount, s: seq<CharState>)
    decreases |s|
    ensures FoldCounts(len, acc, s).pending == acc.pending + PendingCount(s)
    ensures FoldCounts(len, acc, s).wrong == acc.wrong + WrongCount(s)
    ensures s != [] ==> FoldCounts(len, acc, s).correct
                          == len - FoldCounts(len, acc, s).wrong - FoldCounts(len, acc, s).pending
    ensures s != [] ==> FoldCounts(len, acc, s).correctForAccuracy == len - FoldCounts(len, acc, s).wrong
  {
    if s != [] {
      FoldCountsSums(len, CountStep(len, acc, s[0]), s[1..]);
    }
  }

  /** The reducer counts PENDING records and historically wrong records; `correct` and
      `correctForAccuracy` are the text length less those counts. */
  lemma CharsCountSpec(t: seq<CharState>)
    ensures GetCharsCount(t).pending == PendingCount(t)
    ensures GetCharsCount(t).wrong == WrongCount(t)
    ensures GetCharsCount(t).correct == |t| - WrongCount(t) - PendingCount(t)
    ensures GetCharsCount(t).correctForAccuracy == |t| - WrongCount(t)
  {
    FoldCountsSums(|t|, CharsCount(0, 0, 0, |t|), t);
  }

  /** What `rightVsWrongChars$` emits for one text. */
  datatype CharTally = CharTally(correctChars: int, wrongChars: int)

  /** `rightVsWrongChars$` for one emitted text: nothing for an empty text (it is filtered out),
      otherwise the correct and wrong counts of the reducer. */
  function RightVsWrong(t: seq<CharState>): (r: Option<CharTally>)
    ensures r.None? <==> t == []
    ensures r.Some? ==> r.value.wrongChars == WrongCount(t)
                        && r.value.correctChars == |t| - WrongCount(t) - PendingCount(t)
  {
    CharsCountSpec(t);
    if |t| > 0 then
      var c := GetCharsCount(t);
      Some(CharTally(c.correct, c.wrong))
    else None
  }

  /** The tallies of a sequence of emitted texts, empty texts dropped. */
  function Tallies(emitted: seq<seq<CharState>>): seq<CharTally> {
    if emitted == [] then []
    else
      match RightVsWrong(emitted[0])
      case Some(tally) => [tally] + Tallies(emitted[1..])
      case None => Tallies(emitted[1..])
  }

  /** Everything `rightVsWrongChars$` emits for a sequence of texts: `{0, 0}` first, then one
      tally per non-empty text. */
  function RightVsWrongStream(emitted: seq<seq<CharState>>): (r: seq<CharTally>)
    ensures |r| >= 1 && r[0] == CharTally(0, 0)
  {
    [CharTally(0, 0)] + Tallies(emitted)
  }

  /** The emitted texts that pass the filter, in order. */
  function NonEmptyTexts(emitted: seq<seq<CharState>>): (r: seq<seq<CharState>>)
    ensures |r| <= |emitted|
    ensures forall i :: 0 <= i < |r| ==> r[i] != []
  {
    if emitted == [] then []
    else if emitted[0] != [] then [emitted[0]] + NonEmptyTexts(emitted[1..])
    else NonEmptyTexts(emitted[1..])
  }

  lemma {:induction false} TalliesDropEmpty(emitted: seq<seq<CharState>>)
    ensures Tallies(emitted) == Tallies(NonEmptyTexts(emitted))
  {
    if emitted != [] {
      var rest := NonEmptyTexts(emitted[1..]);
      TalliesDropEmpty(emitted[1..]);
      if emitted[0] != [] {
        assert NonEmptyTexts(emitted) == [emitted[0]] + rest;
        assert ([emitted[0]] + rest)[1..] == rest;
      } else {
        assert NonEmptyTexts(emitted) == rest;
      }
    }
  }

  /** Empty texts, such as the `[]` the text holder starts with, add nothing to the stream: it is
      the stream of the non-empty texts alone, which `RightVsWrongStreamOfNonEmpty` describes. */
  lemma RightVsWrongStreamDropsEmpty(emitted: seq<seq<CharState>>)
    ensures RightVsWrongStream(emitted) == RightVsWrongStream(NonEmptyTexts(emitted))
  {
    TalliesDropEmpty(emitted);
  }

  /** When every emitted text is non-empty, the stream holds exactly one tally per text, in order,
      after the initial `{0, 0}`. */
  lemma {:induction false} RightVsWrongStreamOfNonEmpty(emitted: seq<seq<CharState>>)
    requires forall i :: 0 <= i < |emitted| ==> emitted[i] != []
    ensures |RightVsWrongStream(emitted)| == |emitted| + 1
    ensures forall i :: 0 <= i < |emitted| ==>
              RightVsWrongStream(emitted)[i + 1]
              == CharTally(|emitted[i]| - WrongCount(emitted[i]) - PendingCount(emitted[i]), WrongCount(emitted[i]))
  {
    if emitted != [] {
      RightVsWrongStreamOfNonEmpty(emitted[1..]);
      assert forall i :: 1 <= i < |emitted| ==> emitted[1..][i - 1] == emitted[i];
    }
  }

  // ---------------------------------------------------------------------------------------------
  // Rounding, accuracy and words per minute

  /** `Math.round`: the nearest integer, halves rounded up. */
  function Round(x: real): (r: int)
    ensures x - 0.5 < r as real <= x + 0.5
  {
    (x + 0.5).Floor
  }

  lemma RoundMonotonic(x: real, y: real)
    requires x <= y
    ensures Round(x) <= Round(y)
  {
  }

  /** `#getAccuracy`: 0 when every record is PENDING or every record was typed wrong (this covers
      the empty text); otherwise the rounded percentage of never-wrong records over the whole text. */
  function GetAccuracy(t: seq<CharState>): (r: int)
    ensures 0 <= r <= 100
    ensures PendingCount(t) == |t| || WrongCount(t) == |t| ==> r == 0
    ensures PendingCount(t) != |t| && WrongCount(t) != |t| ==>
              r == Round(((|t| - WrongCount(t)) * 100) as real / |t| as real)
  {
    CharsCountSpec(t);
    var c := GetCharsCount(t);
    if c.pending == |t| || c.correctForAccuracy == 0 then 0
    else
      PercentInRange(c.correctForAccuracy, |t|);
      Round((c.correctForAccuracy * 100) as real / |t| as real)
  }

  /** A part of a positive whole, as a percentage, rounds into 0..100. */
  lemma PercentInRange(part: int, whole: int)
    requires 0 <= part <= whole && whole > 0
    ensures 0 <= Round((part * 100) as real / whole as real) <= 100
  {
    var x := (part * 100) as real / whole as real;
    assert x * whole as real == (part * 100) as real;
    assert x <= 100.0 by {
      if x > 100.0 {
        assert x * whole as real > 100.0 * whole as real;
      }
    }
    RoundMonotonic(0.0, x);
    RoundMonotonic(x, 100.0);
  }

  /** A started text with no historical error has full accuracy. */
  lemma AccuracyWithoutErrors(t: seq<CharState>)
    requires WrongCount(t) == 0 && PendingCount(t) < |t|
    ensures GetAccuracy(t) == 100
  {
    var n := |t|;
    assert PendingCount(t) != n && WrongCount(t) != n;
    var r := GetAccuracy(t);
    assert r == Round(((n - WrongCount(t)) * 100) as real / n as real);
    assert n - WrongCount(t) == n;
    FullPercent(n);
  }

  lemma FullPercent(n: int)
    requires n > 0
    ensures (n * 100) as real / n as real == 100.0
  {
  }

  /** `calculateWpm`: characters per five, over minutes elapsed between the two millisecond
      timestamps. Stated by what it solves: the result times the elapsed milliseconds is
      12000 times the character count. */
  function CalculateWpm(charCount: int, startTime: int, endTime: int): (r: real)
    requires endTime != startTime
    ensures r * (endTime - startTime) as real == 12000.0 * charCount as real
  {
    var timeInMs := (endTime - startTime) as real;
    var timeInMinutes := timeInMs / (1000.0 * 60.0);
    var wordCount := charCount as real / STD_WORD_CHARS;
    assert timeInMinutes * 60000.0 == timeInMs;
    assert wordCount * 5.0 == charCount as real;
    wordCount / timeInMinutes
  }

  /** More characters over the same positive elapsed time give at least the same speed, and
      speed is never negative. */
  lemma WpmMonotonicInChars(c1: nat, c2: nat, startTime: int, endTime: int)
    requires c1 <= c2 && endTime > startTime
    ensures 0.0 <= CalculateWpm(c1, startTime, endTime) <= CalculateWpm(c2, startTime, endTime)
  {
    var d := (endTime - startTime) as real;
    var w1 := CalculateWpm(c1, startTime, endTime);
    var w2 := CalculateWpm(c2, startTime, endTime);
    assert w1 * d == 12000.0 * c1 as real;
    assert w2 * d == 12000.0 * c2 as real;
    assert (w2 - w1) * d == 12000.0 * (c2 - c1) as real;
  }

  /** `calculateNetWpm`: gross speed scaled by the accuracy percentage, rounded. */
  function CalculateNetWpm(wpm: real, accuracy: real): (r: int)
    ensures wpm * accuracy / 100.0 - 0.5 < r as real <= wpm * accuracy / 100.0 + 0.5
  {
    Round(wpm * (accuracy / 100.0))
  }

  /** For a non-negative speed and an accuracy in 0..100, net speed lies between 0 and the
      rounded gross speed. */
  lemma NetWpmBounds(wpm: real, accuracy: real)
    requires wpm >= 0.0 && 0.0 <= accuracy <= 100.0
    ensures 0 <= CalculateNetWpm(wpm, accuracy) <= Round(wpm)
  {
    var x := wpm * (accuracy / 100.0);
    assert 0.0 <= x <= wpm;
    RoundMonotonic(0.0, x);
    RoundMonotonic(x, wpm);
  }

  lemma WpmExamples()
    ensures CalculateWpm(5, 0, 60000) == 1.0
    ensures CalculateWpm(25, 0, 30000) == 10.0
    ensures CalculateNetWpm(10.0, 100.0) == 10
    ensures CalculateNetWpm(10.0, 50.0) == 5
    ensures CalculateNetWpm(10.0, 0.0) == 0
  {
  }

  // ---------------------------------------------------------------------------------------------
  // Completed characters

  /** `#getFirstPendingCharIndex` (`findIndex`): the index of the first PENDING record, or -1. */
  function FirstPendingIndex(t: seq<CharState>): (r: int)
    ensures -1 <= r < |t|
    ensures r == -1 <==> forall i :: 0 <= i < |t| ==> t[i].state != Pending
    ensures r >= 0 ==> t[r].state == Pending && forall i :: 0 <= i < r ==> t[i].state != Pending
  {
    if t == [] then -1
    else if t[0].state == Pending then 0
    else
      var k := FirstPendingIndex(t[1..]);
      if k == -1 then -1 else k + 1
  }

  /** Records before the first PENDING one are not PENDING; when one exists, the result is its index. */
  predicate IsFirstPending(t: seq<CharState>, n: nat) {
    n < |t| && t[n].state == Pending && forall i :: 0 <= i < n ==> t[i].state != Pending
  }

  /** `getCompletedChars` as written: the index of the first PENDING record, or
      `min(-1 + 1, length)`, which is 0, when no record is PENDING. */
  function GetCompletedChars(t: seq<CharState>): (r: nat)
    ensures (exists i :: 0 <= i < |t| && t[i].state == Pending) ==> IsFirstPending(t, r)
    ensures (forall i :: 0 <= i < |t| ==> t[i].state != Pending) ==> r == 0
  {
    if FirstPendingIndex(t) == -1 then
      var m := if FirstPendingIndex(t) + 1 < |t| then FirstPendingIndex(t) + 1 else |t|;
      m
    else FirstPendingIndex(t)
  }

  /** A fully typed passage reports no completed characters. */
  lemma CompletedCharsOfFinishedText()
    ensures GetCompletedChars([CharState('a', Correct, false)]) == 0
    ensures CompletedCharsIntended([CharState('a', Correct, false)]) == 1
  {
    assert FirstPendingIndex([CharState('a', Correct, false)][1..]) == -1;
  }

  /** The count the branch evidently aims at: the length of the longest prefix of records that are
      not PENDING, which is the whole text when nothing is PENDING. */
  function CompletedCharsIntended(t: seq<CharState>): (r: nat)
    ensures r <= |t|
    ensures forall i :: 0 <= i < r ==> t[i].state != Pending
    ensures r < |t| ==> t[r].state == Pending
  {
    if FirstPendingIndex(t) == -1 then |t| else FirstPendingIndex(t)
  }

  /** The two agree whenever some record is still PENDING. */
  lemma CompletedCharsAgreeWhilePending(t: seq<CharState>)
    requires exists i :: 0 <= i < |t| && t[i].state == Pending
    ensures GetCompletedChars(t) == CompletedCharsIntended(t)
  {
  }

  /** Over a fresh passage nothing is completed, nothing is wrong, and accuracy is 0. */
  lemma FreshPassageMetrics(text: string)
    ensures PendingCount(GetCharsState(text)) == |text|
    ensures WrongCount(GetCharsState(text)) == 0
    ensures GetCompletedChars(GetCharsState(text)) == 0
    ensures GetAccuracy(GetCharsState(text)) == 0
  {
    FreshCounts(GetCharsState(text));
  }

  lemma {:induction false} FreshCounts(t: seq<CharState>)
    requires forall i :: 0 <= i < |t| ==> t[i].state == Pending && !t[i].historicalError
    ensures PendingCount(t) == |t| && WrongCount(t) == 0
  {
    if t != [] {
      FreshCounts(t[1..]);
    }
  }

  // ---------------------------------------------------------------------------------------------
  // Clock format

  /** `secondsToStringTime`: whole minutes, a colon, then the remaining seconds padded to two digits. */
  function SecondsToStringTime(seconds: nat): (r: string)
    ensures |r| >= 4 && r[|r| - 3] == ':'
  {
    NatToString(seconds / 60) + ":" + PadStart(NatToString(seconds % 60), 2, '0')
  }

  /** Reads `M:SS` back: decimal minutes, a colon, exactly two digits of seconds below 60. */
  function ParseTime(s: string): Option<nat> {
    if |s| < 4 || s[|s| - 3] != ':' then None else ParseFields(s[..|s| - 3], s[|s| - 2..])
  }

  /** The minutes and seconds fields either side of the colon. */
  function ParseFields(minutes: string, secs: string): Option<nat> {
    if AllDigits(minutes) && AllDigits(secs) && DigitsValue(secs) < 60
    then Some(DigitsValue(minutes) * 60 + DigitsValue(secs))
    else None
  }

  /** The text before the colon is the decimal minute count, without a leading zero once it has
      more than one digit; the two characters after it are the seconds within the minute. */
  lemma SecondsToStringTimeFields(seconds: nat)
    ensures var r := SecondsToStringTime(seconds);
            AllDigits(r[..|r| - 3]) && DigitsValue(r[..|r| - 3]) == seconds / 60 &&
            AllDigits(r[|r| - 2..]) && DigitsValue(r[|r| - 2..]) == seconds % 60
    ensures |SecondsToStringTime(seconds)| > 4 ==> SecondsToStringTime(seconds)[0] != '0'
  {
    var m := NatToString(seconds / 60);
    var ss := PadStart(NatToString(seconds % 60), 2, '0');
    TwoDigitPadding(seconds % 60);
    NatToStringValue(seconds / 60);
    var r := SecondsToStringTime(seconds);
    assert r == m + ":" + ss;
    assert r[..|r| - 3] == m;
    assert r[|r| - 2..] == ss;
    assert |r| == |m| + 3 && r[0] == m[0];
  }

  /** Formatting then parsing gives back the seconds. */
  lemma SecondsToStringTimeRoundTrip(seconds: nat)
    ensures ParseTime(SecondsToStringTime(seconds)) == Some(seconds)
  {
    SecondsToStringTimeFields(seconds);
  }

  /** Different second counts never display the same. */
  lemma SecondsToStringTimeInjective(a: nat, b: nat)
    requires SecondsToStringTime(a) == SecondsToStringTime(b)
    ensures a == b
  {
    SecondsToStringTimeRoundTrip(a);
    SecondsToStringTimeRoundTrip(b);
  }

  lemma SecondsToStringTimeExamples()
    ensures SecondsToStringTime(60) == "1:00"
    ensures SecondsToStringTime(65) == "1:05"
    ensures SecondsToStringTime(9) == "0:09"
    ensures SecondsToStringTime(0) == "0:00"
  {
  }

  // ---------------------------------------------------------------------------------------------
  // Key filter

  predicate IsPrintableAscii(c: char) {
    MIN_CHAR_CODE <= c as int <= MAX_CHAR_CODE
  }

  /** `isCharAllowed`: a single-character key or the Backspace code, whose first character is
      printable ASCII or whose code is Space. `charCodeAt(0)` of an empty key is NaN, which fails
      both comparisons. */
  function IsCharAllowed(e: KeyEvent): (r: bool)
    ensures r ==> |e.key| >= 1
    ensures r && |e.key| != 1 ==> e.code == "Backspace"
    ensures |e.key| == 1 && IsPrintableAscii(e.key[0]) ==> r
  {
    var isBackspace := e.code == "Backspace";
    var isSpace := e.code == "Space";
    var codeIsAllowed := (|e.key| > 0 && IsPrintableAscii(e.key[0])) || isSpace;
    (|e.key| == 1 || isBackspace) && codeIsAllowed
  }

  /** A multi-character key name is accepted only with the Backspace code, and a control character
      only with the Space code. */
  lemma IsCharAllowedCases(e: KeyEvent)
    ensures |e.key| > 1 ==> (IsCharAllowed(e) <==> e.code == "Backspace" && IsPrintableAscii(e.key[0]))
    ensures |e.key| == 1 ==> (IsCharAllowed(e) <==> IsPrintableAscii(e.key[0]) || e.code == "Space")
    ensures |e.key| == 0 ==> !IsCharAllowed(e)
  {
  }

  lemma IsCharAllowedExamples()
    ensures IsCharAllowed(KeyEvent("a", "KeyA"))
    ensures IsCharAllowed(KeyEvent("Backspace", "Backspace"))
    ensures IsCharAllowed(KeyEvent(" ", "Space"))
    ensures !IsCharAllowed(KeyEvent("Shift", "ShiftLeft"))
    ensures !IsCharAllowed(KeyEvent("", "KeyA"))
  {
  }

  // ---------------------------------------------------------------------------------------------
  // Personal best

  datatype BestOutcome = BestOutcome(updated: bool, best: Option<real>)

  /** `shouldUpdatePersonalBest` over a possibly absent stored best: nothing happens for an absent
      speed; a first run (no stored best) with a positive speed, or a speed above the stored best,
      replaces the best and reports true. */
  function PersonalBestStep(best: Option<real>, wpm: Option<real>): (o: BestOutcome)
    ensures o.updated ==> wpm.Some? && o.best == wpm
    ensures !o.updated ==> o.best == best
    ensures best.Some? && wpm.Some? ==> (o.updated <==> wpm.value > best.value)
    ensures wpm.None? ==> !o.updated
  {
    match wpm
    case None => BestOutcome(false, best)
    case Some(w) =>
      var isFirstTime := best.None? && w > 0.0;
      var isNewPersonalBest := best.Some? && w > best.value;
      if isFirstTime || isNewPersonalBest then BestOutcome(true, Some(w)) else BestOutcome(false, best)
  }

  /** Against a stored number the best only ratchets upward: it becomes the larger of the two. */
  lemma PersonalBestRatchet(best: real, wpm: Option<real>)
    ensures PersonalBestStep(Some(best), wpm).best.Some?
    ensures PersonalBestStep(Some(best), wpm).best.value >= best
    ensures wpm.Some? ==> PersonalBestStep(Some(best), wpm).best.value == if wpm.value > best then wpm.value else best
  {
  }

  /** Offering the same speed twice: the second call reports false and changes nothing. */
  lemma PersonalBestIdempotent(best: Option<real>, wpm: Option<real>)
    ensures var o := PersonalBestStep(best, wpm);
            !PersonalBestStep(o.best, wpm).updated && PersonalBestStep(o.best, wpm).best == o.best
  {
  }

  /** Runs of 50, 60 and then 40 against a stored 0: the first two are new bests, the third is not. */
  lemma PersonalBestExamples()
    ensures PersonalBestStep(Some(0.0), Some(50.0)) == BestOutcome(true, Some(50.0))
    ensures PersonalBestStep(Some(50.0), Some(60.0)) == BestOutcome(true, Some(60.0))
    ensures PersonalBestStep(Some(60.0), Some(40.0)) == BestOutcome(false, Some(60.0))
    ensures PersonalBestStep(Some(60.0), None) == BestOutcome(false, Some(60.0))
  {
  }

  // ---------------------------------------------------------------------------------------------
  // Timer value sequences

  /** `scan(acc => acc - 1, seed)` over the ticks followed by `takeWhile(v => v >= 0)`. */
  function ScanDown(seed: int): (r: seq<nat>)
    decreases seed
  {
    if seed - 1 < 0 then [] else [seed - 1] + ScanDown(seed - 1)
  }

  lemma {:induction false} ScanDownSpec(seed: nat)
    ensures |ScanDown(seed)| == seed
    ensures forall i :: 0 <= i < seed ==> ScanDown(seed)[i] == seed - 1 - i
  {
    if seed > 0 {
      ScanDownSpec(seed - 1);
    }
  }

  /** Values of `countdown$` before formatting: 60 down to 0 while started, a single 60 otherwise. */
  function CountdownValues(started: bool): (r: seq<nat>)
    ensures started ==> |r| == COUNTDOWN_START_AT + 1 && r[0] == COUNTDOWN_START_AT && r[|r| - 1] == 0
    ensures !started ==> r == [COUNTDOWN_START_AT]
  {
    if started then
      ScanDownSpec(COUNTDOWN_START_AT + 1);
      ScanDown(COUNTDOWN_START_AT + 1)
    else [COUNTDOWN_START_AT]
  }

  /** While started the countdown emits 60, 59, ..., 0, each once, and 0 only as its last value,
      which is where the completion action runs. */
  lemma CountdownSpec()
    ensures |CountdownValues(true)| == COUNTDOWN_START_AT + 1
    ensures forall i :: 0 <= i < |CountdownValues(true)| ==> CountdownValues(true)[i] == COUNTDOWN_START_AT - i
    ensures forall i :: 0 <= i < |CountdownValues(true)| ==> (CountdownValues(true)[i] == 0 <==> i == COUNTDOWN_START_AT)
    ensures CountdownValues(false) == [COUNTDOWN_START_AT]
  {
    ScanDownSpec(COUNTDOWN_START_AT + 1);
  }

  /** Any 61 values counting down from 60 are the started countdown. */
  lemma CountdownValuesAre(emitted: seq<nat>)
    requires |emitted| == COUNTDOWN_START_AT + 1
    requires forall i :: 0 <= i < |emitted| ==> emitted[i] == COUNTDOWN_START_AT - i
    ensures emitted == CountdownValues(true)
  {
    CountdownSpec();
  }

  /** `map(secondsToStringTime)` over a value sequence. */
  function TimeStrings(values: seq<nat>): (r: seq<string>)
    ensures |r| == |values|
    ensures forall i :: 0 <= i < |r| ==> r[i] == SecondsToStringTime(values[i])
  {
    if values == [] then [] else [SecondsToStringTime(values[0])] + TimeStrings(values[1..])
  }

  /** Every string of a formatted sequence parses back to its value. */
  lemma TimeStringsParse(values: seq<nat>)
    ensures forall i :: 0 <= i < |values| ==> ParseTime(TimeStrings(values)[i]) == Some(values[i])
  {
    forall i | 0 <= i < |values|
      ensures ParseTime(TimeStrings(values)[i]) == Some(values[i])
    {
      SecondsToStringTimeRoundTrip(values[i]);
    }
  }

  /** The first `ticks` values of `infiniteTimer$`: 0, 1, 2, ... while started, a single 0 otherwise. */
  function InfiniteTimerValues(started: bool, ticks: nat): seq<nat> {
    if started then seq(ticks, i => i) else [0]
  }

  /** `time$`: the countdown in TIMED mode, the open-ended timer otherwise (its first `ticks` values).
      The i-th value is 60 - i in TIMED mode (counting down from 60) and i in PASSAGE mode (counting
      up from 0); a stopped clock shows its start value only. */
  function TimeValues(mode: Mode, started: bool, ticks: nat): (r: seq<nat>)
    ensures !started ==> r == [if mode == Timed then COUNTDOWN_START_AT else 0]
    ensures started && mode == Timed ==> |r| == COUNTDOWN_START_AT + 1
    ensures started && mode == Passage ==> |r| == ticks
    ensures forall i :: 0 <= i < |r| ==> r[i] == if mode == Timed then COUNTDOWN_START_AT - i else i
  {
    if mode == Timed then
      CountdownSpec();
      CountdownValues(started)
    else InfiniteTimerValues(started, ticks)
  }

  /** A started TIMED clock shows "1:00" first and "0:00" last, 61 values in all. */
  lemma CountdownDisplay()
    ensures var shown := TimeStrings(TimeValues(Timed, true, 0));
            |shown| == 61 && shown[0] == "1:00" && shown[60] == "0:00"
  {
    CountdownSpec();
    var vs := CountdownValues(true);
    assert TimeValues(Timed, true, 0) == vs;
    assert vs[0] == 60 && vs[60] == 0;
    var shown := TimeStrings(vs);
    assert shown[0] == SecondsToStringTime(60);
    assert shown[60] == SecondsToStringTime(0);
    SecondsToStringTimeExamples();
  }

  /** A started PASSAGE clock shows "0:00" first and, tick by tick, a string that reads back as the
      elapsed seconds. */
  lemma PassageDisplay(ticks: nat)
    ensures var shown := TimeStrings(TimeValues(Passage, true, ticks));
            |shown| == ticks
            && (forall i :: 0 <= i < ticks ==> ParseTime(shown[i]) == Some(i))
            && (ticks > 0 ==> shown[0] == "0:00")
  {
    var vs := InfiniteTimerValues(true, ticks);
    var shown := TimeStrings(vs);
    assert TimeValues(Passage, true, ticks) == vs;
    assert forall i :: 0 <= i < ticks ==> ParseTime(shown[i]) == Some(i) by {
      TimeStringsParse(vs);
    }
    assert ticks > 0 ==> shown[0] == "0:00" by {
      if ticks > 0 {
        ZeroShown();
      }
    }
  }

  /** A started PASSAGE clock never shows the same string twice. */
  lemma PassageDisplayDistinct(ticks: nat)
    ensures var shown := TimeStrings(TimeValues(Passage, true, ticks));
            forall i, j :: 0 <= i < j < |shown| ==> shown[i] != shown[j]
  {
    var vs := InfiniteTimerValues(true, ticks);
    assert TimeValues(Passage, true, ticks) == vs;
    TimeStringsDistinct(vs);
  }

  /** Distinct values format to distinct strings. */
  lemma TimeStringsDistinct(values: seq<nat>)
    requires forall i, j :: 0 <= i < j < |values| ==> values[i] != values[j]
    ensures forall i, j :: 0 <= i < j < |values| ==> TimeStrings(values)[i] != TimeStrings(values)[j]
  {
    TimeStringsParse(values);
  }

  lemma ZeroShown()
    ensures SecondsToStringTime(0) == "0:00"
  {
    SecondsToStringTimeExamples();
  }

  /** A stopped clock shows "1:00" in TIMED mode and "0:00" in PASSAGE mode. */
  lemma StoppedDisplay(ticks: nat)
    ensures TimeStrings(TimeValues(Timed, false, ticks)) == ["1:00"]
    ensures TimeStrings(TimeValues(Passage, false, ticks)) == ["0:00"]
  {
    SecondsToStringTimeExamples();
  }

  // ---------------------------------------------------------------------------------------------
  // The service's state

  /** The service's state holders and the personal best. */
  class TypingSpeedService {
    var wpm: real
    var testText: seq<CharState>
    var testStarted: bool
    var mode: Mode
    var personalBest: real

    /** The stored best is read once: absent (or zero) gives 0. */
    constructor (stored: Option<real>)
      ensures wpm == 0.0 && testText == [] && !testStarted && mode == Timed
      ensures personalBest == stored.GetOr(0.0)
    {
      wpm := 0.0;
      testText := [];
      testStarted := false;
      mode := Timed;
      personalBest := if stored.Some? && stored.value != 0.0 then stored.value else 0.0;
    }

    method UpdateWpm(w: real)
      modifies this`wpm
      ensures wpm == w
    {
      wpm := w;
    }

    method UpdateTestText(t: seq<CharState>)
      modifies this`testText
      ensures testText == t
    {
      testText := t;
    }

    method UpdateTestStarted(started: bool)
      modifies this`testStarted
      ensures testStarted == started
    {
      testStarted := started;
    }

    method UpdateMode(m: Mode)
      modifies this`mode
      ensures mode == m
    {
      mode := m;
    }

    /** Accuracy of the current text, as `accuracy$` publishes it. */
    function Accuracy(): (r: int)
      reads this
      ensures 0 <= r <= 100
    {
      GetAccuracy(testText)
    }

    /** The personal best is a number here, never null, so the first-time branch never fires: a new
        best is reported exactly when the speed is present and above the stored best. */
    method ShouldUpdatePersonalBest(w: Option<real>) returns (updated: bool)
      modifies this`personalBest
      ensures updated <==> w.Some? && w.value > old(personalBest)
      ensures personalBest == if updated then w.value else old(personalBest)
      ensures personalBest >= old(personalBest)
      ensures Some(personalBest) == PersonalBestStep(Some(old(personalBest)), w).best
    {
      if w.None? {
        return false;
      }
      var current: Option<real> := Some(personalBest);
      var isFirstTime := w.value > 0.0 && current.None?;
      var isNewPersonalBest := current.Some? && w.value > current.value;
      if isFirstTime || isNewPersonalBest {
        personalBest := w.value;
        return true;
      }
      return false;
    }

    /** The `tap` of `countdown$` for one value: at 0 the personal best is checked against the
        latest published speed and the navigation state `isPersonalBest` is produced; other values
        do nothing. */
    method OnCountdownTick(countdown: int) returns (navigation: Option<bool>)
      modifies this`personalBest
      ensures navigation.Some? <==> countdown == 0
      ensures countdown == 0 ==> navigation.value == (wpm > old(personalBest))
      ensures personalBest == if countdown == 0 && wpm > old(personalBest) then wpm else old(personalBest)
    {
      navigation := None;
      if countdown == 0 {
        var isPersonalBest := ShouldUpdatePersonalBest(Some(wpm));
        navigation := Some(isPersonalBest);
      }
    }

    /** A whole started countdown, tick by tick with no other event in between: it shows "1:00"
        down to "0:00" and navigates exactly once, carrying whether the published speed beat the
        best. */
    method RunCountdown() returns (display: seq<string>, navigations: seq<bool>)
      requires testStarted
      modifies this`personalBest
      ensures display == TimeStrings(CountdownValues(true))
      ensures navigations == [wpm > old(personalBest)]
      ensures personalBest == if wpm > old(personalBest) then wpm else old(personalBest)
    {
      var emitted: seq<nat> := [];
      navigations := [];
      var acc: int := COUNTDOWN_START_AT + 1;
      while acc - 1 >= 0
        invariant 0 <= acc <= COUNTDOWN_START_AT + 1
        invariant |emitted| == COUNTDOWN_START_AT + 1 - acc
        invariant forall i :: 0 <= i < |emitted| ==> emitted[i] == COUNTDOWN_START_AT - i
        invariant navigations == if acc == 0 then [wpm > old(personalBest)] else []
        invariant personalBest == if acc == 0 && wpm > old(personalBest) then wpm else old(personalBest)
      {
        acc := acc - 1;
        var nav := OnCountdownTick(acc);
        if nav.Some? {
          navigations := navigations + [nav.value];
        }
        emitted := emitted + [acc];
      }
      CountdownValuesAre(emitted);
      display := TimeStrings(emitted);
    }
  }
}
