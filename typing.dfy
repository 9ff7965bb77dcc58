/**
 * The typing-practice page: the word classifier that colours the reference
 * text while the user types, the words-per-minute metric, the clock display,
 * and the practice session with its start, cancel, finish and timer tick.
 */
module Typing {
  import opened Options
  import opened Text
  import opened Numbers

  /** Length of a practice session in seconds: four minutes. */
  const DURATION_SECONDS: nat := 4 * 60

  datatype Status = Correct | Error | Pending | Current

  /** One reference word and how it is shown. */
  datatype WordState = WordState(word: string, status: Status)

  /** `words[k]`, or nothing when `k` is out of range (JavaScript reads `undefined`). */
  function At(words: seq<string>, k: int): Option<string> {
    if 0 <= k < |words| then Some(words[k]) else None
  }

  /** `inputWords[j] ?? ""`. */
  function InputAt(words: seq<string>, k: int): string {
    if 0 <= k < |words| then words[k] else ""
  }

  /** Once a tokenization has no word at an index, it has none further on. */
  lemma NoWordAfterGap(words: seq<string>, j: int, k: int)
    requires IsTokenization(words)
    requires 0 <= j <= k && InputAt(words, j) == ""
    ensures InputAt(words, k) == ""
  {
  }

  /**
   * The status of reference word `k`, by the input word at the same index:
   * pending where there is none, correct where they are equal, current where
   * the last typed word differs, and an error elsewhere.
   */
  function StatusAt(targetWords: seq<string>, inputWords: seq<string>, k: nat): (r: Status)
    requires k < |targetWords|
    ensures r == Pending <==> InputAt(inputWords, k) == ""
    ensures r == Correct <==> InputAt(inputWords, k) != "" && InputAt(inputWords, k) == targetWords[k]
    ensures r == Current ==> k == |inputWords| - 1
    ensures r == Error ==> k < |inputWords| - 1
  {
    var input := InputAt(inputWords, k);
    if input == "" then Pending
    else if input == targetWords[k] then Correct
    else if k == |inputWords| - 1 then Current
    else Error
  }

  /** The index-aligned classification the page's two-pointer loop computes. */
  function Classify(targetWords: seq<string>, inputWords: seq<string>): (r: seq<WordState>)
    ensures |r| == |targetWords|
    ensures forall k :: 0 <= k < |r| ==> r[k].word == targetWords[k]
  {
    seq(|targetWords|, k requires 0 <= k < |targetWords| =>
      WordState(targetWords[k], StatusAt(targetWords, inputWords, k)))
  }

  /** `getWordStates`: splits both texts into words and aligns them. */
  method GetWordStates(practiceText: string, inputText: string) returns (states: seq<WordState>)
    ensures states == Classify(Tokenize(practiceText), Tokenize(inputText))
  {
    var inputWords := Tokenize(inputText);
    var targetWords := Tokenize(practiceText);
    states := AlignWords(targetWords, inputWords);
  }

  /**
   * The loop of `getWordStates`: walks the reference words with `i` and the
   * input words with `j`. The branches that resynchronise after an omitted or an
   * extra word are kept as written; the loop invariant
   * `i == j || InputAt(inputWords, j) == ""` shows that they are never taken,
   * which is asserted at their entry.
   */
  method AlignWords(targetWords: seq<string>, inputWords: seq<string>) returns (states: seq<WordState>)
    requires IsTokenization(inputWords)
    ensures states == Classify(targetWords, inputWords)
  {
    ghost var spec := Classify(targetWords, inputWords);
    states := [];
    var i, j := 0, 0;
    while i < |targetWords|
      invariant 0 <= j <= i <= |targetWords|
      invariant i == j || InputAt(inputWords, j) == ""
      invariant states == spec[..i]
      decreases |targetWords| - i
    {
      var target := targetWords[i];
      var input := InputAt(inputWords, j);
      assert spec[..i + 1] == states + [spec[i]];
      if input == "" {
        NoWordAfterGap(inputWords, j, i);
        states := states + [WordState(target, Pending)];
        i := i + 1;
        continue;
      }
      if i == j {
        if j == |inputWords| - 1 && input != target {
          states := states + [WordState(target, Current)];
        } else if input == target {
          states := states + [WordState(target, Correct)];
        } else {
          states := states + [WordState(target, Error)];
        }
        i, j := i + 1, j + 1;
      } else {
        assert false;
        if input == target {
          states := states + [WordState(target, Correct)];
          i, j := i + 1, j + 1;
        } else if At(targetWords, i + 1) == Some(input) {
          // the reference word was omitted from the input
          states := states + [WordState(target, Error)];
          i := i + 1;
        } else if At(inputWords, j + 1) == Some(target) {
          // the input has an extra word
          j := j + 1;
        } else if j == |inputWords| - 1 {
          states := states + [WordState(target, Current)];
          i, j := i + 1, j + 1;
        } else {
          states := states + [WordState(target, Error)];
          i, j := i + 1, j + 1;
        }
      }
    }
    assert spec[..i] == spec;
  }

  /**
   * The shape of every classification of tokenized input: pending words form a
   * suffix, and a current word is followed only by pending words (so there is at
   * most one current word).
   */
  lemma {:induction false} ClassifyShape(targetWords: seq<string>, inputWords: seq<string>, a: nat, b: nat)
    requires IsTokenization(inputWords)
    requires a < b < |targetWords|
    ensures Classify(targetWords, inputWords)[a].status == Pending ==>
              Classify(targetWords, inputWords)[b].status == Pending
    ensures Classify(targetWords, inputWords)[a].status == Current ==>
              Classify(targetWords, inputWords)[b].status == Pending
    ensures Classify(targetWords, inputWords)[a].status == Current ==>
              Classify(targetWords, inputWords)[b].status != Current
  {
    var r := Classify(targetWords, inputWords);
    if r[a].status == Pending {
      NoWordAfterGap(inputWords, a, b);
    }
    if r[a].status == Current {
      NoWordAfterGap(inputWords, |inputWords|, b);
    }
  }

  /** When the typed words are exactly the start of the reference, they are all correct and the rest pending. */
  lemma MatchingPrefix(targetWords: seq<string>, inputWords: seq<string>)
    requires inputWords != [""] && |inputWords| <= |targetWords|
    requires inputWords == targetWords[..|inputWords|]
    requires forall k :: 0 <= k < |inputWords| ==> inputWords[k] != ""
    ensures forall k :: 0 <= k < |inputWords| ==> Classify(targetWords, inputWords)[k].status == Correct
    ensures forall k :: |inputWords| <= k < |targetWords| ==> Classify(targetWords, inputWords)[k].status == Pending
  {
  }

  /** A blank input leaves every reference word pending. */
  lemma BlankInputAllPending(targetWords: seq<string>)
    ensures forall k :: 0 <= k < |targetWords| ==> Classify(targetWords, [""])[k].status == Pending
  {
  }

  /** `states.filter(s => s.status === status).length`. */
  function CountStatus(states: seq<WordState>, status: Status): (n: nat)
    ensures n <= |states|
  {
    if states == [] then 0
    else CountStatus(states[..|states| - 1], status) + (if states[|states| - 1].status == status then 1 else 0)
  }

  /** A count of correct states is bounded by the last index from which on nothing is correct. */
  lemma {:induction false} CountCorrectBound(states: seq<WordState>, m: nat)
    requires forall k :: m <= k < |states| ==> states[k].status != Correct
    ensures CountStatus(states, Correct) <= m
  {
    if |states| > m {
      var prefix := states[..|states| - 1];
      assert forall k :: m <= k < |prefix| ==> prefix[k] == states[k];
      CountCorrectBound(prefix, m);
    }
  }

  /** The correct-word count never exceeds the number of typed words, and is 0 for blank input. */
  lemma CorrectAtMostTyped(targetWords: seq<string>, inputWords: seq<string>)
    requires IsTokenization(inputWords)
    ensures CountStatus(Classify(targetWords, inputWords), Correct) <= |inputWords|
    ensures inputWords == [""] ==> CountStatus(Classify(targetWords, inputWords), Correct) == 0
  {
    var r := Classify(targetWords, inputWords);
    CountCorrectBound(r, |inputWords|);
    if inputWords == [""] {
      CountCorrectBound(r, 0);
    }
  }

  /** An omitted word is not resynchronised: the input after it is compared index by index. */
  lemma OmittedWordExample()
    ensures Classify(["el", "perro", "corre"], ["el", "corre"]) ==
              [WordState("el", Correct), WordState("perro", Current), WordState("corre", Pending)]
  {
  }

  /** An extra word is not skipped either: every later word is an error against its neighbour. */
  lemma ExtraWordExample()
    ensures Classify(["el", "perro", "corre"], ["el", "muy", "perro", "corre"]) ==
              [WordState("el", Correct), WordState("perro", Error), WordState("corre", Error)]
  {
  }

  /**
   * Words per minute, or 0 when no time has elapsed: the integer nearest to the
   * exact ratio `60 * words / elapsed`, halves rounding up,
   * `floor((120 * words + elapsed) / (2 * elapsed))`.
   */
  function Wpm(wordCount: nat, elapsedSeconds: int): (r: nat)
    ensures elapsedSeconds <= 0 ==> r == 0
    ensures elapsedSeconds > 0 ==>
              2 * r * elapsedSeconds <= 120 * wordCount + elapsedSeconds < 2 * (r + 1) * elapsedSeconds
  {
    if elapsedSeconds <= 0 then 0
    else
      RoundBounds(60 * wordCount, elapsedSeconds);
      Round(60 * wordCount, elapsedSeconds)
  }

  /** More typed words never lower the rate over the same elapsed time. */
  lemma WpmMonotone(w1: nat, w2: nat, elapsedSeconds: int)
    requires w1 <= w2
    ensures Wpm(w1, elapsedSeconds) <= Wpm(w2, elapsedSeconds)
  {
    if elapsedSeconds > 0 {
      var r1, r2 := Wpm(w1, elapsedSeconds), Wpm(w2, elapsedSeconds);
      if r1 > r2 {
        MulLeq(2 * (r2 + 1), 2 * r1, elapsedSeconds);
      }
    }
  }

  /** `a <= b` gives `a * c <= b * c` for a non-negative `c`. */
  lemma MulLeq(a: int, b: int, c: nat)
    requires a <= b
    ensures a * c <= b * c
  {
  }

  /** After exactly one minute the rate is the number of typed words. */
  lemma WpmAfterOneMinute(wordCount: nat)
    ensures Wpm(wordCount, 60) == wordCount
  {
  }

  /** A number of at least two digits: `String(n).padStart(2, "0")`. */
  function Pad2(n: nat): (r: string)
    ensures AllDigits(r) && DigitsValue(r) == n && |r| >= 2
    ensures n < 100 ==> |r| == 2
    ensures n >= 10 ==> r == NatToString(n)
    ensures n < 10 ==> r == "0" + NatToString(n)
  {
    PadZeros(NatToString(n), 2)
  }

  /** `formatTime`: minutes and seconds, each of at least two digits, around a colon; reading them back gives the time. */
  function FormatClock(seconds: nat): (r: string)
    ensures |r| >= 5 && r[|r| - 3] == ':'
    ensures AllDigits(r[..|r| - 3]) && AllDigits(r[|r| - 2..])
    ensures DigitsValue(r[..|r| - 3]) * 60 + DigitsValue(r[|r| - 2..]) == seconds
    ensures DigitsValue(r[|r| - 2..]) < 60
    ensures |r| == 3 + if seconds / 60 < 10 then 2 else |NatToString(seconds / 60)|
  {
    var mm := Pad2(seconds / 60);
    var ss := Pad2(seconds % 60);
    assert |ss| == 2;
    var r := mm + ":" + ss;
    assert r[..|r| - 3] == mm;
    assert r[|r| - 2..] == ss;
    assert DigitsValue(mm) * 60 + DigitsValue(ss) == seconds;
    r
  }

  /**
   * The number of correct words the classifier finds, which never exceeds the
   * number of typed words and is 0 for blank input.
   */
  function CorrectWords(practiceText: string, inputText: string): (n: nat)
    ensures n <= |Tokenize(inputText)|
    ensures IsBlank(inputText) ==> n == 0
  {
    CorrectAtMostTyped(Tokenize(practiceText), Tokenize(inputText));
    CountStatus(Classify(Tokenize(practiceText), Tokenize(inputText)), Correct)
  }

  /**
   * The body of the metrics effect: the correct words and the words per minute
   * over the time elapsed since the clock started at `DURATION_SECONDS`.
   */
  method ComputeMetrics(practiceText: string, inputText: string, timer: int) returns (correct: nat, wpm: nat)
    ensures correct == CorrectWords(practiceText, inputText)
    ensures wpm == Wpm(|Tokenize(inputText)|, DURATION_SECONDS - timer)
  {
    var states := GetWordStates(practiceText, inputText);
    correct := CountStatus(states, Correct);
    var inputWords := Tokenize(inputText);
    wpm := Wpm(|inputWords|, DURATION_SECONDS - timer);
  }

  /** The state of the practice page. */
  class PracticeSession {
    var practiceText: string
    var inputText: string
    var isLocked: bool
    var isRunning: bool
    var timer: int
    var wpm: nat
    var correctWords: nat
    var isLoadingText: bool

    /** The clock stays within the session, and the page is locked exactly while it runs. */
    ghost predicate Valid()
      reads this
    {
      0 <= timer <= DURATION_SECONDS && isRunning == isLocked
    }

    constructor ()
      ensures Valid()
      ensures practiceText == "" && inputText == ""
      ensures !isLocked && !isRunning && !isLoadingText
      ensures timer == DURATION_SECONDS && wpm == 0 && correctWords == 0
    {
      practiceText, inputText := "", "";
      isLocked, isRunning, isLoadingText := false, false, false;
      timer, wpm, correctWords := DURATION_SECONDS, 0, 0;
    }

    /** The start button is enabled: the page is unlocked and the text is not blank. */
    predicate CanStart()
      reads this
      ensures CanStart() <==> !isLocked && !IsBlank(practiceText)
    {
      !isLocked && Trim(practiceText) != ""
    }

    /** The cancel and finish buttons are enabled; never together with the start button. */
    predicate CanStop()
      reads this
      ensures CanStop() ==> !CanStart()
    {
      isLocked
    }

    /** The typing area accepts input, which in a valid state is exactly while the session can be stopped. */
    predicate CanType()
      reads this
      ensures CanType() ==> CanStop()
      ensures Valid() ==> (CanType() <==> CanStop())
    {
      isLocked && isRunning
    }

    /** The new-text button is enabled: unlocked and no text being loaded; never together with the stop buttons. */
    predicate CanLoadText()
      reads this
      ensures CanLoadText() ==> !CanStop()
    {
      !isLocked && !isLoadingText
    }

    /**
     * `loadRandomText` up to its `await`: a locked session ignores the request;
     * otherwise the text starts loading and "Nuevo Texto" is disabled.
     */
    method BeginLoad()
      requires Valid()
      modifies this
      ensures Valid()
      ensures old(isLocked) ==> unchanged(this)
      ensures old(CanStop()) ==> unchanged(this)
      ensures !old(isLocked) ==> isLoadingText && !CanLoadText()
      ensures practiceText == old(practiceText) && inputText == old(inputText)
      ensures isLocked == old(isLocked) && isRunning == old(isRunning)
      ensures timer == old(timer) && wpm == old(wpm) && correctWords == old(correctWords)
    {
      if isLocked {
        return;
      }
      isLoadingText := true;
    }

    /**
     * `loadRandomText` after its `await`: `fetched` is the file's text, or nothing
     * when the fetch failed. The lock is not looked at again, so a practice started
     * while the fetch was pending gets its text replaced.
     */
    method CompleteLoad(fetched: Option<string>)
      requires Valid()
      modifies this
      ensures Valid()
      ensures fetched.Some? ==> practiceText == Trim(fetched.value)
      ensures fetched.None? ==> practiceText == old(practiceText)
      ensures old(isLocked) && fetched.Some? ==> isLocked && practiceText == Trim(fetched.value)
      ensures !isLoadingText
      ensures !isLocked ==> CanLoadText()
      ensures inputText == old(inputText) && isLocked == old(isLocked) && isRunning == old(isRunning)
      ensures timer == old(timer) && wpm == old(wpm) && correctWords == old(correctWords)
    {
      if fetched.Some? {
        practiceText := Trim(fetched.value);
      }
      isLoadingText := false;
    }

    /** `startPractice`: nothing on blank text; otherwise locks, runs and resets input, clock and metrics. */
    method StartPractice()
      requires Valid()
      modifies this
      ensures Valid()
      ensures IsBlank(practiceText) ==> unchanged(this)
      ensures !IsBlank(practiceText) ==>
                isLocked && isRunning && inputText == "" && timer == DURATION_SECONDS
                && wpm == 0 && correctWords == 0
      ensures old(CanStart()) ==> CanStop() && CanType() && !CanStart() && !CanLoadText()
      ensures practiceText == old(practiceText) && isLoadingText == old(isLoadingText)
    {
      if Trim(practiceText) == "" {
        return;
      }
      isLocked, isRunning := true, true;
      inputText := "";
      timer := DURATION_SECONDS;
      wpm, correctWords := 0, 0;
    }

    /** `cancelPractice`: back to the initial state, discarding input and metrics. */
    method CancelPractice()
      requires Valid()
      modifies this
      ensures Valid()
      ensures !isLocked && !isRunning && inputText == "" && timer == DURATION_SECONDS
      ensures wpm == 0 && correctWords == 0
      ensures !CanStop() && !CanType()
      ensures CanStart() <==> !IsBlank(practiceText)
      ensures practiceText == old(practiceText) && isLoadingText == old(isLoadingText)
    {
      isLocked, isRunning := false, false;
      inputText := "";
      timer := DURATION_SECONDS;
      wpm, correctWords := 0, 0;
    }

    /** `finishPractice`: unlocks and stops, keeping the input, the clock and the metrics; a second call changes nothing. */
    method FinishPractice()
      requires Valid()
      modifies this
      ensures Valid()
      ensures !isLocked && !isRunning
      ensures !CanStop() && !CanType()
      ensures CanStart() <==> !IsBlank(practiceText)
      ensures inputText == old(inputText) && timer == old(timer)
      ensures wpm == old(wpm) && correctWords == old(correctWords)
      ensures practiceText == old(practiceText) && isLoadingText == old(isLoadingText)
    {
      isLocked, isRunning := false, false;
    }

    /** The textarea's change handler; a disabled textarea delivers no change. */
    method TypeText(text: string)
      requires Valid()
      modifies this
      ensures Valid()
      ensures old(CanType()) ==> inputText == text
      ensures !old(CanType()) ==> inputText == old(inputText)
      ensures practiceText == old(practiceText) && isLocked == old(isLocked) && isRunning == old(isRunning)
      ensures timer == old(timer) && wpm == old(wpm) && correctWords == old(correctWords)
      ensures isLoadingText == old(isLoadingText)
    {
      if isLocked && isRunning {
        inputText := text;
      }
    }

    /** The timer effect, once per second: counts down while running, and finishes the session at zero. */
    method Tick()
      requires Valid()
      modifies this
      ensures Valid()
      ensures old(isRunning) && old(timer) > 0 ==> timer == old(timer) - 1 && isRunning && isLocked
      ensures old(isRunning) && old(timer) == 0 ==> timer == 0 && !isRunning && !isLocked
      ensures !old(isRunning) ==> unchanged(this)
      ensures old(CanType()) && old(timer) == 0 ==> !CanStop() && !CanType()
      ensures inputText == old(inputText) && practiceText == old(practiceText)
      ensures wpm == old(wpm) && correctWords == old(correctWords) && isLoadingText == old(isLoadingText)
    {
      if isRunning && timer > 0 {
        timer := timer - 1;
      } else if timer == 0 && isRunning {
        FinishPractice();
      }
    }

    /**
     * The metrics effect: while running, the correct-word count from the
     * classifier and the words per minute over the elapsed time; once the session
     * has stopped the metrics are frozen.
     */
    method RefreshMetrics()
      requires Valid()
      modifies this
      ensures Valid()
      ensures !old(isRunning) ==> unchanged(this)
      ensures old(isRunning) ==> correctWords == CorrectWords(old(practiceText), old(inputText))
      ensures old(isRunning) ==> wpm == Wpm(|Tokenize(old(inputText))|, DURATION_SECONDS - old(timer))
      ensures inputText == old(inputText) && practiceText == old(practiceText) && timer == old(timer)
      ensures isLocked == old(isLocked) && isRunning == old(isRunning) && isLoadingText == old(isLoadingText)
    {
      if isRunning {
        var correct, speed := ComputeMetrics(practiceText, inputText, timer);
        correctWords := correct;
        wpm := speed;
      }
    }
  }

  /**
   * A practice started while a text is still loading: when the fetch completes
   * the session is still locked and its reference text is the fetched one.
   */
  method StartWhileLoading(first: string, fetched: string) returns (locked: bool, text: string)
    requires !IsBlank(first)
    ensures locked && text == Trim(fetched)
  {
    var session := new PracticeSession();
    session.CompleteLoad(Some(first));
    session.BeginLoad();
    assert !IsBlank(session.practiceText) by {
      assert session.practiceText != [] && !IsSpace(session.practiceText[0]);
    }
    session.StartPractice();
    session.CompleteLoad(Some(fetched));
    locked, text := session.isLocked, session.practiceText;
  }
}
