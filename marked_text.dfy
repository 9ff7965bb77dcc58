/**
 * The marked-text component's own classifier: each reference word is compared
 * with the input word at the same index, the first word past the input is the
 * current one, and an input longer than the reference makes the last reference
 * word current.
 */
module MarkedText {
  import opened Text
  import opened Typing

  /** The status the loop gives word `k`, before the override for overlong input. */
  function LoopStatusAt(targetWords: seq<string>, inputWords: seq<string>, k: nat): (r: Status)
    requires k < |targetWords|
    ensures r == Current <==> k == |inputWords|
    ensures r == Correct <==> StatusAt(targetWords, inputWords, k) == Correct
    ensures k != |inputWords| && k != |inputWords| - 1 ==> r == StatusAt(targetWords, inputWords, k)
  {
    var input := InputAt(inputWords, k);
    if input == "" then (if k == |inputWords| then Current else Pending)
    else if input == targetWords[k] then Correct
    else Error
  }

  /** The loop's statuses, then the last one replaced by `Current` when the input has more words than the reference. */
  function MarkedStatusAt(targetWords: seq<string>, inputWords: seq<string>, k: nat): (r: Status)
    requires k < |targetWords|
    ensures r == Current <==> k == |inputWords| || (k == |targetWords| - 1 && |inputWords| > |targetWords|)
    ensures |inputWords| <= |targetWords| ==> r == LoopStatusAt(targetWords, inputWords, k)
  {
    if k == |targetWords| - 1 && |inputWords| > |targetWords| then Current
    else LoopStatusAt(targetWords, inputWords, k)
  }

  /** What the component shows: one state per reference word, in order. */
  function MarkedClassify(targetWords: seq<string>, inputWords: seq<string>): (r: seq<WordState>)
    ensures |r| == |targetWords|
    ensures forall k :: 0 <= k < |r| ==> r[k].word == targetWords[k]
  {
    seq(|targetWords|, k requires 0 <= k < |targetWords| =>
      WordState(targetWords[k], MarkedStatusAt(targetWords, inputWords, k)))
  }

  /** `getWordStates` of the component: splits both texts into words and marks them. */
  method GetMarkedStates(text: string, inputText: string) returns (states: seq<WordState>)
    ensures states == MarkedClassify(Tokenize(text), Tokenize(inputText))
  {
    var inputWords := Tokenize(inputText);
    var targetWords := Tokenize(text);
    states := MarkWords(targetWords, inputWords);
  }

  /** The loop that pushes one state per reference word, and the in-place override of the last one. */
  method MarkWords(targetWords: seq<string>, inputWords: seq<string>) returns (states: seq<WordState>)
    ensures states == MarkedClassify(targetWords, inputWords)
  {
    states := [];
    for i := 0 to |targetWords|
      invariant |states| == i
      invariant forall k :: 0 <= k < i ==>
                  states[k] == WordState(targetWords[k], LoopStatusAt(targetWords, inputWords, k))
    {
      var target := targetWords[i];
      var input := InputAt(inputWords, i);
      if input == "" {
        if i == |inputWords| {
          states := states + [WordState(target, Current)];
        } else {
          states := states + [WordState(target, Pending)];
        }
      } else if input == target {
        states := states + [WordState(target, Correct)];
      } else {
        states := states + [WordState(target, Error)];
      }
    }
    if |inputWords| > |targetWords| && |states| > 0 {
      var last := |states| - 1;
      states := states[last := states[last].(status := Current)];
    }
  }

  /**
   * A typed word (other than an overridden last one) is correct exactly when it
   * equals the reference word at its index; a mismatch is an error, never current.
   */
  lemma TypedWordStatus(targetWords: seq<string>, inputWords: seq<string>, k: nat)
    requires IsTokenization(inputWords) && inputWords != [""]
    requires k < |inputWords| && k < |targetWords|
    requires !(k == |targetWords| - 1 && |inputWords| > |targetWords|)
    ensures MarkedClassify(targetWords, inputWords)[k].status == Correct <==> inputWords[k] == targetWords[k]
    ensures MarkedClassify(targetWords, inputWords)[k].status == Error <==> inputWords[k] != targetWords[k]
  {
    assert IsWord(inputWords[k]);
  }

  /** The word just past the input is current and every later word is pending. */
  lemma WordsPastInput(targetWords: seq<string>, inputWords: seq<string>, k: nat)
    requires |inputWords| <= k < |targetWords|
    ensures k == |inputWords| ==> MarkedClassify(targetWords, inputWords)[k].status == Current
    ensures k > |inputWords| ==> MarkedClassify(targetWords, inputWords)[k].status == Pending
  {
  }

  /**
   * Blank input splits to `[""]`, one empty word: the first reference word is
   * pending, the second is current, and the rest are pending.
   */
  lemma BlankInput(targetWords: seq<string>, k: nat)
    requires k < |targetWords|
    ensures k != 1 ==> MarkedClassify(targetWords, [""])[k].status == Pending
    ensures k == 1 ==> MarkedClassify(targetWords, [""])[k].status == Current
  {
  }

  /** More input words than reference words: the last reference word is current. */
  lemma OverlongInput(targetWords: seq<string>, inputWords: seq<string>)
    requires 0 < |targetWords| < |inputWords|
    ensures MarkedClassify(targetWords, inputWords)[|targetWords| - 1].status == Current
  {
  }

  /** At most one word is current. */
  lemma AtMostOneCurrent(targetWords: seq<string>, inputWords: seq<string>, a: nat, b: nat)
    requires a < |targetWords| && b < |targetWords|
    requires MarkedClassify(targetWords, inputWords)[a].status == Current
    requires MarkedClassify(targetWords, inputWords)[b].status == Current
    ensures a == b
  {
  }

  /** Two state sequences that agree on which positions are correct have equal correct counts. */
  lemma {:induction false} SameCorrectPositions(xs: seq<WordState>, ys: seq<WordState>)
    requires |xs| == |ys|
    requires forall k :: 0 <= k < |xs| ==> (xs[k].status == Correct <==> ys[k].status == Correct)
    ensures CountStatus(xs, Correct) == CountStatus(ys, Correct)
  {
    if xs != [] {
      var n := |xs| - 1;
      assert forall k :: 0 <= k < n ==> xs[..n][k] == xs[k] && ys[..n][k] == ys[k];
      SameCorrectPositions(xs[..n], ys[..n]);
    }
  }

  /**
   * While the input is no longer than the reference, the component and the
   * practice page count the same number of correct words.
   */
  lemma SameCorrectCountAsPage(targetWords: seq<string>, inputWords: seq<string>)
    requires |inputWords| <= |targetWords|
    ensures CountStatus(MarkedClassify(targetWords, inputWords), Correct)
         == CountStatus(Classify(targetWords, inputWords), Correct)
  {
    SameCorrectPositions(MarkedClassify(targetWords, inputWords), Classify(targetWords, inputWords));
  }
}
