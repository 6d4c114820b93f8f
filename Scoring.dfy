/**
 * The statistics of a typing test: how many typed characters match the
 * phrase, how many do not, the accuracy and the words per minute. Time is a
 * parameter (seconds as an exact `real`); no clock is read here.
 */
module Scoring {
  import opened Basics
  import opened Verdict

  /** How many of the first `n` positions hold the target's character. */
  function CountMatches(target: string, typed: string, n: nat): (c: nat)
    requires n <= |target| && n <= |typed|
    ensures c <= n
  {
    if n == 0 then 0
    else CountMatches(target, typed, n - 1) + (if typed[n - 1] == target[n - 1] then 1 else 0)
  }

  /** How many of the first `n` positions hold another character. */
  function CountMismatches(target: string, typed: string, n: nat): (e: nat)
    requires n <= |target| && n <= |typed|
    ensures e <= n
  {
    if n == 0 then 0
    else CountMismatches(target, typed, n - 1) + (if typed[n - 1] != target[n - 1] then 1 else 0)
  }

  /** `correct_chars`: the typed characters that match the phrase at their position
      (the live view's `sum` over `range(min(typed_chars, len(text_str)))`). */
  function CorrectCount(target: string, typed: string): (c: nat)
    ensures c <= |typed| && c <= |target|
  {
    CountMatches(target, typed, Min(|typed|, |target|))
  }

  /** `errors`: the typed characters, within the phrase's length, that do not match. */
  function ErrorCount(target: string, typed: string): (e: nat)
    ensures e <= |typed| && e <= |target|
  {
    CountMismatches(target, typed, Min(|typed|, |target|))
  }

  lemma {:induction false} MatchesPlusMismatches(target: string, typed: string, n: nat)
    requires n <= |target| && n <= |typed|
    ensures CountMatches(target, typed, n) + CountMismatches(target, typed, n) == n
  {
    if n > 0 {
      MatchesPlusMismatches(target, typed, n - 1);
    }
  }

  /** Each compared position is either correct or an error. */
  lemma CountIdentity(target: string, typed: string)
    ensures CorrectCount(target, typed) + ErrorCount(target, typed) == Min(|typed|, |target|)
  {
    MatchesPlusMismatches(target, typed, Min(|typed|, |target|));
  }

  lemma {:induction false} AllMatch(target: string, typed: string, n: nat)
    requires n <= |target| && n <= |typed|
    ensures CountMatches(target, typed, n) == n <==> typed[..n] == target[..n]
  {
    if n > 0 {
      AllMatch(target, typed, n - 1);
      assert typed[..n] == typed[..n - 1] + [typed[n - 1]];
      assert target[..n] == target[..n - 1] + [target[n - 1]];
      if typed[..n] == target[..n] {
        assert typed[..n - 1] == typed[..n][..n - 1];
        assert target[..n - 1] == target[..n][..n - 1];
      }
    } else {
      assert typed[..0] == target[..0];
    }
  }

  /** Every typed character is correct exactly when the input is a prefix of the phrase. */
  lemma AllCorrectIffPrefix(target: string, typed: string)
    ensures CorrectCount(target, typed) == |typed| <==> |typed| <= |target| && typed == target[..|typed|]
  {
    var n := Min(|typed|, |target|);
    AllMatch(target, typed, n);
    if CorrectCount(target, typed) == |typed| {
      assert typed[..n] == typed;
    }
  }

  /** The characters shown as correct (green) are exactly the ones `correct_chars` counts,
      and the ones shown as incorrect (red) within the phrase are the `errors`. */
  lemma {:induction false} CategoriesMatchCounts(target: string, typed: string, n: nat)
    requires n <= |target|
    ensures CountCategory(target, typed, Correct, n) == CountMatches(target, typed, Min(n, |typed|))
    ensures CountCategory(target, typed, Incorrect, n) == CountMismatches(target, typed, Min(n, |typed|))
  {
    if n > 0 {
      CategoriesMatchCounts(target, typed, n - 1);
    }
  }

  lemma DisplayAgreesWithCounts(target: string, typed: string)
    ensures CountCategory(target, typed, Correct, |target|) == CorrectCount(target, typed)
    ensures CountCategory(target, typed, Incorrect, |target|) == ErrorCount(target, typed)
  {
    CategoriesMatchCounts(target, typed, |target|);
  }

  /** The counting loop of `_show_results`. */
  method Tally(target: string, typed: string) returns (correct: nat, errors: nat)
    ensures correct == CorrectCount(target, typed)
    ensures errors == ErrorCount(target, typed)
    ensures correct + errors == Min(|typed|, |target|)
  {
    var typedChars := |typed|;
    correct, errors := 0, 0;
    var n := Min(typedChars, |target|);
    for i := 0 to n
      invariant correct == CountMatches(target, typed, i)
      invariant errors == CountMismatches(target, typed, i)
    {
      if i < |typed| {
        if typed[i] == target[i] {
          correct := correct + 1;
        } else {
          errors := errors + 1;
        }
      }
    }
    MatchesPlusMismatches(target, typed, n);
  }

  /** `correct_chars / typed_chars * 100`, or 0 when nothing was typed. */
  function Accuracy(correct: nat, typedChars: nat): (r: real)
    ensures typedChars == 0 ==> r == 0.0
    ensures typedChars > 0 ==> r * (typedChars as real) == 100.0 * (correct as real)
    ensures correct <= typedChars ==> 0.0 <= r <= 100.0
    ensures typedChars > 0 ==> (r == 100.0 <==> correct == typedChars)
  {
    if typedChars > 0 then correct as real / typedChars as real * 100.0 else 0.0
  }

  /** `(correct_chars / 5) / (elapsed / 60)`, or 0 when no time has passed:
      five correct characters make a word. */
  function Wpm(correct: nat, elapsed: real): (r: real)
    ensures r >= 0.0
    ensures elapsed <= 0.0 ==> r == 0.0
    ensures elapsed > 0.0 ==> r * elapsed == 12.0 * (correct as real)
  {
    if elapsed > 0.0 then (correct as real / 5.0) / (elapsed / 60.0) else 0.0
  }

  /** The status line of the live view. */
  datatype LiveStats = LiveStats(wpm: real, accuracy: real, elapsed: real)

  /** The status line `_display_text` shows at clock reading `now`: only once the
      test is started (`if self.start_time`, so a start time of 0 counts as unset)
      and time has passed. */
  function LiveStatsAt(target: string, typed: string, startTime: Option<real>, now: real): (r: Option<LiveStats>)
    ensures r.Some? <==> startTime.Some? && startTime.value != 0.0 && now - startTime.value > 0.0
    ensures r.Some? ==> r.value.elapsed == now - startTime.value && r.value.elapsed > 0.0
    ensures r.Some? ==> 0.0 <= r.value.accuracy <= 100.0 && r.value.wpm >= 0.0
    ensures r.Some? ==> r.value.accuracy == Accuracy(CorrectCount(target, typed), |typed|)
    ensures r.Some? ==> r.value.wpm == Wpm(CorrectCount(target, typed), r.value.elapsed)
  {
    match startTime
    case None => None
    case Some(t) =>
      if t == 0.0 then None
      else
        var elapsed := now - t;
        if elapsed > 0.0 then
          var correct := CorrectCount(target, typed);
          Some(LiveStats(Wpm(correct, elapsed), Accuracy(correct, |typed|), elapsed))
        else None
  }

  /** `end_time - start_time` when both are set (and non-zero), else 0. */
  function FinalElapsed(startTime: Option<real>, endTime: Option<real>): (r: real)
    ensures (startTime.None? || endTime.None? || startTime.value == 0.0 || endTime.value == 0.0) ==> r == 0.0
    ensures startTime.Some? && endTime.Some? && startTime.value != 0.0 && endTime.value != 0.0 ==>
      startTime.value + r == endTime.value
  {
    if endTime.Some? && startTime.Some? && endTime.value != 0.0 && startTime.value != 0.0
    then endTime.value - startTime.value
    else 0.0
  }

  /** Typing "cat dig" for "cat dog": six correct characters, one error, accuracy 600/7 percent. */
  lemma CatDog()
    ensures CorrectCount("cat dog", "cat dig") == 6
    ensures ErrorCount("cat dog", "cat dig") == 1
    ensures Accuracy(6, 7) == 600.0 / 7.0
  {
    CountIdentity("cat dog", "cat dig");
  }
}
