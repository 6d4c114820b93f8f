/**
 * The input side of `TypingTest.run`: what a raw character read from the
 * terminal means (Enter, Backspace, a printable character, or nothing), how it
 * changes the typed input, and the loop that applies one character after
 * another until the phrase is complete or Enter is pressed.
 *
 * `str.isprintable` is a parameter `isPrintable`: nothing about it is assumed.
 */
module Input {

  /** What `_get_input_char` returns: the empty string or one character. */
  datatype RawInput = NoChar | Key(c: char)

  /** How the loop of `run` reads a raw character. */
  datatype Event = Enter | Backspace | Printable(c: char) | Ignored

  /** `'\n'` or `'\r'`. */
  predicate IsEnterKey(c: char) {
    c == '\n' || c == '\r'
  }

  /** `'\b'` or the character with code 127. */
  predicate IsBackspaceKey(c: char) {
    c as int == 8 || c as int == 127
  }

  /** The `if`/`elif` chain of `run`, tried in the source's order. */
  function Classify(raw: RawInput, isPrintable: char -> bool): (e: Event)
    ensures e == Enter <==> raw.Key? && IsEnterKey(raw.c)
    ensures e == Backspace <==> raw.Key? && IsBackspaceKey(raw.c)
    ensures e.Printable? <==> raw.Key? && !IsEnterKey(raw.c) && !IsBackspaceKey(raw.c) && isPrintable(raw.c)
    ensures e.Printable? ==> e.c == raw.c
    ensures raw == NoChar ==> e == Ignored
  {
    match raw
    case NoChar => Ignored
    case Key(c) =>
      if IsEnterKey(c) then Enter
      else if IsBackspaceKey(c) then Backspace
      else if isPrintable(c) then Printable(c)
      else Ignored
  }

  /** What an event does to `user_input`: a printable character is appended,
      Backspace pops the last character if there is one, anything else leaves it alone. */
  function ApplyEvent(typed: seq<char>, e: Event): (r: seq<char>)
    ensures e.Printable? ==> |r| == |typed| + 1 && r[..|typed|] == typed && r[|typed|] == e.c
    ensures e == Backspace && typed == [] ==> r == []
    ensures e == Backspace && typed != [] ==> |r| == |typed| - 1 && typed[..|r|] == r
    ensures e == Enter || e == Ignored ==> r == typed
  {
    match e
    case Printable(c) => typed + [c]
    case Backspace => if typed == [] then [] else typed[..|typed| - 1]
    case _ => typed
  }

  /** How the loop ends: the final input, how many raw characters it read, and
      whether it finished (phrase complete or Enter) or ran out of characters. */
  datatype Outcome = Outcome(typed: seq<char>, consumed: nat, finished: bool)

  /** The outcome `o` of a loop that started after `k` keys had already been read. */
  function AfterReads(o: Outcome, k: nat): Outcome
  {
    o.(consumed := o.consumed + k)
  }

  /** The `while True` loop of `run`, fed the characters `keys`: before each read it
      stops if the input is as long as the phrase; Enter stops it; other events are
      applied. Running out of `keys` stands for a read that never returns. */
  function Loop(target: string, typed: seq<char>, keys: seq<RawInput>, isPrintable: char -> bool): (o: Outcome)
    ensures o.consumed <= |keys|
    ensures |typed| >= |target| ==> o == Outcome(typed, 0, true)
    ensures |typed| <= |target| ==> |o.typed| <= |target|
    ensures !o.finished ==> o.consumed == |keys| && |o.typed| < |target|
    ensures o.finished ==>
      |o.typed| >= |target| || (o.consumed > 0 && Classify(keys[o.consumed - 1], isPrintable) == Enter)
    decreases |keys|
  {
    if |typed| >= |target| then Outcome(typed, 0, true)
    else if keys == [] then Outcome(typed, 0, false)
    else
      var e := Classify(keys[0], isPrintable);
      if e == Enter then Outcome(typed, 1, true)
      else AfterReads(Loop(target, ApplyEvent(typed, e), keys[1..], isPrintable), 1)
  }

  /** One pass of the loop over the keys from position `c` on, when the phrase is not complete. */
  lemma LoopStep(target: string, typed: seq<char>, keys: seq<RawInput>, c: nat, isPrintable: char -> bool)
    requires c < |keys| && |typed| < |target|
    ensures var e := Classify(keys[c], isPrintable);
      Loop(target, typed, keys[c..], isPrintable)
        == if e == Enter then Outcome(typed, 1, true)
           else AfterReads(Loop(target, ApplyEvent(typed, e), keys[c + 1..], isPrintable), 1)
  {
    assert keys[c..][0] == keys[c];
    assert keys[c..][1..] == keys[c + 1..];
  }

  /** Feeding `a` and then `b` is feeding `a`, then feeding `b` from where `a` left off. */
  lemma {:induction false} LoopSplit(target: string, typed: seq<char>, a: seq<RawInput>, b: seq<RawInput>, isPrintable: char -> bool)
    requires !Loop(target, typed, a, isPrintable).finished
    ensures Loop(target, typed, a + b, isPrintable)
      == AfterReads(Loop(target, Loop(target, typed, a, isPrintable).typed, b, isPrintable), |a|)
    decreases |a|
  {
    if a == [] {
      assert a + b == b;
    } else {
      var e := Classify(a[0], isPrintable);
      assert (a + b)[0] == a[0];
      assert (a + b)[1..] == a[1..] + b;
      LoopSplit(target, ApplyEvent(typed, e), a[1..], b, isPrintable);
    }
  }

  /** Enter ends the test at once, whatever was typed before it. */
  lemma EnterFinishes(target: string, typed: seq<char>, a: seq<RawInput>, b: seq<RawInput>, isPrintable: char -> bool)
    requires !Loop(target, typed, a, isPrintable).finished
    requires b != [] && Classify(b[0], isPrintable) == Enter
    ensures Loop(target, typed, a + b, isPrintable)
      == Outcome(Loop(target, typed, a, isPrintable).typed, |a| + 1, true)
  {
    LoopSplit(target, typed, a, b, isPrintable);
  }

  /** The characters of `s`, each as a key press. */
  function Keys(s: string): (ks: seq<RawInput>)
    ensures |ks| == |s|
    ensures forall i :: 0 <= i < |s| ==> ks[i] == Key(s[i])
  {
    if s == [] then [] else [Key(s[0])] + Keys(s[1..])
  }

  /** Typing the rest of the phrase with no slip completes it, reading one key per character. */
  lemma {:induction false} TypingTheRest(target: string, k: nat, isPrintable: char -> bool)
    requires k <= |target|
    requires forall i :: 0 <= i < |target| ==> Classify(Key(target[i]), isPrintable) == Printable(target[i])
    ensures Loop(target, target[..k], Keys(target[k..]), isPrintable) == Outcome(target, |target| - k, true)
    decreases |target| - k
  {
    if k == |target| {
      assert target[..k] == target;
    } else {
      var ks := Keys(target[k..]);
      assert ks[0] == Key(target[k]);
      assert ks[1..] == Keys(target[k + 1..]);
      assert target[..k] + [target[k]] == target[..k + 1];
      TypingTheRest(target, k + 1, isPrintable);
    }
  }
}
