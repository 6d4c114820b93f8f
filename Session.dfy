/**
 * A typing test session: the `TypingTest` object. It holds the sampled words,
 * what the user has typed, the start and end times, and the phase the session
 * is in (not started, running, finished). Clock readings and the characters
 * read from the terminal are parameters; the screen output becomes the values
 * `DisplayText` and `ShowResults` return.
 */
module Session {
  import opened Basics
  import opened Phrase
  import opened Verdict
  import opened Layout
  import opened Scoring
  import opened Input

  datatype Phase = NotStarted | Running | Finished

  /** A character on screen and the category that decides its colour. */
  datatype Cell = Cell(ch: char, category: Category)

  /** One redraw of the live view: the lines of the phrase and the status line, if shown. */
  datatype Frame = Frame(rows: seq<seq<Cell>>, stats: Option<LiveStats>)

  /** The results screen. `marks` is "Your input": each typed character within the
      phrase's length and whether it matches. */
  datatype Results = Results(
    wpm: real, accuracy: real, errors: nat, elapsed: real,
    typedChars: nat, targetChars: nat, marks: seq<(char, bool)>, correctText: string)

  /** One display line for a chunk of the phrase: each cell shows the phrase's
      character at the chunk's start plus its column, in the category of that index. */
  function Row(target: string, typed: seq<char>, c: Chunk): (r: seq<Cell>)
    requires InPlace(target, c)
    ensures |r| == |c.line|
    ensures forall j :: 0 <= j < |c.line| ==>
      r[j] == Cell(target[c.start + j], CategoryAt(target, typed, c.start + j))
  {
    seq(|c.line|, j requires 0 <= j < |c.line| => Cell(c.line[j], CategoryAt(target, typed, c.start + j)))
  }

  /** All display lines of the phrase. */
  function Rows(target: string, typed: seq<char>): seq<seq<Cell>>
  {
    var cs := Chunks(target);
    ChunksShape(target);
    seq(|cs|, k requires 0 <= k < |cs| => Row(target, typed, cs[k]))
  }

  /** The screen shows the phrase, 80 characters a line: cell `j` of line `k` is the
      phrase's character `80 * k + j`, coloured by the verdict for that index. */
  lemma RowsAt(target: string, typed: seq<char>, k: nat, j: nat)
    requires k < |Rows(target, typed)| && j < |Rows(target, typed)[k]|
    ensures LineLength * k + j < |target|
    ensures Rows(target, typed)[k][j] == Cell(target[LineLength * k + j], CategoryAt(target, typed, LineLength * k + j))
  {
    ChunksShape(target);
  }

  /** "Your input" on the results screen: `user_str[:len(text_str)]`, each with its match. */
  function Marks(target: string, typed: seq<char>): (m: seq<(char, bool)>)
    ensures |m| == Min(|typed|, |target|)
    ensures forall i :: 0 <= i < |m| ==> m[i].0 == typed[i] && (m[i].1 <==> CategoryAt(target, typed, i) == Correct)
  {
    seq(Min(|typed|, |target|), i requires 0 <= i < Min(|typed|, |target|) => (typed[i], typed[i] == target[i]))
  }

  /** How many of the first `n` marks carry the flag `ok`. */
  function CountFlags(m: seq<(char, bool)>, ok: bool, n: nat): nat
    requires n <= |m|
  {
    if n == 0 then 0 else CountFlags(m, ok, n - 1) + (if m[n - 1].1 == ok then 1 else 0)
  }

  lemma {:induction false} FlagsMatchCounts(target: string, typed: seq<char>, n: nat)
    requires n <= Min(|typed|, |target|)
    ensures CountFlags(Marks(target, typed), true, n) == CountMatches(target, typed, n)
    ensures CountFlags(Marks(target, typed), false, n) == CountMismatches(target, typed, n)
  {
    if n > 0 {
      FlagsMatchCounts(target, typed, n - 1);
    }
  }

  /** On the results screen the typed characters shown as matching are exactly
      `correct_chars`, and the ones shown as not matching exactly `errors`. */
  lemma MarksAgreeWithCounts(target: string, typed: seq<char>)
    ensures CountFlags(Marks(target, typed), true, |Marks(target, typed)|) == CorrectCount(target, typed)
    ensures CountFlags(Marks(target, typed), false, |Marks(target, typed)|) == ErrorCount(target, typed)
  {
    FlagsMatchCounts(target, typed, Min(|typed|, |target|));
  }

  class TypingTest {
    const words: seq<string>
    const wordsCount: int
    /** `self.text`: the sampled words, fixed for the session. */
    const text: seq<string>
    var userInput: seq<char>
    var startTime: Option<real>
    var endTime: Option<real>
    var phase: Phase

    /** `' '.join(self.text)`, the phrase to type. */
    function TextStr(): string
    {
      Join(text)
    }

    /** The session invariant: the input never outgrows the phrase; nothing is typed
        before the start; the start time is set from the start on, the end time
        exactly when the session is finished; the phrase's words are a sample of the list. */
    ghost predicate Valid()
      reads this
    {
      && IsSample(words, wordsCount, text)
      && |userInput| <= |TextStr()|
      && (phase == NotStarted ==> userInput == [] && startTime == None && endTime == None)
      && (phase == Running ==> startTime.Some? && endTime == None)
      && (phase == Finished ==> startTime.Some? && endTime.Some?)
    }

    /** `TypingTest(language, words_count)`; `chosen` is what `random.sample` returned. */
    constructor(words: seq<string>, wordsCount: int, chosen: seq<string>)
      requires IsSample(words, wordsCount, chosen)
      ensures Valid() && phase == NotStarted
      ensures this.words == words && this.wordsCount == wordsCount && text == chosen
      ensures userInput == [] && startTime == None && endTime == None
    {
      this.words := words;
      this.wordsCount := wordsCount;
      text := chosen;
      userInput := [];
      startTime := None;
      endTime := None;
      phase := NotStarted;
    }

    /** The start of `run`: one key is read and discarded, then the clock reading
        `startAt` becomes the start time. */
    method Start(startAt: real)
      requires Valid() && phase == NotStarted
      modifies this
      ensures Valid() && phase == Running
      ensures startTime == Some(startAt) && endTime == None && userInput == []
    {
      startTime := Some(startAt);
      phase := Running;
    }

    /** The loop of `run`, reading the characters `keys` one at a time. It stops
        without reading when the input is as long as the phrase, and on Enter; the
        end time is then the clock reading `endAt`. If `keys` runs out first the
        session stays running (the real read would block). */
    method Run(keys: seq<RawInput>, isPrintable: char -> bool, endAt: real) returns (consumed: nat)
      requires Valid() && phase == Running
      modifies this
      ensures Valid() && startTime == old(startTime)
      ensures var o := Loop(TextStr(), old(userInput), keys, isPrintable);
        userInput == o.typed && consumed == o.consumed && (phase == Finished <==> o.finished)
      ensures phase == Finished ==> endTime == Some(endAt)
      ensures phase != Finished ==> phase == Running && endTime == None
    {
      var textStr := TextStr();
      ghost var whole := Loop(textStr, userInput, keys, isPrintable);
      consumed := 0;
      while true
        invariant |userInput| <= |textStr|
        invariant phase == Running && startTime == old(startTime) && endTime == None
        invariant consumed <= |keys|
        invariant AfterReads(Loop(textStr, userInput, keys[consumed..], isPrintable), consumed) == whole
        decreases |keys| - consumed
      {
        if |userInput| >= |textStr| {
          endTime := Some(endAt);
          phase := Finished;
          return;
        }
        if consumed == |keys| {
          return;
        }
        var e := Classify(keys[consumed], isPrintable);
        LoopStep(textStr, userInput, keys, consumed, isPrintable);
        consumed := consumed + 1;
        if e == Enter {
          endTime := Some(endAt);
          phase := Finished;
          return;
        }
        userInput := ApplyEvent(userInput, e);
      }
    }

    /** `_display_text` at clock reading `now`: the phrase cut into lines, every
        character in its category, and the status line. */
    method DisplayText(now: real) returns (frame: Frame)
      ensures frame.rows == Rows(TextStr(), userInput)
      ensures frame.stats == LiveStatsAt(TextStr(), userInput, startTime, now)
    {
      var textStr := TextStr();
      var displayLines := ChunkLines(textStr);
      ChunksShape(textStr);
      var rows: seq<seq<Cell>> := [];
      for k := 0 to |displayLines|
        invariant |rows| == k
        invariant forall m :: 0 <= m < k ==> rows[m] == Row(textStr, userInput, displayLines[m])
      {
        rows := rows + [Row(textStr, userInput, displayLines[k])];
      }
      frame := Frame(rows, LiveStatsAt(textStr, userInput, startTime, now));
    }

    /** `_show_results`: the final statistics, computed by the counting loop. */
    method ShowResults() returns (res: Results)
      ensures res.elapsed == FinalElapsed(startTime, endTime)
      ensures res.typedChars == |userInput| && res.targetChars == |TextStr()|
      ensures res.errors == ErrorCount(TextStr(), userInput)
      ensures CorrectCount(TextStr(), userInput) + res.errors == Min(|userInput|, |TextStr()|)
      ensures res.accuracy == Accuracy(CorrectCount(TextStr(), userInput), |userInput|)
      ensures 0.0 <= res.accuracy <= 100.0
      ensures res.wpm == Wpm(CorrectCount(TextStr(), userInput), res.elapsed) && res.wpm >= 0.0
      ensures res.marks == Marks(TextStr(), userInput) && res.correctText == TextStr()
    {
      var textStr := TextStr();
      var elapsed := FinalElapsed(startTime, endTime);
      var typedChars := |userInput|;
      var correct, errors := Tally(textStr, userInput);
      var accuracy := Accuracy(correct, typedChars);
      var wpm := Wpm(correct, elapsed);
      res := Results(wpm, accuracy, errors, elapsed, typedChars, |textStr|, Marks(textStr, userInput), textStr);
    }
  }

  /** Pressing Enter as the first key after the start ends the test with nothing
      typed, accuracy 0 and speed 0. */
  lemma ImmediateEnter(target: string, rest: seq<RawInput>, isPrintable: char -> bool, elapsed: real)
    ensures var o := Loop(target, [], [Key('\n')] + rest, isPrintable);
      o.finished && o.typed == [] && o.consumed == (if |target| == 0 then 0 else 1)
      && Accuracy(CorrectCount(target, o.typed), |o.typed|) == 0.0
      && Wpm(CorrectCount(target, o.typed), elapsed) == 0.0
  {
    var o := Loop(target, [], [Key('\n')] + rest, isPrintable);
    assert CorrectCount(target, o.typed) == 0;
  }

  /** An empty word list gives an empty phrase, and the loop finishes before reading anything. */
  lemma EmptyListFinishesAtOnce(wordsCount: int, chosen: seq<string>, keys: seq<RawInput>, isPrintable: char -> bool)
    requires IsSample([], wordsCount, chosen)
    ensures chosen == [] && Join(chosen) == ""
    ensures Loop(Join(chosen), [], keys, isPrintable) == Outcome([], 0, true)
  {
  }

  /** Typing the phrase without a slip completes it after exactly one key per
      character, with every character correct and accuracy 100. */
  lemma PerfectRun(target: string, isPrintable: char -> bool)
    requires |target| > 0
    requires forall i :: 0 <= i < |target| ==> Classify(Key(target[i]), isPrintable) == Printable(target[i])
    ensures Loop(target, [], Keys(target), isPrintable) == Outcome(target, |target|, true)
    ensures CorrectCount(target, target) == |target| && ErrorCount(target, target) == 0
    ensures Accuracy(CorrectCount(target, target), |target|) == 100.0
  {
    TypingTheRest(target, 0, isPrintable);
    assert target[..0] == [] && target[0..] == target;
    AllCorrectIffPrefix(target, target);
    CountIdentity(target, target);
  }
}
