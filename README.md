# Termitype typing test, modelled in Dafny

Termitype is a terminal typing-speed test. It samples words from a language's
word list, joins them with single spaces into a phrase, reads the user's keys
one at a time in raw mode, redraws the phrase after every key with each
character coloured as correct, incorrect, cursor or pending, and reports words
per minute, accuracy and errors at the end.

This project models the `TypingTest` class of `termitype_cli.py`:

- `Phrase`: the phrase. `random.sample` becomes a parameter, the chosen
  words, with the contract `IsSample`: the requested length, and drawn
  without replacement from the list. The module also covers `' '.join`: its
  length and where each word sits in it.
- `Verdict`: `_get_char_status` and the four-way category choice of `_display_text`.
- `Layout`: the 80-column chunking of `_display_text` and the loop that
  builds `display_lines`.
- `Scoring`: correct and error counts, the counting loop of `_show_results`,
  accuracy, words per minute, the live status line and the final elapsed time.
  Numbers are exact `real`s.
- `Input`: how a raw character is classified (Enter, Backspace, printable,
  ignored) and what it does to the typed input. It also holds `Loop`, a pure
  function for the `while True` loop of `run` fed a finite sequence of characters.
- `Session`: the class `TypingTest` with the fields `text`, `userInput`,
  `startTime`, `endTime` and a `phase` (NotStarted, Running, Finished). It has
  methods for the start of `run`, its loop, `_display_text` and `_show_results`.
  The invariant `Valid()` includes the bound "the typed input is never longer
  than the phrase".

Parameters stand in for the outside world. Clock readings (`time.time()`) are
`real` arguments. The characters `_get_input_char` returns are a sequence of
`RawInput` values: the empty string or one character. `str.isprintable` is a
function argument `isPrintable` about which nothing is assumed.

Edge cases where the model follows the code exactly:

- A negative word count makes `random.sample` raise `ValueError`. An empty
  word list with a non-negative count gives an empty phrase and no error.
- A word count of 0 is not rejected. It gives an empty phrase, and the test
  finishes right after the start key, before the loop reads any key.
- A start or end time of exactly 0 counts as unset, because the code tests
  the timestamps with Python truthiness (`if self.start_time`).
- Nothing requires the end time to be later than the start time. A negative
  elapsed time gives 0 words per minute.

## Model

| member | source | states |
|---|---|---|
| Basics.Min | termitype_cli.py:74 | Python's `min` of two integers: no larger than either, and equal to one of them |
| Phrase.SampleSize | termitype_cli.py:74 | the sample size is `min(words_count, len(words))`, at most the list's length; there is none (ValueError) exactly when the count is negative |
| Phrase.SampleExists | termitype_cli.py:74 | every non-negative request has a valid sample, so the constructor can be called |
| Phrase.SampleMembers | termitype_cli.py:74 | a sample holds `min(words_count, len(words))` words, each from the language's list |
| Phrase.SampleOfAllIsPermutation | termitype_cli.py:74 | asking for at least as many words as the list has gives a permutation of the whole list |
| Phrase.JoinLength | termitype_cli.py:80 | the joined phrase is the sum of the word lengths plus count − 1 separators (0 for no words) |
| Phrase.JoinWordAt | termitype_cli.py:80 | word k appears at its offset in the joined phrase, followed by one space unless it is the last |
| Verdict.CharStatus | termitype_cli.py:76-87 | the flag is true exactly when the index is within both strings and the characters match; past either end the result is `(' ', False)` |
| Verdict.CategoryAt | termitype_cli.py:105-113 | correct iff typed there and matching; incorrect iff typed there and not matching (or past the phrase); cursor iff the index is the input length; pending iff beyond it |
| Verdict.OneCursor | termitype_cli.py:110-111 | among the phrase's characters exactly one is the cursor while the input is shorter than the phrase, none once it is as long |
| Layout.ChunksShape | termitype_cli.py:95-98 | chunk k starts at offset 80·k; there are ⌈len/80⌉ chunks; each is 1 to 80 long and all but the last exactly 80; character j of a chunk is the phrase's character at start + j |
| Layout.ConcatChunks | termitype_cli.py:95-98 | the chunks read in order give back the phrase |
| Layout.ChunkLines | termitype_cli.py:93-98 | the loop appending `(i, text_str[i:i+80])` for `i` in `range(0, len, 80)` yields exactly the chunk list |
| Scoring.CorrectCount | termitype_cli.py:121-124 | the live `correct_chars` is at most both the typed length and the phrase length |
| Scoring.ErrorCount | termitype_cli.py:208-213 | `errors` is at most both the typed length and the phrase length |
| Scoring.CountIdentity | termitype_cli.py:204-213 | `correct_chars + errors == min(len(user_input), len(text_str))` |
| Scoring.AllCorrectIffPrefix | termitype_cli.py:122-124 | every typed character counts as correct exactly when the input is a prefix of the phrase |
| Scoring.DisplayAgreesWithCounts | termitype_cli.py:105-109 | the characters drawn green are exactly `correct_chars`, the ones drawn red within the phrase exactly `errors` |
| Scoring.Tally | termitype_cli.py:204-213 | the counting loop of the results screen returns the same correct count as the live view, the error count, and the two add up to the compared length |
| Scoring.Accuracy | termitype_cli.py:215 | 0 when nothing is typed; otherwise accuracy × typed = 100 × correct; within [0, 100] when correct ≤ typed; 100 exactly when all typed characters are correct |
| Scoring.Wpm | termitype_cli.py:216 | never negative; 0 when elapsed ≤ 0; otherwise wpm × elapsed = 12 × correct (5 characters a word, 60 seconds a minute) |
| Scoring.LiveStatsAt | termitype_cli.py:118-126 | the status line is shown exactly when the start time is set and non-zero and time has passed; its accuracy lies in [0, 100], its wpm is ≥ 0, both from the same correct count as the results |
| Scoring.FinalElapsed | termitype_cli.py:202 | end − start when both timestamps are set and non-zero, otherwise 0 |
| Scoring.CatDog | termitype_cli.py:204-215 | "cat dig" typed for "cat dog" gives 6 correct, 1 error and accuracy 600/7 % |
| Input.Classify | termitype_cli.py:185-192 | Enter iff `'\n'`/`'\r'`; Backspace iff `'\b'` or code 127; printable iff none of those and `isprintable`, carrying that character; the empty read is ignored |
| Input.ApplyEvent | termitype_cli.py:188-192 | a printable character is appended at the end with the prefix unchanged; Backspace on empty input leaves it empty, otherwise removes only the last character; Enter and ignored keys change nothing |
| Input.Loop | termitype_cli.py:176-192 | the loop reads at most the keys given; it stops at once without reading if the input is as long as the phrase; the input never outgrows the phrase; it finishes only when the phrase is complete or the last key read was Enter; otherwise it read all keys with the phrase incomplete |
| Input.LoopSplit | termitype_cli.py:176-192 | feeding keys `a + b` is feeding `a` and then `b` from the state `a` left |
| Input.EnterFinishes | termitype_cli.py:185-187 | Enter at any point of an unfinished session finishes it after that one read, with the input unchanged |
| Input.TypingTheRest | termitype_cli.py:179-192 | typing the rest of the phrase without a slip completes it, one read per character |
| Session.Row | termitype_cli.py:100-113 | for a chunk that is the phrase's slice at its start, cell j shows the phrase's character start + j (not the typed one) in the category of that index |
| Session.RowsAt | termitype_cli.py:100-113 | cell j of display line k is the phrase's character 80·k + j in that index's category |
| Session.Marks | termitype_cli.py:227-234 | "Your input" has one mark per typed character within the phrase's length, flagged exactly when the live view would show that index as correct |
| Session.MarksAgreeWithCounts | termitype_cli.py:226-234 | in "Your input" the characters marked as matching are exactly `correct_chars` and the ones marked as not matching exactly `errors` |
| Session.TypingTest.constructor | termitype_cli.py:65-71 | a new test holds the sampled words (a valid sample, kept in the invariant), an empty input, no timestamps, and is not started |
| Session.TypingTest.Start | termitype_cli.py:171-172 | after the first key the session is running with the start time set and nothing typed |
| Session.TypingTest.Run | termitype_cli.py:174-192 | the loop leaves the input, the number of keys read and whether it finished as `Input.Loop` says; on finishing the end time is set; the invariant (input no longer than the phrase) is kept |
| Session.TypingTest.DisplayText | termitype_cli.py:89-129 | the redraw shows the phrase's lines with every character's category and the live status line for the current clock reading |
| Session.TypingTest.ShowResults | termitype_cli.py:196-238 | the results give the elapsed time, typed and phrase lengths, the errors, accuracy in [0, 100] and wpm ≥ 0, computed from the same correct count as the live view |
| Session.ImmediateEnter | termitype_cli.py:183-187 | Enter as the first key ends the test with nothing typed, accuracy 0 and wpm 0 |
| Session.EmptyListFinishesAtOnce | termitype_cli.py:179-181 | an empty word list gives an empty phrase and the loop finishes before reading a key |
| Session.PerfectRun | termitype_cli.py:176-215 | for a non-empty phrase whose every character classifies as printable, typing it exactly finishes after one key per character, with all characters correct, no errors and accuracy 100 |

## Left out

- `LanguageLoader`: globbing the languages directory, parsing JSON and printing warnings are file-system I/O.
- `_get_input_char` is not modelled. It toggles raw mode with `termios`/`tty`, polls `msvcrt`, decodes bytes by locale and skips the `b'\xe0'` prefix of extended keys. All of this is terminal I/O. Only its result is modelled: the empty string or one character (`RawInput`).
- Screen output: clearing the screen, colorama colours and all `print` formatting. This includes rounding to one or two decimals (`:.1f`, `:.2f`). The model returns what would be shown: categories, numbers and strings.
- Floating point: accuracy, wpm and elapsed time are exact rationals (`real`). Python's float rounding is not modelled.
- `time.time()`: clock readings are parameters.
- The randomness of `random.sample`: only its contract is kept (length, drawn without replacement from the list). Which order it picks is not modelled.
- `main`: argparse, `--list-languages`, the choice of the default language, exit codes, and the handling of `KeyboardInterrupt` and other exceptions. These are CLI and process plumbing.
- Session.TypingTest.Run: does not return the frames drawn on each pass of the loop. Each one is what `DisplayText` returns for the state and clock reading at that moment. Run also takes one clock reading, `endAt`, for the moment the loop stops.
- Session.TypingTest.constructor: the default `words_count = 25` is not modelled; the only caller, `main`, always passes the count it parsed.
- Session.TypingTest.Start: the key read before timing starts is discarded by the source, so it is not a parameter.
- Verdict.CharStatus: takes a non-negative index. The source never calls it with a negative one, so Python's negative indexing is not modelled.
