/**
 * The per-character verdict of the live view: what `_get_char_status` reports
 * for an index, and the category (correct, incorrect, cursor, pending) that
 * `_display_text` picks for the target character at that index.
 */
module Verdict {

  datatype Category = Correct | Incorrect | Cursor | Pending

  /** `_get_char_status`: the typed character at `i` and whether it matches the
      target there; `(' ', false)` when `i` is past the typed input or past the target. */
  function CharStatus(target: string, typed: string, i: nat): (r: (char, bool))
    ensures r.1 <==> i < |typed| && i < |target| && typed[i] == target[i]
    ensures i < |typed| && i < |target| ==> r.0 == typed[i]
    ensures i >= |typed| || i >= |target| ==> r == (' ', false)
  {
    if i >= |typed| then (' ', false)
    else if i >= |target| then (' ', false)
    else (typed[i], typed[i] == target[i])
  }

  /** The category `_display_text` picks for index `i`. */
  function CategoryAt(target: string, typed: string, i: nat): (c: Category)
    ensures c == Correct <==> i < |typed| && i < |target| && typed[i] == target[i]
    ensures c == Incorrect <==> i < |typed| && (i >= |target| || typed[i] != target[i])
    ensures c == Cursor <==> i == |typed|
    ensures c == Pending <==> i > |typed|
  {
    if i < |typed| then
      (if CharStatus(target, typed, i).1 then Correct else Incorrect)
    else if i == |typed| then Cursor
    else Pending
  }

  /** How many of the first `n` target characters are shown in category `cat`. */
  function CountCategory(target: string, typed: string, cat: Category, n: nat): nat
    requires n <= |target|
  {
    if n == 0 then 0
    else CountCategory(target, typed, cat, n - 1) + (if CategoryAt(target, typed, n - 1) == cat then 1 else 0)
  }

  /** While the phrase is unfinished exactly one target character is the cursor; afterwards none is. */
  lemma {:induction false} OneCursor(target: string, typed: string, n: nat)
    requires n <= |target|
    ensures CountCategory(target, typed, Cursor, n) == if |typed| < n then 1 else 0
  {
    if n > 0 {
      OneCursor(target, typed, n - 1);
    }
  }
}
