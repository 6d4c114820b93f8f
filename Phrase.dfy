/**
 * The phrase a typing test asks for: `min(words_count, len(words))` words
 * drawn from the language's list by `random.sample`, joined with single spaces.
 * The random draw itself is not modelled: the words it chose are a parameter,
 * constrained by `IsSample` to what `random.sample` can return.
 */
module Phrase {
  import opened Basics

  /** The sample size `_generate_text` asks for; `None` when it is negative,
      which makes `random.sample` raise `ValueError`. */
  function SampleSize(wordsCount: int, population: nat): (r: Option<nat>)
    ensures r.Some? <==> wordsCount >= 0
    ensures r.Some? ==> r.value <= population && r.value <= wordsCount
    ensures r.Some? ==> r.value == population || r.value == wordsCount
  {
    var n := Min(wordsCount, population);
    if n < 0 then None else Some(n)
  }

  /** `chosen` is a possible result of `random.sample(words, min(wordsCount, len(words)))`:
      as many words as asked for, drawn without replacement from the list. */
  predicate IsSample(words: seq<string>, wordsCount: int, chosen: seq<string>) {
    SampleSize(wordsCount, |words|) == Some(|chosen|) && multiset(chosen) <= multiset(words)
  }

  /** Every non-negative request can be met (here by the first words of the list). */
  lemma SampleExists(words: seq<string>, wordsCount: int)
    requires wordsCount >= 0
    ensures IsSample(words, wordsCount, words[..Min(wordsCount, |words|)])
  {
    var n := Min(wordsCount, |words|);
    assert words == words[..n] + words[n..];
    assert multiset(words) == multiset(words[..n]) + multiset(words[n..]);
  }

  /** A sample has the requested length and holds only words of the list. */
  lemma SampleMembers(words: seq<string>, wordsCount: int, chosen: seq<string>)
    requires IsSample(words, wordsCount, chosen)
    ensures |chosen| == Min(wordsCount, |words|)
    ensures forall w :: w in chosen ==> w in words
  {
    forall w | w in chosen
      ensures w in words
    {
      assert multiset(chosen)[w] > 0;
    }
  }

  /** Asking for at least as many words as the list holds shuffles the whole list. */
  lemma SampleOfAllIsPermutation(words: seq<string>, wordsCount: int, chosen: seq<string>)
    requires IsSample(words, wordsCount, chosen)
    requires wordsCount >= |words|
    ensures multiset(chosen) == multiset(words)
  {
    var rest := multiset(words) - multiset(chosen);
    assert multiset(words) == multiset(chosen) + rest;
    assert |multiset(words)| == |multiset(chosen)| + |rest|;
    assert |rest| == 0;
  }

  /** Python's `' '.join(ws)`. */
  function Join(ws: seq<string>): string
  {
    if |ws| == 0 then ""
    else if |ws| == 1 then ws[0]
    else ws[0] + " " + Join(ws[1..])
  }

  /** The sum of the lengths of the words. */
  function TotalLength(ws: seq<string>): nat
  {
    if |ws| == 0 then 0 else |ws[0]| + TotalLength(ws[1..])
  }

  /** Where word `k` starts in `Join(ws)`: the words before it and one space after each. */
  function Offset(ws: seq<string>, k: nat): nat
    requires k <= |ws|
  {
    TotalLength(ws[..k]) + k
  }

  /** The joined phrase is as long as its words plus one separator between each two. */
  lemma {:induction false} JoinLength(ws: seq<string>)
    ensures |Join(ws)| == TotalLength(ws) + (if |ws| > 0 then |ws| - 1 else 0)
  {
    if |ws| > 1 {
      JoinLength(ws[1..]);
    }
  }

  lemma {:induction false} OffsetStep(ws: seq<string>, k: nat)
    requires 0 < k <= |ws|
    ensures Offset(ws, k) == |ws[0]| + 1 + Offset(ws[1..], k - 1)
  {
    assert ws[..k][1..] == ws[1..][..k - 1];
  }

  lemma AfterPrefix(p: string, r: string, i: nat, n: nat)
    requires i + n <= |r|
    ensures (p + r)[|p| + i..|p| + i + n] == r[i..i + n]
    ensures i + n < |r| ==> (p + r)[|p| + i + n] == r[i + n]
  {
  }

  /** Word `k` appears in the joined phrase at `Offset(ws, k)`, followed by a
      single space unless it is the last word. */
  lemma {:induction false} JoinWordAt(ws: seq<string>, k: nat)
    requires k < |ws|
    ensures Offset(ws, k) + |ws[k]| <= |Join(ws)|
    ensures k < |ws| - 1 ==> Offset(ws, k) + |ws[k]| < |Join(ws)|
    ensures Join(ws)[Offset(ws, k)..Offset(ws, k) + |ws[k]|] == ws[k]
    ensures k < |ws| - 1 ==> Join(ws)[Offset(ws, k) + |ws[k]|] == ' '
  {
    if k == 0 {
      assert Offset(ws, 0) == 0 by { assert ws[..0] == []; }
      if |ws| > 1 {
        assert Join(ws) == ws[0] + " " + Join(ws[1..]);
      }
    } else {
      JoinWordAt(ws[1..], k - 1);
      OffsetStep(ws, k);
      var p := ws[0] + " ";
      assert Join(ws) == p + Join(ws[1..]);
      AfterPrefix(p, Join(ws[1..]), Offset(ws[1..], k - 1), |ws[k]|);
    }
  }
}
