/**
 * The line layout of `_display_text`: the phrase is cut into fixed-width
 * chunks of 80 characters, each paired with its start offset. A word may be
 * split across two lines.
 */
module Layout {
  import opened Basics

  const LineLength: nat := 80

  /** One display line and the offset of its first character in the phrase. */
  datatype Chunk = Chunk(start: nat, line: string)

  /** The chunks for `range(i, len(s), 80)`, each `s[j:j + 80]`. */
  /** The chunk's line is the slice of `s` at the chunk's start. */
  predicate InPlace(s: string, c: Chunk) {
    c.start + |c.line| <= |s| && c.line == s[c.start..c.start + |c.line|]
  }

  function ChunksFrom(s: string, i: nat): seq<Chunk>
    decreases |s| - i
  {
    if i >= |s| then []
    else [Chunk(i, s[i..Min(i + LineLength, |s|)])] + ChunksFrom(s, i + LineLength)
  }

  function Chunks(s: string): seq<Chunk>
  {
    ChunksFrom(s, 0)
  }

  /** The lines one after the other. */
  function Concat(cs: seq<Chunk>): string
  {
    if cs == [] then [] else cs[0].line + Concat(cs[1..])
  }

  /** Chunk `k` from offset `i` starts at `i + 80 * k` and holds the next (at most) 80 characters. */
  lemma {:induction false} ChunksFromAt(s: string, i: nat)
    ensures |ChunksFrom(s, i)| == if i >= |s| then 0 else (|s| - i + LineLength - 1) / LineLength
    ensures forall k :: 0 <= k < |ChunksFrom(s, i)| ==>
      ChunksFrom(s, i)[k] == Chunk(i + LineLength * k, s[i + LineLength * k..Min(i + LineLength * k + LineLength, |s|)])
    decreases |s| - i
  {
    if i < |s| {
      ChunksFromAt(s, i + LineLength);
      var cs := ChunksFrom(s, i);
      var rest := ChunksFrom(s, i + LineLength);
      assert cs == [Chunk(i, s[i..Min(i + LineLength, |s|)])] + rest;
      forall k | 0 <= k < |cs|
        ensures cs[k] == Chunk(i + LineLength * k, s[i + LineLength * k..Min(i + LineLength * k + LineLength, |s|)])
      {
        if k > 0 {
          assert cs[k] == rest[k - 1];
          assert i + LineLength * k == (i + LineLength) + LineLength * (k - 1);
        }
      }
    }
  }

  /** The layout of the whole phrase: chunk `k` starts at `80 * k`, no chunk is
      longer than 80, every chunk but the last is exactly 80 long, and character
      `j` of a chunk is the phrase's character at the chunk's start plus `j`. */
  lemma ChunksShape(s: string)
    ensures |Chunks(s)| == (|s| + LineLength - 1) / LineLength
    ensures forall k :: 0 <= k < |Chunks(s)| ==> Chunks(s)[k].start == LineLength * k
    ensures forall k :: 0 <= k < |Chunks(s)| ==> 0 < |Chunks(s)[k].line| <= LineLength
    ensures forall k :: 0 <= k < |Chunks(s)| ==> InPlace(s, Chunks(s)[k])
    ensures forall k :: 0 <= k < |Chunks(s)| - 1 ==> |Chunks(s)[k].line| == LineLength
    ensures forall k, j :: 0 <= k < |Chunks(s)| && 0 <= j < |Chunks(s)[k].line| ==>
      Chunks(s)[k].start + j < |s| && Chunks(s)[k].line[j] == s[Chunks(s)[k].start + j]
  {
    ChunksFromAt(s, 0);
  }

  /** Read in order, the lines give back the phrase from offset `i`. */
  lemma {:induction false} ConcatChunksFrom(s: string, i: nat)
    requires i <= |s|
    ensures Concat(ChunksFrom(s, i)) == s[i..]
    decreases |s| - i
  {
    if i < |s| {
      var m := Min(i + LineLength, |s|);
      assert ChunksFrom(s, i) == [Chunk(i, s[i..m])] + ChunksFrom(s, i + LineLength);
      if i + LineLength < |s| {
        ConcatChunksFrom(s, i + LineLength);
      }
      assert s[i..] == s[i..m] + s[m..];
    }
  }

  /** Read in order, the lines give back the whole phrase. */
  lemma ConcatChunks(s: string)
    ensures Concat(Chunks(s)) == s
  {
    ConcatChunksFrom(s, 0);
  }

  /** The loop of `_display_text` that builds `display_lines`. */
  method ChunkLines(s: string) returns (lines: seq<Chunk>)
    ensures lines == Chunks(s)
  {
    lines := [];
    var i: nat := 0;
    while i < |s|
      invariant lines + ChunksFrom(s, i) == Chunks(s)
      decreases |s| - i
    {
      lines := lines + [Chunk(i, s[i..Min(i + LineLength, |s|)])];
      i := i + LineLength;
    }
  }
}
