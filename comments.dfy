/** `strip_comment` of the loaders' utilities: a line loses everything from
    its first `#` on. Nothing is trimmed. */
module Comments {

  /** The characters of `line` before its first `#`, or `line` itself when it
      has none (`find('#')` followed by `split_at`). */
  function StripComment(line: string): (r: string)
    ensures '#' !in line ==> r == line
    ensures '#' in line ==> |r| < |line| && line[|r|] == '#'
    ensures r == line[..|r|]
    ensures '#' !in r
  {
    if line == [] then []
    else if line[0] == '#' then []
    else [line[0]] + StripComment(line[1..])
  }

  /** Stripping a stripped line changes nothing. */
  lemma StripCommentIdempotent(line: string)
    ensures StripComment(StripComment(line)) == StripComment(line)
  {
  }

  /** Only the first `#` matters: whatever follows it, a line keeps exactly
      the text before it. */
  lemma {:induction false} StripCommentAtFirstHash(before: string, after: string)
    requires '#' !in before
    ensures StripComment(before + "#" + after) == before
    decreases |before|
  {
    if before != [] {
      assert (before + "#" + after)[1..] == before[1..] + "#" + after;
      StripCommentAtFirstHash(before[1..], after);
    }
  }

  /** Blanks before the comment are kept, so such a line is not empty and the
      loaders do not skip it. */
  lemma StripCommentKeepsBlanks()
    ensures StripComment("  # x") == "  "
    ensures StripComment("  # x") != ""
  {
    StripCommentAtFirstHash("  ", " x");
    assert "  " + "#" + " x" == "  # x";
  }
}
