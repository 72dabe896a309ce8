/** Text helpers shared by the two loaders: Rust's `str::split` on one
    character, and the decimal `u32` recogniser that `u32::from_str` and the
    `sscanf!` placeholders apply to each token. */
module Text {
  import opened Wrappers

  /** The pieces of `s` between occurrences of `sep`, as `str::split` yields
      them: an empty string gives one empty piece, and two adjacent separators
      give an empty piece between them. */
  function Split(s: string, sep: char): (r: seq<string>)
    ensures |r| >= 1
    ensures forall i :: 0 <= i < |r| ==> sep !in r[i]
    decreases |s|
  {
    if s == [] then [""]
    else
      var rest := Split(s[1..], sep);
      if s[0] == sep then [""] + rest
      else [[s[0]] + rest[0]] + rest[1..]
  }

  /** The inverse of Split: the pieces glued back with `sep` between them. */
  function Join(pieces: seq<string>, sep: char): string
    requires |pieces| >= 1
  {
    if |pieces| == 1 then pieces[0] else pieces[0] + [sep] + Join(pieces[1..], sep)
  }

  lemma {:induction false} JoinSplit(s: string, sep: char)
    ensures Join(Split(s, sep), sep) == s
    decreases |s|
  {
    if s != [] {
      JoinSplit(s[1..], sep);
      var rest := Split(s[1..], sep);
      if s[0] != sep {
        if |rest| == 1 {
          assert Split(s, sep) == [[s[0]] + rest[0]];
        } else {
          assert Split(s, sep)[1..] == rest[1..];
        }
      }
    }
  }

  lemma {:induction false} SplitWithoutSep(p: string, sep: char)
    requires sep !in p
    ensures Split(p, sep) == [p]
    decreases |p|
  {
    if p != [] {
      SplitWithoutSep(p[1..], sep);
      assert [p[0]] + p[1..] == p;
    }
  }

  lemma {:induction false} SplitAfterPiece(p: string, sep: char, t: string)
    requires sep !in p
    ensures Split(p + [sep] + t, sep) == [p] + Split(t, sep)
    decreases |p|
  {
    var s := p + [sep] + t;
    if p == [] {
      assert s[1..] == t;
    } else {
      assert s[1..] == p[1..] + [sep] + t;
      SplitAfterPiece(p[1..], sep, t);
      assert [p[0]] + p[1..] == p;
    }
  }

  /** Splitting what Join produced gives the pieces back, as long as no
      piece contains the separator. */
  lemma {:induction false} SplitJoin(pieces: seq<string>, sep: char)
    requires |pieces| >= 1
    requires forall i :: 0 <= i < |pieces| ==> sep !in pieces[i]
    ensures Split(Join(pieces, sep), sep) == pieces
    decreases |pieces|
  {
    if |pieces| == 1 {
      SplitWithoutSep(pieces[0], sep);
    } else {
      SplitJoin(pieces[1..], sep);
      SplitAfterPiece(pieces[0], sep, Join(pieces[1..], sep));
      assert [pieces[0]] + pieces[1..] == pieces;
    }
  }

  predicate IsDigit(c: char) {
    '0' <= c <= '9'
  }

  predicate AllDigits(s: string) {
    forall i :: 0 <= i < |s| ==> IsDigit(s[i])
  }

  function DigitValue(c: char): nat
    requires IsDigit(c)
  {
    c as int - '0' as int
  }

  /** The number a non-empty run of decimal digits denotes (leading zeros allowed). */
  function DigitsValue(s: string): nat
    requires AllDigits(s)
  {
    if s == [] then 0 else 10 * DigitsValue(s[..|s| - 1]) + DigitValue(s[|s| - 1])
  }

  /** The digits of an optional leading `+` sign's token. */
  function Unsigned(tok: string): string {
    if |tok| > 0 && tok[0] == '+' then tok[1..] else tok
  }

  /** `u32::from_str`: an optional `+`, then at least one decimal digit, with
      a value below 2^32. No sign other than `+`, no blanks, no other base. */
  function ParseU32(tok: string): (r: Option<U32>)
    ensures r.Some? ==> |tok| >= 1 && IsDigit(tok[|tok| - 1])
    ensures r.Some? ==> forall i :: 0 <= i < |tok| ==> IsDigit(tok[i]) || (i == 0 && tok[i] == '+')
  {
    var digits := Unsigned(tok);
    if |digits| > 0 && AllDigits(digits) && DigitsValue(digits) < U32_LIMIT
    then Some(DigitsValue(digits))
    else None
  }

  function DigitChar(d: nat): char
    requires d < 10
  {
    ('0' as int + d) as char
  }

  /** The canonical decimal text of `n`, without sign or leading zeros. */
  function Render(n: nat): string {
    if n < 10 then [DigitChar(n)] else Render(n / 10) + [DigitChar(n % 10)]
  }

  lemma {:induction false} RenderDigits(n: nat)
    ensures |Render(n)| >= 1 && AllDigits(Render(n))
    ensures DigitsValue(Render(n)) == n
  {
    if n >= 10 {
      RenderDigits(n / 10);
      var s := Render(n);
      assert s[..|s| - 1] == Render(n / 10);
    }
  }

  /** Parsing the rendered text of a `u32` gives the number back. */
  lemma RenderParse(n: U32)
    ensures ParseU32(Render(n)) == Some(n)
    ensures forall sep :: !IsDigit(sep) ==> sep !in Render(n)
  {
    RenderDigits(n);
  }
}
