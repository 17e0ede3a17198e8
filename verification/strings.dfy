/**
  The handful of Rust `str` operations the model needs, with Rust's semantics:
  `starts_with`, `strip_prefix`, `trim_start_matches`, `contains`, `split`,
  `split_whitespace`, `trim`, `lines` and `str::parse::<u32>`.
 */
module Strings {
  import opened Wrappers

  predicate StartsWith(s: string, p: string) {
    |p| <= |s| && s[..|p|] == p
  }

  /** `s.strip_prefix('v').unwrap_or(s)`: at most one leading `v` removed. */
  function StripV(s: string): (r: string)
    ensures StartsWith(s, "v") ==> "v" + r == s
    ensures !StartsWith(s, "v") ==> r == s
  {
    if StartsWith(s, "v") then s[1..] else s
  }

  /** `k` copies of `p`, one after another. */
  function Repeat(p: string, k: nat): string {
    if k == 0 then "" else p + Repeat(p, k - 1)
  }

  /**
    `s.trim_start_matches(p)`: removes `p` from the front as many times as it
    occurs there. Only whole copies of `p` go, and what is left does not start
    with `p`.
   */
  function TrimStartMatches(s: string, p: string): (r: string)
    ensures |r| <= |s| && r == s[|s| - |r|..]
    ensures |p| > 0 ==> !StartsWith(r, p)
    ensures |p| > 0 ==> exists k: nat :: s == Repeat(p, k) + r
    decreases |s|
  {
    if |p| > 0 && StartsWith(s, p) then
      var r := TrimStartMatches(s[|p|..], p);
      RepeatOnceMore(s, p, r);
      r
    else
      assert s == Repeat(p, 0) + s;
      s
  }

  lemma RepeatOnceMore(s: string, p: string, r: string)
    requires StartsWith(s, p)
    requires exists k: nat :: s[|p|..] == Repeat(p, k) + r
    ensures exists k: nat :: s == Repeat(p, k) + r
  {
    var k: nat :| s[|p|..] == Repeat(p, k) + r;
    PrependCopy(s, p, r, k);
  }

  lemma PrependCopy(s: string, p: string, r: string, k: nat)
    requires StartsWith(s, p) && s[|p|..] == Repeat(p, k) + r
    ensures s == Repeat(p, k + 1) + r
  {
    assert s == p + s[|p|..];
  }

  ghost predicate OccursAt(s: string, t: string, i: int) {
    0 <= i && i + |t| <= |s| && s[i..i + |t|] == t
  }

  /** Substring search, as `str::contains` with a `&str` pattern: `t` occurs at some offset of `s`. */
  function Contains(s: string, t: string): (r: bool)
    ensures r <==> exists i :: OccursAt(s, t, i)
    decreases |s|
  {
    OccursStep(s, t);
    StartsWith(s, t) || (|s| > 0 && Contains(s[1..], t))
  }

  /** `t` occurs in `s` exactly when it starts `s` or occurs in the rest of `s`. */
  lemma OccursStep(s: string, t: string)
    ensures (exists i :: OccursAt(s, t, i)) <==> StartsWith(s, t) || (|s| > 0 && exists i :: OccursAt(s[1..], t, i))
  {
    if StartsWith(s, t) {
      assert OccursAt(s, t, 0);
    } else if |s| == 0 {
      assert forall i :: !OccursAt(s, t, i);
    } else if exists i :: OccursAt(s[1..], t, i) {
      var i :| OccursAt(s[1..], t, i);
      TailSlice(s, i, |t|);
      assert OccursAt(s, t, i + 1);
    } else {
      forall i
        ensures !OccursAt(s, t, i)
      {
        if 0 < i && i + |t| <= |s| {
          TailSlice(s, i - 1, |t|);
          assert !OccursAt(s[1..], t, i - 1);
        }
      }
    }
  }

  lemma TailSlice(s: string, j: nat, n: nat)
    requires 0 < |s| && j + n <= |s| - 1
    ensures s[1..][j..j + n] == s[j + 1..j + 1 + n]
  {
  }

  /** Number of occurrences of the character `c` in `s` (`s.matches(c).count()`). */
  function Count(s: string, c: char): nat {
    if |s| == 0 then 0 else (if s[0] == c then 1 else 0) + Count(s[1..], c)
  }

  /** `s.split(c)`: one more part than there are separators, none containing `c`. */
  function Split(s: string, c: char): (parts: seq<string>)
    ensures |parts| == Count(s, c) + 1
    ensures forall k :: 0 <= k < |parts| ==> c !in parts[k]
  {
    if |s| == 0 then [""]
    else if s[0] == c then [""] + Split(s[1..], c)
    else
      var rest := Split(s[1..], c);
      [[s[0]] + rest[0]] + rest[1..]
  }

  /** Joining the parts of a split with the separator gives back the original string. */
  function Join(parts: seq<string>, c: char): string
    requires |parts| > 0
  {
    if |parts| == 1 then parts[0] else parts[0] + [c] + Join(parts[1..], c)
  }

  lemma {:induction false} SplitJoin(s: string, c: char)
    ensures Join(Split(s, c), c) == s
  {
    if |s| == 0 {
    } else if s[0] == c {
      SplitJoin(s[1..], c);
      assert Split(s, c)[1..] == Split(s[1..], c);
      assert s == [c] + s[1..];
    } else {
      var rest := Split(s[1..], c);
      SplitJoin(s[1..], c);
      var parts := Split(s, c);
      assert parts[0] == [s[0]] + rest[0];
      if |rest| == 1 {
        assert s == [s[0]] + s[1..];
      } else {
        assert parts[1..] == rest[1..];
        assert s == [s[0]] + s[1..];
      }
    }
  }

  /** Rust's `char::is_whitespace`: the Unicode White_Space property. */
  predicate IsWhitespace(c: char) {
    || ('\U{0009}' <= c <= '\U{000D}')
    || c == ' ' || c == '\U{0085}' || c == '\U{00A0}' || c == '\U{1680}'
    || ('\U{2000}' <= c <= '\U{200A}')
    || c == '\U{2028}' || c == '\U{2029}' || c == '\U{202F}' || c == '\U{205F}' || c == '\U{3000}'
  }

  predicate NoWhitespace(s: string) {
    forall k :: 0 <= k < |s| ==> !IsWhitespace(s[k])
  }

  /** Length of the longest prefix of `s` without whitespace. */
  function WordLength(s: string): (n: nat)
    ensures n <= |s| && NoWhitespace(s[..n])
    ensures n < |s| ==> IsWhitespace(s[n])
  {
    if |s| == 0 || IsWhitespace(s[0]) then 0 else 1 + WordLength(s[1..])
  }

  /** `s.split_whitespace()`: the maximal non-empty runs of non-whitespace characters. */
  function SplitWhitespace(s: string): (fields: seq<string>)
    ensures forall k :: 0 <= k < |fields| ==> |fields[k]| > 0 && NoWhitespace(fields[k])
    ensures |s| > 0 && NoWhitespace(s) ==> fields == [s]
    ensures AllWhitespace(s) ==> fields == []
    decreases |s|
  {
    if |s| == 0 then []
    else if IsWhitespace(s[0]) then SplitWhitespace(s[1..])
    else
      var n := WordLength(s);
      assert NoWhitespace(s) ==> n == |s| && s[..n] == s && AllWhitespace(s[n..]);
      [s[..n]] + SplitWhitespace(s[n..])
  }

  predicate AllWhitespace(s: string) {
    forall k :: 0 <= k < |s| ==> IsWhitespace(s[k])
  }

  /** Whitespace before the first field is skipped: it yields no field, not even an empty one. */
  lemma {:induction false} SplitWhitespaceSkip(g: string, s: string)
    requires AllWhitespace(g)
    ensures SplitWhitespace(g + s) == SplitWhitespace(s)
    decreases |g|
  {
    if |g| > 0 {
      assert (g + s)[1..] == g[1..] + s;
      SplitWhitespaceSkip(g[1..], s);
    } else {
      assert g + s == s;
    }
  }

  /**
    A non-empty word that ends where whitespace (or the string) begins is one
    whole field. With `SplitWhitespaceSkip` this determines `split_whitespace`
    on every string.
   */
  lemma SplitWhitespaceWord(w: string, s: string)
    requires |w| > 0 && NoWhitespace(w)
    requires |s| == 0 || IsWhitespace(s[0])
    ensures SplitWhitespace(w + s) == [w] + SplitWhitespace(s)
  {
    WordLengthOf(w, s);
    assert (w + s)[..|w|] == w;
    assert (w + s)[|w|..] == s;
  }

  lemma {:induction false} WordLengthOf(w: string, s: string)
    requires NoWhitespace(w)
    requires |s| == 0 || IsWhitespace(s[0])
    ensures WordLength(w + s) == |w|
    decreases |w|
  {
    if |w| > 0 {
      assert (w + s)[1..] == w[1..] + s;
      WordLengthOf(w[1..], s);
    } else {
      assert w + s == s;
    }
  }

  /** `s.trim_start()`. */
  function TrimStart(s: string): (r: string)
    ensures |r| <= |s| && r == s[|s| - |r|..]
    ensures |r| > 0 ==> !IsWhitespace(r[0])
    ensures AllWhitespace(s[..|s| - |r|])
  {
    if |s| > 0 && IsWhitespace(s[0]) then TrimStart(s[1..]) else s
  }

  /** `s.trim_end()`. */
  function TrimEnd(s: string): (r: string)
    ensures |r| <= |s| && r == s[..|r|]
    ensures |r| > 0 ==> !IsWhitespace(r[|r| - 1])
    ensures AllWhitespace(s[|r|..])
  {
    if |s| > 0 && IsWhitespace(s[|s| - 1]) then TrimEnd(s[..|s| - 1]) else s
  }

  /**
    `r` is the piece of `s` at offset `i`, with only whitespace on either side
    of it and no whitespace at either of its own ends.
   */
  ghost predicate TrimmedAt(s: string, r: string, i: nat) {
    && i + |r| <= |s| && r == s[i..i + |r|]
    && AllWhitespace(s[..i]) && AllWhitespace(s[i + |r|..])
    && (|r| > 0 ==> !IsWhitespace(r[0]) && !IsWhitespace(r[|r| - 1]))
  }

  /** `s.trim()`: the middle of `s` with the leading and trailing whitespace cut away. */
  function Trim(s: string): (r: string)
    ensures exists i: nat :: TrimmedAt(s, r, i)
  {
    var t := TrimStart(s);
    var r := TrimEnd(t);
    TrimmedAtWitness(s, t, r);
    r
  }

  lemma TrimmedAtWitness(s: string, t: string, r: string)
    requires |t| <= |s| && t == s[|s| - |t|..] && AllWhitespace(s[..|s| - |t|])
    requires |t| > 0 ==> !IsWhitespace(t[0])
    requires |r| <= |t| && r == t[..|r|] && AllWhitespace(t[|r|..])
    requires |r| > 0 ==> !IsWhitespace(r[|r| - 1])
    ensures TrimmedAt(s, r, |s| - |t|)
  {
    var i := |s| - |t|;
    assert s[i..i + |r|] == t[..|r|];
    assert s[i + |r|..] == t[|r|..];
  }

  /** A string with no whitespace at all is left unchanged by `trim`. */
  lemma TrimNoWhitespace(s: string)
    requires NoWhitespace(s)
    ensures Trim(s) == s
  {
  }

  /** Index of the first `c` in `s`, or `|s|` when there is none. */
  function IndexOf(s: string, c: char): (k: nat)
    ensures k <= |s| && c !in s[..k]
    ensures k < |s| ==> s[k] == c
  {
    if |s| == 0 || s[0] == c then 0 else 1 + IndexOf(s[1..], c)
  }

  /**
    `s.lines()`: splits at `\n` or `\r\n`; a final line ending is optional and
    an empty string has no lines.
   */
  function Lines(s: string): (ls: seq<string>)
    ensures |s| == 0 <==> |ls| == 0
    ensures forall k :: 0 <= k < |ls| ==> '\n' !in ls[k]
    ensures '\n' !in s && |s| > 0 ==> ls == [s]
    decreases |s|
  {
    if |s| == 0 then []
    else
      var k := IndexOf(s, '\n');
      if k == |s| then [s]
      else
        var line := if k > 0 && s[k - 1] == '\r' then s[..k - 1] else s[..k];
        [line] + Lines(s[k + 1..])
  }

  /** A line ended by `\n` (and not by `\r\n`) is the first line, kept whole. */
  lemma LinesCons(s: string, rest: string)
    requires '\n' !in s && (|s| == 0 || s[|s| - 1] != '\r')
    ensures Lines(s + "\n" + rest) == [s] + Lines(rest)
  {
    var t := s + "\n" + rest;
    assert t[..|s|] == s;
    IndexOfFirst(t, '\n', |s|);
    assert t[|s| + 1..] == rest;
  }

  /** A line ended by `\r\n` is the first line, with the `\r` dropped. */
  lemma LinesCrlfCons(s: string, rest: string)
    requires '\n' !in s
    ensures Lines(s + "\r\n" + rest) == [s] + Lines(rest)
  {
    var t := s + "\r\n" + rest;
    assert t[..|s| + 1] == s + "\r";
    IndexOfFirst(t, '\n', |s| + 1);
    assert t[..|s|] == s;
    assert t[|s| + 2..] == rest;
  }

  /** `ls` written out with a `\n` after every line. */
  function Unlines(ls: seq<string>): string {
    if |ls| == 0 then "" else ls[0] + "\n" + Unlines(ls[1..])
  }

  /** Round trip: writing lines out one per `\n` and reading them back with `lines` gives them back. */
  lemma {:induction false} LinesUnlines(ls: seq<string>)
    requires forall k :: 0 <= k < |ls| ==> '\n' !in ls[k] && (|ls[k]| == 0 || ls[k][|ls[k]| - 1] != '\r')
    ensures Lines(Unlines(ls)) == ls
  {
    if |ls| > 0 {
      LinesCons(ls[0], Unlines(ls[1..]));
      LinesUnlines(ls[1..]);
    }
  }

  /** A string without line breaks, followed by one `\n`, is exactly one line. */
  lemma FirstLineOf(s: string, rest: string)
    requires '\n' !in s && (|s| == 0 || s[|s| - 1] != '\r')
    ensures |Lines(s + "\n" + rest)| > 0 && Lines(s + "\n" + rest)[0] == s
  {
    LinesCons(s, rest);
  }

  lemma {:induction false} IndexOfFirst(s: string, c: char, k: nat)
    requires k < |s| && s[k] == c && c !in s[..k]
    ensures IndexOf(s, c) == k
  {
    if k > 0 {
      assert s[0] in s[..k];
      assert s[1..][..k - 1] == s[1..k];
      IndexOfFirst(s[1..], c, k - 1);
    }
  }

  predicate IsDigit(c: char) {
    '0' <= c <= '9'
  }

  predicate AllDigits(s: string) {
    forall k :: 0 <= k < |s| ==> IsDigit(s[k])
  }

  /** Decimal value of a string of digits. */
  function DigitsValue(s: string): nat
    requires AllDigits(s)
  {
    if |s| == 0 then 0 else 10 * DigitsValue(s[..|s| - 1]) + (s[|s| - 1] as int - '0' as int)
  }

  const U32Max: nat := 0xFFFF_FFFF

  /**
    `s.parse::<u32>()`: an optional leading `+`, then at least one decimal digit,
    with a value that fits in 32 bits.
   */
  function ParseU32(s: string): (r: Option<nat>)
    ensures r.Some? ==> r.value <= U32Max
    ensures r.Some? ==> |s| > 0 && NoWhitespace(s)
    ensures r.Some? ==> forall k :: 0 <= k < |s| ==> IsDigit(s[k]) || (k == 0 && s[k] == '+')
  {
    var digits := if |s| > 0 && s[0] == '+' then s[1..] else s;
    if |digits| > 0 && AllDigits(digits) && DigitsValue(digits) <= U32Max
    then Some(DigitsValue(digits))
    else None
  }
}
