/**
 * String helpers shared by the pages: JavaScript's `trim`, `split(' ')`,
 * `toUpperCase`, `substring(0, n)` and the `getInitials` rule built from them.
 * Strings are sequences of characters.
 */
module Text {

  // ---------------------------------------------------------------------------
  // trim
  // ---------------------------------------------------------------------------

  /** The code points `String.prototype.trim` removes: ECMAScript WhiteSpace and LineTerminator. */
  predicate IsWhitespace(c: char) {
    var n := c as int;
    || n == 0x09 || n == 0x0B || n == 0x0C || n == 0x20 || n == 0xA0 || n == 0xFEFF
    || n == 0x1680 || (0x2000 <= n <= 0x200A) || n == 0x202F || n == 0x205F || n == 0x3000
    || n == 0x0A || n == 0x0D || n == 0x2028 || n == 0x2029
  }

  predicate AllWhitespace(s: string) {
    forall i :: 0 <= i < |s| ==> IsWhitespace(s[i])
  }

  /** Length of the longest all-whitespace prefix of `s`. */
  function LeadingWhitespace(s: string): (k: nat)
    ensures k <= |s|
    ensures AllWhitespace(s[..k])
    ensures k < |s| ==> !IsWhitespace(s[k])
  {
    if s == [] || !IsWhitespace(s[0]) then 0
    else
      var k := 1 + LeadingWhitespace(s[1..]);
      assert s[..k] == [s[0]] + s[1..][..k - 1];
      k
  }

  /** Length of the longest all-whitespace suffix of `s`. */
  function TrailingWhitespace(s: string): (k: nat)
    ensures k <= |s|
    ensures AllWhitespace(s[|s| - k..])
    ensures k < |s| ==> !IsWhitespace(s[|s| - 1 - k])
  {
    if s == [] || !IsWhitespace(s[|s| - 1]) then 0
    else
      var init := s[..|s| - 1];
      var k := 1 + TrailingWhitespace(init);
      assert s[|s| - k..] == init[|init| - (k - 1)..] + [s[|s| - 1]];
      k
  }

  /** `s.trim()`: `s` without its leading and trailing whitespace. */
  function Trim(s: string): (r: string)
    ensures LeadingWhitespace(s) + |r| <= |s|
    ensures r == s[LeadingWhitespace(s)..LeadingWhitespace(s) + |r|]
    ensures AllWhitespace(s[..LeadingWhitespace(s)])
    ensures AllWhitespace(s[LeadingWhitespace(s) + |r|..])
    ensures r != [] ==> !IsWhitespace(r[0]) && !IsWhitespace(r[|r| - 1])
  {
    var a := LeadingWhitespace(s);
    var rest := s[a..];
    var b := TrailingWhitespace(rest);
    assert rest[|rest| - b..] == s[a + (|rest| - b)..];
    rest[..|rest| - b]
  }

  /** Trimming removes only whitespace: the result is empty exactly for an all-whitespace input. */
  lemma TrimEmptyIff(s: string)
    ensures Trim(s) == [] <==> AllWhitespace(s)
  {
    var a := LeadingWhitespace(s);
    var r := Trim(s);
    if r == [] {
      assert s == s[..a] + s[a..];
      forall i | 0 <= i < |s| ensures IsWhitespace(s[i]) {
        assert s[i] == s[..a][i];
      }
    } else {
      assert !IsWhitespace(s[a]);
    }
  }

  /** Trimming an already trimmed string changes nothing. */
  lemma TrimIdempotent(s: string)
    ensures Trim(Trim(s)) == Trim(s)
  {
    var r := Trim(s);
    if r != [] {
      assert LeadingWhitespace(r) == 0;
      assert TrailingWhitespace(r[0..]) == 0 by { assert r[0..] == r; }
    }
  }

  lemma {:induction false} LeadingOfPadded(w: string, t: string)
    requires AllWhitespace(w)
    requires t != [] && !IsWhitespace(t[0])
    ensures LeadingWhitespace(w + t) == |w|
  {
    if w == [] {
      assert w + t == t;
    } else {
      assert (w + t)[1..] == w[1..] + t;
      LeadingOfPadded(w[1..], t);
    }
  }

  lemma {:induction false} TrailingOfPadded(t: string, w: string)
    requires AllWhitespace(w)
    requires t != [] && !IsWhitespace(t[|t| - 1])
    ensures TrailingWhitespace(t + w) == |w|
  {
    if w == [] {
      assert t + w == t;
    } else {
      var init := (t + w)[..|t + w| - 1];
      assert init == t + w[..|w| - 1];
      TrailingOfPadded(t, w[..|w| - 1]);
    }
  }

  /**
   * A trimmed, non-empty string padded with whitespace on either side trims back to
   * itself: re-typing a tag added by `addDisability` with surrounding spaces yields that tag.
   */
  lemma TrimSurrounded(w1: string, t: string, w2: string)
    requires AllWhitespace(w1) && AllWhitespace(w2)
    requires t != [] && Trim(t) == t
    ensures Trim(w1 + t + w2) == t
  {
    assert !IsWhitespace(t[0]) && !IsWhitespace(t[|t| - 1]);
    var tw := t + w2;
    assert tw[0] == t[0];
    var s := w1 + tw;
    assert w1 + t + w2 == s;
    LeadingOfPadded(w1, tw);
    assert s[|w1|..] == tw;
    TrailingOfPadded(t, w2);
    assert tw[..|tw| - |w2|] == t;
  }

  // ---------------------------------------------------------------------------
  // split(' ') and join
  // ---------------------------------------------------------------------------

  /** `s.split(' ')`: the segments between single spaces, empty ones included. */
  function Split(s: string): (parts: seq<string>)
    ensures |parts| >= 1
    ensures |parts| == CountSpaces(s) + 1
    ensures forall i :: 0 <= i < |parts| ==> ' ' !in parts[i]
    ensures JoinSpaces(parts) == s
  {
    if s == [] then [[]]
    else
      var rest := Split(s[1..]);
      if s[0] == ' ' then
        [[]] + rest
      else
        var parts := [[s[0]] + rest[0]] + rest[1..];
        assert parts[1..] == rest[1..];
        parts
  }

  function CountSpaces(s: string): nat {
    if s == [] then 0 else (if s[0] == ' ' then 1 else 0) + CountSpaces(s[1..])
  }

  /** `parts.join(' ')`. */
  function JoinSpaces(parts: seq<string>): string
    requires |parts| >= 1
  {
    if |parts| == 1 then parts[0] else parts[0] + " " + JoinSpaces(parts[1..])
  }

  /** Splitting a joined list of space-free segments gives the segments back. */
  lemma {:induction false} SplitJoin(parts: seq<string>)
    requires |parts| >= 1
    requires forall i :: 0 <= i < |parts| ==> ' ' !in parts[i]
    ensures Split(JoinSpaces(parts)) == parts
  {
    if |parts| == 1 {
      SplitSpaceFree(parts[0]);
    } else {
      SplitJoin(parts[1..]);
      SplitPrefixed(parts[0], JoinSpaces(parts[1..]));
    }
  }

  lemma {:induction false} SplitSpaceFree(w: string)
    requires ' ' !in w
    ensures Split(w) == [w]
  {
    if w != [] {
      SplitSpaceFree(w[1..]);
    }
  }

  /** A space-free word followed by a space and the rest splits as that word, then the rest's segments. */
  lemma {:induction false} SplitPrefixed(w: string, rest: string)
    requires ' ' !in w
    ensures Split(w + " " + rest) == [w] + Split(rest)
  {
    var s := w + " " + rest;
    if w == [] {
      assert s[1..] == rest;
    } else {
      assert s[1..] == w[1..] + " " + rest;
      SplitPrefixed(w[1..], rest);
      var r := Split(s[1..]);
      assert r[0] == w[1..] && r[1..] == Split(rest);
      assert [s[0]] + w[1..] == w;
    }
  }

  // ---------------------------------------------------------------------------
  // toUpperCase
  // ---------------------------------------------------------------------------

  /** Upper-case mapping of one character (the ASCII letters; every other character is kept). */
  function UpperChar(c: char): (u: char)
    ensures 'a' <= c <= 'z' ==> 'A' <= u <= 'Z'
    ensures !('a' <= c <= 'z') ==> u == c
    ensures !('a' <= u <= 'z')
  {
    if 'a' <= c <= 'z' then (c as int - 32) as char else c
  }

  /** `s.toUpperCase()`, character by character. */
  function Upper(s: string): (r: string)
    ensures |r| == |s|
    ensures forall i :: 0 <= i < |s| ==> r[i] == UpperChar(s[i])
  {
    if s == [] then [] else [UpperChar(s[0])] + Upper(s[1..])
  }

  // ---------------------------------------------------------------------------
  // getInitials
  // ---------------------------------------------------------------------------

  /** `n[0]` of each segment, joined with `''`; an empty segment's `undefined` joins as nothing. */
  function FirstChars(parts: seq<string>): string {
    if parts == [] then []
    else (if parts[0] == [] then [] else [parts[0][0]]) + FirstChars(parts[1..])
  }

  /**
   * Reference definition of the initials, without splitting: every non-space character
   * that starts the string or follows a space, in order. `atStart` says whether the
   * character before `s` was a space (or there was none).
   */
  function WordStarts(s: string, atStart: bool): string {
    if s == [] then []
    else (if atStart && s[0] != ' ' then [s[0]] else []) + WordStarts(s[1..], s[0] == ' ')
  }

  /** The first characters of the `split(' ')` segments are exactly the word starts. */
  lemma {:induction false} FirstCharsOfSplit(s: string)
    ensures FirstChars(Split(s)) == WordStarts(s, true)
    ensures FirstChars(Split(s)[1..]) == WordStarts(s, false)
  {
    if s != [] {
      var rest := Split(s[1..]);
      FirstCharsOfSplit(s[1..]);
      if s[0] == ' ' {
        assert Split(s) == [[]] + rest;
        assert Split(s)[1..] == rest;
        assert FirstChars(rest) == FirstChars([rest[0]] + rest[1..]) by { assert rest == [rest[0]] + rest[1..]; }
      } else {
        assert Split(s)[1..] == rest[1..];
      }
    }
  }

  /** `name.split(' ').map(n => n[0]).join('').toUpperCase()` for a non-empty name. */
  function InitialsOf(name: string): (r: string)
    ensures r == Upper(WordStarts(name, true))
    ensures |r| <= |name|
  {
    FirstCharsOfSplit(name);
    WordStartsLength(name, true);
    Upper(FirstChars(Split(name)))
  }

  lemma {:induction false} WordStartsLength(s: string, atStart: bool)
    ensures |WordStarts(s, atStart)| <= |s|
  {
    if s != [] { WordStartsLength(s[1..], s[0] == ' '); }
  }

  /** The initials have no spaces: each comes from a character that is not a space. */
  lemma {:induction false} WordStartsHaveNoSpace(s: string, atStart: bool)
    ensures ' ' !in WordStarts(s, atStart)
  {
    if s != [] { WordStartsHaveNoSpace(s[1..], s[0] == ' '); }
  }

  /** A name made only of spaces has empty initials: every segment is empty. */
  lemma {:induction false} SpacesHaveNoInitials(s: string, atStart: bool)
    requires forall i :: 0 <= i < |s| ==> s[i] == ' '
    ensures WordStarts(s, atStart) == []
  {
    if s != [] { SpacesHaveNoInitials(s[1..], true); }
  }

  /** Initials of words joined by single spaces: one upper-cased letter per word. */
  lemma {:induction false} InitialsOfWords(words: seq<string>)
    requires |words| >= 1
    requires forall i :: 0 <= i < |words| ==> words[i] != [] && ' ' !in words[i]
    ensures InitialsOf(JoinSpaces(words)) == Upper(seq(|words|, i requires 0 <= i < |words| => words[i][0]))
  {
    SplitJoin(words);
    FirstCharsNonEmpty(words);
  }

  lemma {:induction false} FirstCharsNonEmpty(words: seq<string>)
    requires forall i :: 0 <= i < |words| ==> words[i] != []
    ensures FirstChars(words) == seq(|words|, i requires 0 <= i < |words| => words[i][0])
  {
    if words != [] { FirstCharsNonEmpty(words[1..]); }
  }

  // ---------------------------------------------------------------------------
  // substring(0, n) and slice(0, n)
  // ---------------------------------------------------------------------------

  /**
   * `s.substring(0, n)` on a string, `s.slice(0, n)` on an array: the first `n`
   * elements, or all of `s` when it is shorter.
   */
  function Prefix<T>(s: seq<T>, n: nat): (r: seq<T>)
    ensures |r| == (if |s| < n then |s| else n)
    ensures r <= s
  {
    if |s| < n then s else s[..n]
  }
}
