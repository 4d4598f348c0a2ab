/** The JavaScript string operations the bot relies on: `includes`, `startsWith`,
    `split` on one character, `trim`, and ASCII case mapping. */
module Text {

  /** `s.startsWith(p)`. */
  predicate StartsWith(s: string, p: string) {
    |p| <= |s| && s[..|p|] == p
  }

  /** One differing character rules a prefix out. */
  lemma NotStartsWith(s: string, p: string, i: int)
    requires 0 <= i < |p| && i < |s| && s[i] != p[i]
    ensures !StartsWith(s, p)
  {
    assert !StartsWith(s, p) by {
      if |p| <= |s| { assert s[..|p|][i] != p[i]; }
    }
  }

  /** `k` occurs in `s` starting at position `i`. */
  predicate OccursAt(s: string, k: string, i: int) {
    0 <= i <= |s| - |k| && s[i..i + |k|] == k
  }

  /** `s.includes(k)`: `k` occurs somewhere in `s` as a contiguous block. */
  predicate Contains(s: string, k: string) {
    exists i :: 0 <= i <= |s| - |k| && OccursAt(s, k, i)
  }

  /** A string that lacks some character of `k` does not contain `k`. */
  lemma MissingChar(s: string, k: string, j: int)
    requires 0 <= j < |k| && k[j] !in s
    ensures !Contains(s, k)
  {
  }

  /** `s.split(sep)` for a one-character separator: always at least one piece,
      and no piece contains the separator. */
  function Split(s: string, sep: char): (parts: seq<string>)
    ensures |parts| >= 1
    ensures forall i :: 0 <= i < |parts| ==> sep !in parts[i]
    decreases |s|
  {
    if |s| == 0 then [""]
    else if s[0] == sep then [""] + Split(s[1..], sep)
    else
      var rest := Split(s[1..], sep);
      [[s[0]] + rest[0]] + rest[1..]
  }

  /** `parts.join(sep)`. */
  function Join(parts: seq<string>, sep: char): string
    requires |parts| >= 1
    decreases |parts|
  {
    if |parts| == 1 then parts[0] else parts[0] + [sep] + Join(parts[1..], sep)
  }

  /** Joining the pieces of a split gives back the original string. */
  lemma {:induction false} JoinSplit(s: string, sep: char)
    ensures Join(Split(s, sep), sep) == s
    decreases |s|
  {
    if |s| == 0 {
    } else if s[0] == sep {
      JoinSplit(s[1..], sep);
      assert Split(s, sep)[1..] == Split(s[1..], sep);
      assert s == [sep] + s[1..];
    } else {
      JoinSplit(s[1..], sep);
      var rest := Split(s[1..], sep);
      var parts := Split(s, sep);
      assert parts[1..] == rest[1..];
      if |rest| == 1 {
        assert s == [s[0]] + rest[0];
      } else {
        assert Join(rest, sep) == rest[0] + [sep] + Join(rest[1..], sep);
        assert s == [s[0]] + rest[0] + [sep] + Join(rest[1..], sep);
      }
    }
  }

  /** Splitting a join of separator-free pieces gives back the pieces. */
  lemma {:induction false} SplitJoin(parts: seq<string>, sep: char)
    requires |parts| >= 1
    requires forall i :: 0 <= i < |parts| ==> sep !in parts[i]
    ensures Split(Join(parts, sep), sep) == parts
    decreases |parts|
  {
    if |parts| == 1 {
      SplitNoSep(parts[0], sep);
    } else {
      SplitJoin(parts[1..], sep);
      SplitPrefix(parts[0], sep, Join(parts[1..], sep));
      assert Join(parts, sep) == parts[0] + [sep] + Join(parts[1..], sep);
      assert parts == [parts[0]] + parts[1..];
    }
  }

  /** A string without the separator splits into itself. */
  lemma {:induction false} SplitNoSep(s: string, sep: char)
    requires sep !in s
    ensures Split(s, sep) == [s]
    decreases |s|
  {
    if |s| > 0 {
      SplitNoSep(s[1..], sep);
      assert s == [s[0]] + s[1..];
    }
  }

  /** The text before the first separator is the first piece. */
  lemma {:induction false} SplitPrefix(a: string, sep: char, b: string)
    requires sep !in a
    ensures Split(a + [sep] + b, sep) == [a] + Split(b, sep)
    decreases |a|
  {
    if |a| == 0 {
      assert a + [sep] + b == [sep] + b;
      assert (a + [sep] + b)[1..] == b;
    } else {
      SplitPrefix(a[1..], sep, b);
      assert (a + [sep] + b)[1..] == a[1..] + [sep] + b;
      assert a == [a[0]] + a[1..];
    }
  }

  /** `s.split(' ')[0]`: the first space-separated token. */
  function FirstToken(s: string): (t: string)
    ensures StartsWith(s, t)
    ensures ' ' !in t
    ensures ' ' !in s ==> t == s
    ensures |t| < |s| ==> s[|t|] == ' '
    decreases |s|
  {
    if |s| == 0 then ""
    else if s[0] == ' ' then ""
    else
      var rest := FirstToken(s[1..]);
      [s[0]] + rest
  }

  /** `FirstToken` is the first piece of `Split(s, ' ')`, as in `cmd.split(' ')[0]`. */
  lemma {:induction false} FirstTokenIsFirstPiece(s: string)
    ensures FirstToken(s) == Split(s, ' ')[0]
    decreases |s|
  {
    if |s| > 0 && s[0] != ' ' {
      FirstTokenIsFirstPiece(s[1..]);
    }
  }

  /** The characters `String.prototype.trim` removes: the ECMAScript WhiteSpace
      set (tab, vertical tab, form feed, space, no-break space, byte order mark
      and the Unicode space separators) and the LineTerminator set. */
  predicate IsTrimSpace(c: char) {
    || c == '\t' || c == '\U{000B}' || c == '\U{000C}' || c == ' '
    || c == '\U{00A0}' || c == '\U{FEFF}'
    || c == '\n' || c == '\r' || c == '\U{2028}' || c == '\U{2029}'
    || c == '\U{1680}' || ('\U{2000}' <= c <= '\U{200A}')
    || c == '\U{202F}' || c == '\U{205F}' || c == '\U{3000}'
  }

  /** The index of the first character at or after `i` that is not
      trim-space, or `|s|` if there is none. */
  function SkipSpace(s: string, i: nat): (n: nat)
    requires i <= |s|
    ensures i <= n <= |s|
    ensures forall k :: i <= k < n ==> IsTrimSpace(s[k])
    ensures n < |s| ==> !IsTrimSpace(s[n])
    decreases |s| - i
  {
    if i < |s| && IsTrimSpace(s[i]) then SkipSpace(s, i + 1) else i
  }

  /** The index just past the last character before `j`, and not before
      `lo`, that is not trim-space, or `lo` if there is none. */
  function SkipSpaceBack(s: string, lo: nat, j: nat): (n: nat)
    requires lo <= j <= |s|
    ensures lo <= n <= j
    ensures forall k :: n <= k < j ==> IsTrimSpace(s[k])
    ensures n > lo ==> !IsTrimSpace(s[n - 1])
    decreases j
  {
    if j > lo && IsTrimSpace(s[j - 1]) then SkipSpaceBack(s, lo, j - 1) else j
  }

  /** `s` is `r` surrounded by trim-space only, with `r` starting at `i`. */
  predicate SpaceAround(s: string, r: string, i: int) {
    && 0 <= i <= |s| - |r| && r == s[i..i + |r|]
    && (forall k :: 0 <= k < i ==> IsTrimSpace(s[k]))
    && (forall k :: i + |r| <= k < |s| ==> IsTrimSpace(s[k]))
  }

  /** `s.trim()`: the slice of `s` left after dropping space at both ends; it
      neither starts nor ends with space. */
  function Trim(s: string): (r: string)
    ensures SpaceAround(s, r, SkipSpace(s, 0))
    ensures |r| > 0 ==> !IsTrimSpace(r[0]) && !IsTrimSpace(r[|r| - 1])
  {
    var i := SkipSpace(s, 0);
    s[i..SkipSpaceBack(s, i, |s|)]
  }

  /** A string with no space at either end is its own trim. */
  lemma TrimUnspaced(s: string)
    requires |s| > 0 && !IsTrimSpace(s[0]) && !IsTrimSpace(s[|s| - 1])
    ensures Trim(s) == s
  {
  }

  /** ASCII upper-case mapping of one character. */
  function UpperChar(c: char): char {
    if 'a' <= c <= 'z' then (c as int - 32) as char else c
  }

  /** ASCII lower-case mapping of one character. */
  function LowerChar(c: char): char {
    if 'A' <= c <= 'Z' then (c as int + 32) as char else c
  }

  /** `s.toUpperCase()`, restricted to ASCII letters. */
  function Upper(s: string): (r: string)
    ensures |r| == |s|
  {
    seq(|s|, i requires 0 <= i < |s| => UpperChar(s[i]))
  }

  /** `s.toLowerCase()`, restricted to ASCII letters. */
  function Lower(s: string): (r: string)
    ensures |r| == |s|
  {
    seq(|s|, i requires 0 <= i < |s| => LowerChar(s[i]))
  }

  /** Lower-casing leaves a string without ASCII capitals unchanged. */
  lemma LowerFixed(s: string)
    requires forall i :: 0 <= i < |s| ==> !('A' <= s[i] <= 'Z')
    ensures Lower(s) == s
  {
  }

  /** `" ".repeat(n)`. */
  function Spaces(n: nat): (r: string)
    ensures |r| == n
    ensures forall i :: 0 <= i < n ==> r[i] == ' '
  {
    seq(n, i => ' ')
  }

  /** `c.repeat(n)` for one character. */
  function Repeat(c: char, n: nat): (r: string)
    ensures |r| == n
    ensures forall i :: 0 <= i < n ==> r[i] == c
  {
    seq(n, i => c)
  }
}
