/**
 * The few operations of Rust's `str` that the modelled code relies on, with the
 * semantics of the Rust standard library spelled out over `seq<char>`.
 */
module Strings {
  import opened Wrappers

  // ---------------------------------------------------------------------------
  // Prefixes and substrings
  // ---------------------------------------------------------------------------

  /** `s.starts_with(p)` */
  predicate StartsWith(s: string, p: string) {
    |p| <= |s| && s[..|p|] == p
  }

  /** `s.strip_prefix(p)`: the rest of `s` after `p`, when `s` starts with `p`. */
  function StripPrefix(s: string, p: string): (r: Option<string>)
    ensures r.Some? <==> StartsWith(s, p)
    ensures r.Some? ==> p + r.value == s
  {
    if StartsWith(s, p) then
      assert s == s[..|p|] + s[|p|..];
      Some(s[|p|..])
    else None
  }

  /** `s.contains(p)`: some window of `s` equals `p` (the empty pattern is everywhere). */
  predicate Contains(s: string, p: string)
    decreases |s|
  {
    StartsWith(s, p) || (s != [] && Contains(s[1..], p))
  }

  /** `p` occurs in `s` starting at index `i`. */
  predicate OccursAt(s: string, p: string, i: int) {
    0 <= i <= |s| - |p| && s[i..i + |p|] == p
  }

  /** `Contains` agrees with the window-by-window definition of a substring. */
  lemma {:induction false} ContainsAt(s: string, p: string)
    ensures Contains(s, p) <==> exists i :: OccursAt(s, p, i)
    decreases |s|
  {
    if StartsWith(s, p) {
      assert OccursAt(s, p, 0);
    } else if s != [] {
      ContainsAt(s[1..], p);
      if Contains(s[1..], p) {
        var i :| OccursAt(s[1..], p, i);
        assert s[i + 1..i + 1 + |p|] == s[1..][i..i + |p|];
        assert OccursAt(s, p, i + 1);
      }
      if exists i :: OccursAt(s, p, i) {
        var i :| OccursAt(s, p, i);
        assert i != 0;
        assert s[1..][i - 1..i - 1 + |p|] == s[i..i + |p|];
        assert OccursAt(s[1..], p, i - 1);
      }
    } else {
      assert forall i :: !OccursAt(s, p, i);
    }
  }

  // ---------------------------------------------------------------------------
  // `str::replace`
  // ---------------------------------------------------------------------------

  /** `s.replace("", to)`: Rust inserts `to` before every character and at the end. */
  function ReplaceEmpty(s: string, to: string): string
    decreases |s|
  {
    if s == [] then to else to + [s[0]] + ReplaceEmpty(s[1..], to)
  }

  /**
   * `s.replace(from, to)`: every non-overlapping occurrence of `from`, found from
   * left to right, is replaced by `to`.
   */
  function ReplaceAll(s: string, from: string, to: string): string
    decreases |s|
  {
    if from == [] then ReplaceEmpty(s, to)
    else if StartsWith(s, from) then to + ReplaceAll(s[|from|..], from, to)
    else if s == [] then []
    else [s[0]] + ReplaceAll(s[1..], from, to)
  }

  /** Replacing a pattern that does not occur leaves the string as it was. */
  lemma {:induction false} ReplaceAbsent(s: string, from: string, to: string)
    requires from != [] && !Contains(s, from)
    ensures ReplaceAll(s, from, to) == s
    decreases |s|
  {
    if s != [] {
      ReplaceAbsent(s[1..], from, to);
    }
  }

  /** Replacing a pattern by itself leaves the string as it was. */
  lemma {:induction false} ReplaceSelf(s: string, v: string)
    ensures ReplaceAll(s, v, v) == s
    decreases |s|
  {
    if v == [] {
      ReplaceEmptyNothing(s);
    } else if StartsWith(s, v) {
      ReplaceSelf(s[|v|..], v);
      assert s == v + s[|v|..];
    } else if s != [] {
      ReplaceSelf(s[1..], v);
    }
  }

  lemma {:induction false} ReplaceEmptyNothing(s: string)
    ensures ReplaceEmpty(s, []) == s
    decreases |s|
  {
    if s != [] {
      ReplaceEmptyNothing(s[1..]);
    }
  }

  /** A replacement that neither the text nor the replacement contain a character `c` of introduces no `c`. */
  lemma {:induction false} ReplaceKeepsOut(s: string, from: string, to: string, c: char)
    requires c !in s && c !in to
    ensures c !in ReplaceAll(s, from, to)
    decreases |s|
  {
    if from == [] {
      ReplaceEmptyKeepsOut(s, to, c);
    } else if StartsWith(s, from) {
      ReplaceKeepsOut(s[|from|..], from, to, c);
    } else if s != [] {
      ReplaceKeepsOut(s[1..], from, to, c);
    }
  }

  lemma {:induction false} ReplaceEmptyKeepsOut(s: string, to: string, c: char)
    requires c !in s && c !in to
    ensures c !in ReplaceEmpty(s, to)
    decreases |s|
  {
    if s != [] {
      ReplaceEmptyKeepsOut(s[1..], to, c);
    }
  }

  // ---------------------------------------------------------------------------
  // `str::split(char)` and its inverse
  // ---------------------------------------------------------------------------

  /** `s.split(c)`: the pieces between occurrences of `c`; `n` separators give `n + 1` pieces. */
  function Split(s: string, c: char): (r: seq<string>)
    ensures |r| >= 1
    decreases |s|
  {
    if s == [] then [[]]
    else if s[0] == c then [[]] + Split(s[1..], c)
    else
      var rest := Split(s[1..], c);
      [[s[0]] + rest[0]] + rest[1..]
  }

  /** The pieces joined with the separator between them. */
  function JoinWith(parts: seq<string>, c: char): string
    decreases |parts|
  {
    if parts == [] then []
    else if |parts| == 1 then parts[0]
    else parts[0] + [c] + JoinWith(parts[1..], c)
  }

  /** How many times `c` occurs in `s`. */
  function Occurrences(s: string, c: char): nat
    decreases |s|
  {
    if s == [] then 0 else (if s[0] == c then 1 else 0) + Occurrences(s[1..], c)
  }

  /** Occurrences add up over a concatenation. */
  lemma {:induction false} OccurrencesAppend(a: string, b: string, c: char)
    ensures Occurrences(a + b, c) == Occurrences(a, c) + Occurrences(b, c)
    decreases |a|
  {
    if a != [] {
      assert (a + b)[1..] == a[1..] + b;
      OccurrencesAppend(a[1..], b, c);
    } else {
      assert a + b == b;
    }
  }

  /** A character that does not occur is counted zero times. */
  lemma {:induction false} OccurrencesAbsent(s: string, c: char)
    requires c !in s
    ensures Occurrences(s, c) == 0
    decreases |s|
  {
    if s != [] {
      OccurrencesAbsent(s[1..], c);
    }
  }

  /** A string without the separator is a single piece. */
  lemma {:induction false} SplitNone(s: string, c: char)
    requires c !in s
    ensures Split(s, c) == [s]
    decreases |s|
  {
    if s != [] {
      SplitNone(s[1..], c);
      assert [s[0]] + s[1..] == s;
    }
  }

  /** A separator-free head followed by the separator splits off as the first piece. */
  lemma {:induction false} SplitHead(head: string, rest: string, c: char)
    requires c !in head
    ensures Split(head + [c] + rest, c) == [head] + Split(rest, c)
    decreases |head|
  {
    var s := head + [c] + rest;
    if head == [] {
      assert s[1..] == rest;
    } else {
      assert s[1..] == head[1..] + [c] + rest;
      SplitHead(head[1..], rest, c);
      assert [head[0]] + head[1..] == head;
    }
  }

  /** Joining separator-free pieces and splitting again gives the pieces back. */
  lemma {:induction false} SplitOfJoin(parts: seq<string>, c: char)
    requires |parts| >= 1 && forall i :: 0 <= i < |parts| ==> c !in parts[i]
    ensures Split(JoinWith(parts, c), c) == parts
    decreases |parts|
  {
    if |parts| == 1 {
      SplitNone(parts[0], c);
    } else {
      SplitOfJoin(parts[1..], c);
      SplitHead(parts[0], JoinWith(parts[1..], c), c);
      assert parts == [parts[0]] + parts[1..];
    }
  }

  /** Splitting loses nothing: joining the pieces gives back the string, no piece holds the separator, and there is one piece more than separators. */
  lemma {:induction false} SplitJoin(s: string, c: char)
    ensures JoinWith(Split(s, c), c) == s
    ensures forall i :: 0 <= i < |Split(s, c)| ==> c !in Split(s, c)[i]
    ensures |Split(s, c)| == Occurrences(s, c) + 1
    decreases |s|
  {
    if s != [] {
      SplitJoin(s[1..], c);
      var rest := Split(s[1..], c);
      if s[0] == c {
        assert Split(s, c) == [[]] + rest;
        assert Split(s, c)[1..] == rest;
      } else {
        var r := Split(s, c);
        assert r == [[s[0]] + rest[0]] + rest[1..];
        if |rest| == 1 {
          assert r == [[s[0]] + rest[0]];
        } else {
          assert r[1..] == rest[1..];
          assert JoinWith(rest, c) == rest[0] + [c] + JoinWith(rest[1..], c);
        }
        forall i | 0 <= i < |r| ensures c !in r[i] {
          if i > 0 {
            assert r[i] == rest[i];
          }
        }
      }
    }
  }

  // ---------------------------------------------------------------------------
  // `str::lines` and the `"\n"`-terminated output of the rewriter
  // ---------------------------------------------------------------------------

  /** The index of the first `c` in `s`. */
  function IndexOf(s: string, c: char): (r: Option<nat>)
    ensures r.Some? ==> r.value < |s| && s[r.value] == c && c !in s[..r.value]
    ensures r.None? ==> c !in s
    decreases |s|
  {
    if s == [] then None
    else if s[0] == c then Some(0)
    else match IndexOf(s[1..], c)
      case None => None
      case Some(i) =>
        assert s[..i + 1] == [s[0]] + s[1..][..i];
        Some(i + 1)
  }

  /** A `'\n'`-terminated line loses one trailing `'\r'`, as in Rust's `lines`. */
  function StripCr(line: string): string {
    if line != [] && line[|line| - 1] == '\r' then line[..|line| - 1] else line
  }

  /**
   * `s.lines()`: the text between `'\n'` characters; a final `'\n'` does not start an
   * empty line; a line ended by `'\n'` drops one trailing `'\r'`.
   */
  function Lines(s: string): (r: seq<string>)
    ensures forall i :: 0 <= i < |r| ==> '\n' !in r[i]
    decreases |s|
  {
    if s == [] then []
    else match IndexOf(s, '\n')
      case None => [s]
      case Some(i) => [StripCr(s[..i])] + Lines(s[i + 1..])
  }

  /** Each line followed by `"\n"`, concatenated. */
  function Unlines(lines: seq<string>): string
    decreases |lines|
  {
    if lines == [] then [] else lines[0] + "\n" + Unlines(lines[1..])
  }

  /** Text without `'\r'` that is empty or ends with `'\n'` is rebuilt exactly from its lines. */
  lemma {:induction false} UnlinesLines(s: string)
    requires '\r' !in s
    requires s == [] || s[|s| - 1] == '\n'
    ensures Unlines(Lines(s)) == s
    decreases |s|
  {
    if s != [] {
      var i := IndexOf(s, '\n').value;
      var head, rest := s[..i], s[i + 1..];
      LinesHead(s, i);
      assert rest == [] || rest[|rest| - 1] == '\n';
      UnlinesLines(rest);
      UnlinesCons(head, Lines(rest));
      assert s == head + "\n" + rest;
    }
  }

  /** The first line of text without `'\r'` runs up to the first `'\n'`. */
  lemma LinesHead(s: string, i: nat)
    requires '\r' !in s && IndexOf(s, '\n') == Some(i)
    ensures Lines(s) == [s[..i]] + Lines(s[i + 1..])
  {
    var head := s[..i];
    assert '\r' !in head;
    assert head == [] || head[|head| - 1] != '\r';
  }

  lemma UnlinesCons(head: string, lines: seq<string>)
    ensures Unlines([head] + lines) == head + "\n" + Unlines(lines)
  {
    assert ([head] + lines)[1..] == lines;
  }

  // ---------------------------------------------------------------------------
  // `str::trim`
  // ---------------------------------------------------------------------------

  /** Unicode's `White_Space` property, which Rust's `char::is_whitespace` tests. */
  predicate IsWhitespace(c: char) {
    ('\t' <= c <= '\r') || c == ' ' || c == '\U{85}' || c == '\U{A0}' || c == '\U{1680}'
    || ('\U{2000}' <= c <= '\U{200A}') || c == '\U{2028}' || c == '\U{2029}'
    || c == '\U{202F}' || c == '\U{205F}' || c == '\U{3000}'
  }

  function TrimStart(s: string): (r: string)
    ensures r == [] || !IsWhitespace(r[0])
    ensures exists k :: 0 <= k <= |s| && r == s[k..] && forall i :: 0 <= i < k ==> IsWhitespace(s[i])
    decreases |s|
  {
    if s != [] && IsWhitespace(s[0]) then
      var r := TrimStart(s[1..]);
      var k :| 0 <= k <= |s[1..]| && r == s[1..][k..] && forall i :: 0 <= i < k ==> IsWhitespace(s[1..][i]);
      assert r == s[k + 1..];
      r
    else
      assert s == s[0..];
      s
  }

  function TrimEnd(s: string): (r: string)
    ensures r == [] || !IsWhitespace(r[|r| - 1])
    ensures exists k :: 0 <= k <= |s| && r == s[..k] && forall i :: k <= i < |s| ==> IsWhitespace(s[i])
    decreases |s|
  {
    if s != [] && IsWhitespace(s[|s| - 1]) then
      var t := s[..|s| - 1];
      var r := TrimEnd(t);
      var k :| 0 <= k <= |t| && r == t[..k] && forall i :: k <= i < |t| ==> IsWhitespace(t[i]);
      assert r == s[..k];
      r
    else
      assert s == s[..|s|];
      s
  }

  /** `s.trim()`: the string without leading and trailing whitespace. */
  function Trim(s: string): (r: string)
    ensures r == [] || (!IsWhitespace(r[0]) && !IsWhitespace(r[|r| - 1]))
    ensures exists a, b :: InnerSlice(r, s, a, b)
  {
    TrimSlice(s);
    TrimEnd(TrimStart(s))
  }

  /** `r` is `s` with a white-space prefix and a white-space suffix cut off. */
  ghost predicate InnerSlice(r: string, s: string, a: int, b: int) {
    0 <= a <= b <= |s| && r == s[a..b]
    && (forall i :: 0 <= i < a ==> IsWhitespace(s[i]))
    && (forall i :: b <= i < |s| ==> IsWhitespace(s[i]))
  }

  lemma TrimSlice(s: string)
    ensures exists a, b :: InnerSlice(TrimEnd(TrimStart(s)), s, a, b)
  {
    var t := TrimStart(s);
    var a :| 0 <= a <= |s| && t == s[a..] && forall i :: 0 <= i < a ==> IsWhitespace(s[i]);
    TrimEndSlice(s, a, t);
  }

  lemma TrimEndSlice(s: string, a: nat, t: string)
    requires a <= |s| && t == s[a..] && forall i :: 0 <= i < a ==> IsWhitespace(s[i])
    ensures exists b :: InnerSlice(TrimEnd(t), s, a, b)
  {
    var r := TrimEnd(t);
    var k :| 0 <= k <= |t| && r == t[..k] && forall i :: k <= i < |t| ==> IsWhitespace(t[i]);
    SliceOfSlices(s, a, t, k, r);
    assert InnerSlice(r, s, a, a + k);
  }

  lemma SliceOfSlices(s: string, a: nat, t: string, k: nat, r: string)
    requires a <= |s| && t == s[a..] && k <= |t| && r == t[..k]
    requires forall i :: k <= i < |t| ==> IsWhitespace(t[i])
    ensures a + k <= |s| && r == s[a..a + k]
    ensures forall i :: a + k <= i < |s| ==> IsWhitespace(s[i])
  {
    forall i | a + k <= i < |s| ensures IsWhitespace(s[i]) {
      assert s[i] == t[i - a];
    }
  }

  /** A string that neither starts nor ends with white space is its own trim. */
  lemma TrimUntouched(s: string)
    requires s != [] && !IsWhitespace(s[0]) && !IsWhitespace(s[|s| - 1])
    ensures Trim(s) == s
  {
    assert TrimStart(s) == s;
    assert TrimEnd(s) == s;
  }


  // ---------------------------------------------------------------------------
  // ASCII case folding
  // ---------------------------------------------------------------------------

  function AsciiLower(c: char): char {
    if 'A' <= c <= 'Z' then (c as int + 32) as char else c
  }

  predicate IsAsciiUpper(c: char) {
    'A' <= c <= 'Z'
  }

  /**
   * `s.to_ascii_lowercase()`: no upper-case ASCII letter is left, each one becomes the
   * lower-case letter of the same place in the alphabet, and every other character stays.
   */
  function ToAsciiLowercase(s: string): (r: string)
    ensures |r| == |s|
    ensures forall i :: 0 <= i < |r| ==> !IsAsciiUpper(r[i])
    ensures forall i :: 0 <= i < |s| && IsAsciiUpper(s[i]) ==> 'a' <= r[i] <= 'z' && r[i] as int - 'a' as int == s[i] as int - 'A' as int
    ensures forall i :: 0 <= i < |s| && !IsAsciiUpper(s[i]) ==> r[i] == s[i]
    ensures (forall i :: 0 <= i < |s| ==> !IsAsciiUpper(s[i])) ==> r == s
  {
    seq(|s|, i requires 0 <= i < |s| => AsciiLower(s[i]))
  }

  /** Lowering twice is lowering once. */
  lemma ToAsciiLowercaseIdempotent(s: string)
    ensures ToAsciiLowercase(ToAsciiLowercase(s)) == ToAsciiLowercase(s)
  {
  }

  // ---------------------------------------------------------------------------
  // The ordering of `String` (lexicographic by character)
  // ---------------------------------------------------------------------------

  /** `a <= b` for Rust strings: lexicographic comparison, a prefix sorting first. */
  predicate LexLe(a: string, b: string)
    decreases |a|
  {
    a == [] || (b != [] && (a[0] < b[0] || (a[0] == b[0] && LexLe(a[1..], b[1..]))))
  }

  lemma {:induction false} LexLeTotal(a: string, b: string)
    ensures LexLe(a, b) || LexLe(b, a)
    decreases |a|
  {
    if a != [] && b != [] && a[0] == b[0] {
      LexLeTotal(a[1..], b[1..]);
    }
  }

  lemma {:induction false} LexLeTransitive(a: string, b: string, c: string)
    requires LexLe(a, b) && LexLe(b, c)
    ensures LexLe(a, c)
    decreases |a|
  {
    if a != [] && a[0] == b[0] && b[0] == c[0] {
      LexLeTransitive(a[1..], b[1..], c[1..]);
    }
  }

  lemma {:induction false} LexLeAntisymmetric(a: string, b: string)
    requires LexLe(a, b) && LexLe(b, a)
    ensures a == b
    decreases |a|
  {
    if a != [] {
      LexLeAntisymmetric(a[1..], b[1..]);
      assert a == [a[0]] + a[1..] && b == [b[0]] + b[1..];
    }
  }

  /** Strings that agree up to index `k` and differ there are ordered by the characters at `k`. */
  lemma {:induction false} LexLeAt(a: string, b: string, k: nat)
    requires k < |a| && k < |b| && a[..k] == b[..k] && a[k] < b[k]
    ensures LexLe(a, b) && !LexLe(b, a)
    decreases k
  {
    if k > 0 {
      assert a[0] == a[..k][0] && b[0] == b[..k][0];
      assert a[1..][..k - 1] == a[..k][1..] && b[1..][..k - 1] == b[..k][1..];
      LexLeAt(a[1..], b[1..], k - 1);
    }
  }
}
