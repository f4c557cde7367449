/**
 * The string operations the TD3 decoder is built from, as the Kotlin standard
 * library defines them: trimEnd(char), trim(), replace(char, char) and
 * split(String), the last with its inverse joinToString.
 */
module MrzText {

  /**
   * Kotlin's Char.isWhitespace: Unicode categories Zs, Zl, Zp, and the controls
   * TAB, LF, VT, FF, CR and U+001C..U+001F. The space is whitespace; no
   * character of the machine-readable alphabet (digits, capitals, filler) is.
   */
  predicate IsWhitespace(c: char)
    ensures c == ' ' ==> IsWhitespace(c)
    ensures IsWhitespace(c) ==> c != '<' && !('0' <= c <= '9') && !('A' <= c <= 'Z')
  {
    || '\t' <= c <= '\r'
    || '\U{1C}' <= c <= '\U{1F}'
    || c == ' ' || c == '\U{A0}' || c == '\U{1680}'
    || '\U{2000}' <= c <= '\U{200A}'
    || c == '\U{2028}' || c == '\U{2029}' || c == '\U{202F}' || c == '\U{205F}' || c == '\U{3000}'
  }

  /** s has no leading and no trailing whitespace. */
  predicate IsTrimmed(s: string) {
    |s| == 0 || (!IsWhitespace(s[0]) && !IsWhitespace(s[|s| - 1]))
  }

  /**
   * trimEnd(c): drops every trailing occurrence of c. The result is the longest
   * prefix of s that does not end in c, and everything dropped is c.
   */
  function TrimEnd(s: string, c: char): (r: string)
    ensures r <= s
    ensures |r| == 0 || r[|r| - 1] != c
    ensures forall i :: |r| <= i < |s| ==> s[i] == c
  {
    if |s| > 0 && s[|s| - 1] == c then TrimEnd(s[..|s| - 1], c) else s
  }

  /** The three facts TrimEnd promises determine its result: any prefix that does not end in c and leaves only c behind is it. */
  lemma TrimEndUnique(s: string, c: char, t: string)
    requires t <= s
    requires |t| == 0 || t[|t| - 1] != c
    requires forall i :: |t| <= i < |s| ==> s[i] == c
    ensures TrimEnd(s, c) == t
  {
    var r := TrimEnd(s, c);
    assert |t| > 0 ==> s[|t| - 1] != c;
    assert |r| > 0 ==> s[|r| - 1] != c;
  }

  /** Where the text of s starts: every character before it is whitespace and the one at it is not. */
  function StartOfText(s: string): (a: nat)
    ensures a <= |s|
    ensures forall i :: 0 <= i < a ==> IsWhitespace(s[i])
    ensures a == |s| || !IsWhitespace(s[a])
  {
    if |s| > 0 && IsWhitespace(s[0]) then
      var rest := s[1..];
      var a := 1 + StartOfText(rest);
      forall i | 1 <= i < a
        ensures IsWhitespace(s[i])
      {
        assert s[i] == rest[i - 1];
      }
      a
    else 0
  }

  /** Where the text of s ends: every character from it on is whitespace and the one before it is not. */
  function EndOfText(s: string): (b: nat)
    ensures b <= |s|
    ensures forall i :: b <= i < |s| ==> IsWhitespace(s[i])
    ensures b == 0 || !IsWhitespace(s[b - 1])
  {
    if |s| > 0 && IsWhitespace(s[|s| - 1]) then EndOfText(s[..|s| - 1]) else |s|
  }

  /** s[a..b] is what is left of s after dropping only whitespace at both ends. */
  ghost predicate IsTrimmedSlice(s: string, a: int, b: int) {
    && 0 <= a <= b <= |s|
    && (forall i :: 0 <= i < a ==> IsWhitespace(s[i]))
    && (forall i :: b <= i < |s| ==> IsWhitespace(s[i]))
  }

  /**
   * trim(): the slice of s from where its text starts to where it ends, or
   * nothing when s is all whitespace. It has no whitespace at either end and
   * everything dropped is whitespace.
   */
  function Trim(s: string): (r: string)
    ensures IsTrimmed(r)
    ensures IsTrimmedSlice(s, StartOfText(s), StartOfText(s) + |r|)
    ensures r == s[StartOfText(s)..StartOfText(s) + |r|]
  {
    var a, b := StartOfText(s), EndOfText(s);
    if a < b then s[a..b] else []
  }

  /** Text already trimmed is left as it is. */
  lemma {:induction false} TrimOfTrimmed(s: string)
    requires IsTrimmed(s)
    ensures Trim(s) == s
  {
    if |s| > 0 {
      assert StartOfText(s) == 0 by {
        assert !IsWhitespace(s[0]);
      }
      assert EndOfText(s) == |s| by {
        assert !IsWhitespace(s[|s| - 1]);
      }
    }
  }

  /** Trimming twice is trimming once. */
  lemma TrimIdempotent(s: string)
    ensures Trim(Trim(s)) == Trim(s)
  {
    TrimOfTrimmed(Trim(s));
  }

  /** replace(from, to): every occurrence of the character `from` becomes `to`, nothing else changes. */
  function Replace(s: string, from: char, to: char): (r: string)
    ensures |r| == |s|
    ensures forall i :: 0 <= i < |s| ==> r[i] == (if s[i] == from then to else s[i])
  {
    seq(|s|, i requires 0 <= i < |s| => if s[i] == from then to else s[i])
  }

  /** The two-character separator between the primary and secondary identifier of the name field. */
  const Separator: string := "<<"

  /** The separator occurs in s starting at position i. */
  predicate SeparatorAt(s: string, i: int) {
    0 <= i && i + 1 < |s| && s[i] == '<' && s[i + 1] == '<'
  }

  predicate ContainsSeparator(s: string) {
    exists i :: 0 <= i < |s| && SeparatorAt(s, i)
  }

  /** indexOf("<<", from): the leftmost occurrence of the separator at or after `from`, or -1. */
  function IndexOfSeparator(s: string, from: nat): (r: int)
    requires from <= |s|
    ensures r == -1 || from <= r
    ensures r == -1 ==> forall i :: from <= i ==> !SeparatorAt(s, i)
    ensures r != -1 ==> SeparatorAt(s, r) && forall i :: from <= i < r ==> !SeparatorAt(s, i)
    decreases |s| - from
  {
    if from + 1 >= |s| then -1
    else if s[from] == '<' && s[from + 1] == '<' then from
    else IndexOfSeparator(s, from + 1)
  }

  /**
   * split("<<"): cuts s at the non-overlapping occurrences of the separator
   * found from left to right. The pieces joined with the separator give s
   * back, no piece contains the separator, and no piece before the last ends
   * with '<' (otherwise the cut would have been one position earlier).
   */
  function Split(s: string): (parts: seq<string>)
    ensures |parts| >= 1
    ensures Join(parts) == s
    ensures forall k :: 0 <= k < |parts| ==> !ContainsSeparator(parts[k])
    ensures forall k :: 0 <= k < |parts| - 1 ==> |parts[k]| == 0 || parts[k][|parts[k]| - 1] != '<'
    decreases |s|
  {
    var i := IndexOfSeparator(s, 0);
    if i == -1 then
      [s]
    else
      var head, tail := s[..i], s[i + 2..];
      assert !ContainsSeparator(head) by {
        forall j | SeparatorAt(head, j) ensures false {
          assert SeparatorAt(s, j);
        }
      }
      assert i > 0 ==> !SeparatorAt(s, i - 1);
      var rest := Split(tail);
      assert head + Separator + tail == s;
      [head] + rest
  }

  /** joinToString("<<"): the pieces with the separator between consecutive ones. */
  function Join(parts: seq<string>): string
    requires |parts| >= 1
  {
    if |parts| == 1 then parts[0] else parts[0] + Separator + Join(parts[1..])
  }

  /** The first piece of a split is the text before the first separator. */
  lemma {:induction false} SplitHead(head: string, tail: string)
    requires !ContainsSeparator(head)
    requires |head| == 0 || head[|head| - 1] != '<'
    ensures Split(head + Separator + tail) == [head] + Split(tail)
  {
    var s := head + Separator + tail;
    assert IndexOfSeparator(s, 0) == |head| by {
      assert SeparatorAt(s, |head|);
      forall j | 0 <= j < |head| ensures !SeparatorAt(s, j) {
        if j + 1 < |head| {
          assert !SeparatorAt(head, j);
        }
      }
    }
    assert s[..|head|] == head;
    assert s[|head| + 2..] == tail;
  }

  /** Text without a separator is a single piece. */
  lemma SplitNoSeparator(s: string)
    requires !ContainsSeparator(s)
    ensures Split(s) == [s]
  {
    var i := IndexOfSeparator(s, 0);
    assert !SeparatorAt(s, i);
  }
}
