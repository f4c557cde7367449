/**
 * The MRZ check-digit calculator of ICAO Doc 9303 Part 3, section 4.9:
 * every character gets a value from 0 to 35, the values are weighted by
 * 7, 3, 1, 7, 3, 1, ... and the check digit is the weighted sum modulo 10.
 */
module MrzCheckDigit {

  /** The filler character that pads MRZ fields. */
  const Filler: char := '<'

  /** The repeating weight pattern; position i is weighted by Weights[i % 3]. */
  const Weights: seq<nat> := [7, 3, 1]

  predicate IsAsciiDigit(c: char) {
    '0' <= c <= '9'
  }

  predicate IsAsciiUpper(c: char) {
    'A' <= c <= 'Z'
  }

  /** The characters that carry a value of their own: 0-9 and A-Z. */
  predicate IsAlphanumeric(c: char) {
    IsAsciiDigit(c) || IsAsciiUpper(c)
  }

  /**
   * Value of one character in the weighted sum. Digits count as themselves,
   * letters as 10 to 35; the filler and every other character count as 0.
   */
  function CharValue(c: char): (v: nat)
    ensures v <= 35
    ensures v == 0 <==> c == '0' || !IsAlphanumeric(c)
  {
    if IsAsciiDigit(c) then c as int - '0' as int
    else if IsAsciiUpper(c) then c as int - 'A' as int + 10
    else 0
  }

  /** The alphanumeric character whose value is v (inverse of CharValue on 0-9 and A-Z). */
  function ValueChar(v: nat): (c: char)
    requires v <= 35
    ensures IsAlphanumeric(c)
  {
    if v < 10 then ('0' as int + v) as char else ('A' as int + v - 10) as char
  }

  /** CharValue is a bijection between the 36 alphanumeric characters and 0..35. */
  lemma CharValueBijective(c: char, v: nat)
    requires v <= 35
    ensures CharValue(ValueChar(v)) == v
    ensures IsAlphanumeric(c) ==> ValueChar(CharValue(c)) == c
  {
  }

  /** Digits are worth 0..9 and letters 10..35, so a digit is never confused with a letter. */
  lemma CharValueClasses(c: char)
    ensures IsAsciiDigit(c) ==> CharValue(c) < 10
    ensures IsAsciiUpper(c) ==> 10 <= CharValue(c)
    ensures c == Filler ==> CharValue(c) == 0
  {
  }

  /** Weight of position i: 7, 3, 1 by the position modulo 3. */
  function Weight(i: nat): (w: nat)
    ensures w == 7 || w == 3 || w == 1
  {
    if i % 3 == 0 then 7 else if i % 3 == 1 then 3 else 1
  }

  /** Shifting a position by a multiple of 3 keeps its weight. */
  lemma WeightPeriodic(m: nat, i: nat)
    requires m % 3 == 0
    ensures Weight(m + i) == Weight(i)
  {
    assert (m + i) % 3 == i % 3;
  }

  /** Weight(i) is the entry of the repeating pattern that position i selects. */
  lemma WeightIsPatternEntry(i: nat)
    ensures Weight(i) == Weights[i % |Weights|]
    ensures Weight(i + 3) == Weight(i)
  {
  }

  /** Weighted sum of the first n characters of s. */
  function WeightedSumPrefix(s: string, n: nat): nat
    requires n <= |s|
  {
    if n == 0 then 0 else WeightedSumPrefix(s, n - 1) + CharValue(s[n - 1]) * Weight(n - 1)
  }

  function WeightedSum(s: string): nat {
    WeightedSumPrefix(s, |s|)
  }

  /**
   * Each character adds at most 35 * 7 to the running sum, and characters of
   * value 0 (the digit 0, the filler) add nothing.
   */
  lemma {:induction false} WeightedSumBounds(s: string, n: nat)
    requires n <= |s|
    ensures WeightedSumPrefix(s, n) <= 245 * n
    ensures (forall i :: 0 <= i < n ==> CharValue(s[i]) == 0) ==> WeightedSumPrefix(s, n) == 0
  {
    if n > 0 {
      WeightedSumBounds(s, n - 1);
      var term := CharValue(s[n - 1]) * Weight(n - 1);
      assert term <= 245 by {
        assert CharValue(s[n - 1]) <= 35;
        assert Weight(n - 1) <= 7;
      }
    }
  }

  /** The ICAO check digit of s: its weighted sum modulo 10. */
  function CheckDigit(s: string): (d: nat)
    ensures d <= 9
    ensures s == [] ==> d == 0
  {
    WeightedSum(s) % 10
  }

  /**
   * The calculator's loop: one pass over the characters, adding value times
   * weight to a running sum, then reducing modulo 10.
   */
  method Calculate(data: string) returns (r: int)
    ensures 0 <= r <= 9
    ensures r == CheckDigit(data)
  {
    var sum := 0;
    for index := 0 to |data|
      invariant sum == WeightedSumPrefix(data, index)
    {
      var value := CharValue(data[index]);
      var weight := Weights[index % |Weights|];
      WeightIsPatternEntry(index);
      sum := sum + value * weight;
    }
    r := sum % 10;
  }

  /**
   * The character c is a decimal digit whose value is the check digit of
   * data: exactly the digit character of the computed check digit validates.
   */
  predicate ValidCheckDigit(data: string, c: char)
    ensures ValidCheckDigit(data, c) <==> c == DigitChar(CheckDigit(data))
  {
    IsAsciiDigit(c) && c as int - '0' as int == CheckDigit(data)
  }

  /** The validator: computes the check digit and compares the claimed character with it. */
  method Validate(data: string, checkDigit: char) returns (ok: bool)
    ensures ok <==> ValidCheckDigit(data, checkDigit)
    ensures ok ==> IsAsciiDigit(checkDigit)
  {
    var expected := Calculate(data);
    ok := IsAsciiDigit(checkDigit) && checkDigit as int - '0' as int == expected;
  }

  /** The digit character for d. */
  function DigitChar(d: nat): (c: char)
    requires d <= 9
    ensures IsAsciiDigit(c) && c as int - '0' as int == d
  {
    ('0' as int + d) as char
  }

  /**
   * For every input some claimed character validates, the digit of its check
   * digit, and the filler never does.
   */
  lemma ExactlyOneDigitValidates(data: string)
    ensures ValidCheckDigit(data, DigitChar(CheckDigit(data)))
    ensures !ValidCheckDigit(data, Filler)
  {
  }

  /**
   * Weights repeat with period 3, so a prefix whose length is a multiple of 3
   * contributes its own weighted sum and the rest is weighted as if it started afresh.
   */
  lemma {:induction false} WeightedSumConcat(a: string, b: string, k: nat)
    requires |a| % 3 == 0
    requires k <= |b|
    ensures WeightedSumPrefix(a + b, |a| + k) == WeightedSum(a) + WeightedSumPrefix(b, k)
  {
    if k > 0 {
      WeightedSumConcat(a, b, k - 1);
      var c := b[k - 1];
      assert (a + b)[|a| + k - 1] == c;
      WeightPeriodic(|a|, k - 1);
      var term := CharValue(c) * Weight(k - 1);
      assert WeightedSumPrefix(a + b, |a| + k) == WeightedSumPrefix(a + b, |a| + k - 1) + term;
      assert WeightedSumPrefix(b, k) == WeightedSumPrefix(b, k - 1) + term;
    } else {
      WeightedSumPrefixOfConcat(a, b, |a|);
    }
  }

  /** Only the first n characters matter for the weighted sum of a prefix. */
  lemma {:induction false} WeightedSumPrefixOfConcat(a: string, b: string, n: nat)
    requires n <= |a|
    ensures WeightedSumPrefix(a + b, n) == WeightedSumPrefix(a, n)
  {
    if n > 0 {
      WeightedSumPrefixOfConcat(a, b, n - 1);
    }
  }

  /** The chunks joined in order. */
  function Flatten(chunks: seq<string>): string {
    if |chunks| == 0 then [] else chunks[0] + Flatten(chunks[1..])
  }

  /** The weighted sums of the chunks, added up. */
  function ChunkSums(chunks: seq<string>): nat {
    if |chunks| == 0 then 0 else WeightedSum(chunks[0]) + ChunkSums(chunks[1..])
  }

  /**
   * When every chunk's length is a multiple of 3, each chunk starts on weight 7,
   * so the weighted sum of the joined chunks is the sum of their weighted sums.
   */
  lemma {:induction false} WeightedSumOfChunks(chunks: seq<string>)
    requires forall k :: 0 <= k < |chunks| ==> |chunks[k]| % 3 == 0
    ensures WeightedSum(Flatten(chunks)) == ChunkSums(chunks)
  {
    if |chunks| > 0 {
      WeightedSumOfChunks(chunks[1..]);
      WeightedSumConcat(chunks[0], Flatten(chunks[1..]), |Flatten(chunks[1..])|);
    }
  }

  /** Check digits of strings split at a multiple of 3 combine by adding their sums. */
  lemma CheckDigitConcat(a: string, b: string)
    requires |a| % 3 == 0
    ensures CheckDigit(a + b) == (WeightedSum(a) + WeightedSum(b)) % 10
  {
    WeightedSumConcat(a, b, |b|);
  }

  /**
   * Appending characters that are worth nothing (the filler, or anything
   * outside 0-9 and A-Z) leaves the check digit unchanged.
   */
  lemma {:induction false} ZeroValuedSuffixNeutral(s: string, t: string, k: nat)
    requires k <= |t|
    requires forall i :: 0 <= i < |t| ==> CharValue(t[i]) == 0
    ensures WeightedSumPrefix(s + t, |s| + k) == WeightedSum(s)
  {
    if k > 0 {
      ZeroValuedSuffixNeutral(s, t, k - 1);
      assert (s + t)[|s| + k - 1] == t[k - 1];
    } else {
      WeightedSumPrefixOfConcat(s, t, |s|);
    }
  }

  lemma AppendZeroValuedNeutral(s: string, c: char)
    requires c == Filler || !IsAlphanumeric(c)
    ensures CheckDigit(s + [c]) == CheckDigit(s)
  {
    ZeroValuedSuffixNeutral(s, [c], 1);
  }

  /** Replacing one character changes the weighted sum by the value difference times its weight. */
  lemma {:induction false} WeightedSumUpdate(s: string, i: nat, c: char, n: nat)
    requires i < n <= |s|
    ensures WeightedSumPrefix(s[i := c], n)
         == WeightedSumPrefix(s, n) + (CharValue(c) - CharValue(s[i])) * Weight(i)
  {
    if n - 1 == i {
      WeightedSumUpdateAt(s, i, c);
    } else {
      WeightedSumUpdate(s, i, c, n - 1);
      var t := s[i := c];
      assert t[n - 1] == s[n - 1];
      var tail := CharValue(s[n - 1]) * Weight(n - 1);
      assert WeightedSumPrefix(t, n) == WeightedSumPrefix(t, n - 1) + tail;
      assert WeightedSumPrefix(s, n) == WeightedSumPrefix(s, n - 1) + tail;
    }
  }

  /** The prefix that ends with the replaced character. */
  lemma WeightedSumUpdateAt(s: string, i: nat, c: char)
    requires i < |s|
    ensures WeightedSumPrefix(s[i := c], i + 1)
         == WeightedSumPrefix(s, i + 1) + (CharValue(c) - CharValue(s[i])) * Weight(i)
  {
    var t := s[i := c];
    WeightedSumUpdateBefore(s, i, c, i);
    assert t[i] == c;
    assert (CharValue(c) - CharValue(s[i])) * Weight(i) == CharValue(c) * Weight(i) - CharValue(s[i]) * Weight(i);
  }

  lemma {:induction false} WeightedSumUpdateBefore(s: string, i: nat, c: char, n: nat)
    requires n <= i < |s|
    ensures WeightedSumPrefix(s[i := c], n) == WeightedSumPrefix(s, n)
  {
    if n > 0 {
      WeightedSumUpdateBefore(s, i, c, n - 1);
    }
  }

  /**
   * The check digit detects every single-digit error: replacing one digit of
   * the input by a different digit always changes the check digit, because
   * each weight is coprime to 10.
   */
  lemma SingleDigitErrorDetected(s: string, i: nat, c: char)
    requires i < |s|
    requires IsAsciiDigit(s[i]) && IsAsciiDigit(c) && c != s[i]
    ensures CheckDigit(s[i := c]) != CheckDigit(s)
  {
    WeightedSumUpdate(s, i, c, |s|);
    var delta := CharValue(c) - CharValue(s[i]);
    assert -9 <= delta <= 9 && delta != 0;
    var w := Weight(i);
    WeightedDifferenceNonZero(delta, w);
    ModShift(WeightedSum(s), delta * w);
  }

  /** A nonzero digit difference times a weight coprime to 10 is not a multiple of 10. */
  lemma WeightedDifferenceNonZero(delta: int, w: nat)
    requires -9 <= delta <= 9 && delta != 0
    requires w == 7 || w == 3 || w == 1
    ensures (delta * w) % 10 != 0
  {
    if w == 7 {
      assert delta * w == 7 * delta;
    } else if w == 3 {
      assert delta * w == 3 * delta;
    }
  }

  lemma ModShift(x: int, d: int)
    requires d % 10 != 0
    ensures (x + d) % 10 != x % 10
  {
  }
}
