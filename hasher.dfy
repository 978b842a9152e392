/**
 * The test hasher: the hash of a key is the first unsigned decimal number
 * written in it.  The key is a C string, so its text ends at the first NUL
 * character or at the end of the sequence, whichever comes first.
 */
module Hasher {
  import opened Uint32

  /** What `test_hasher` returns for a key without digits: (uint32_t) -1. */
  const NoNumber: u32 := 0xFFFF_FFFF

  predicate IsDigit(c: char) {
    '0' <= c <= '9'
  }

  function DigitValue(c: char): (d: nat)
    requires IsDigit(c)
    ensures d < 10
  {
    (c as int) - ('0' as int)
  }

  /** True at the end of the C string: past the sequence or at a NUL. */
  predicate AtEnd(s: string, i: nat) {
    i >= |s| || s[i] == '\0'
  }

  /** The first position at or after `i` that holds a digit or ends the string. */
  function SkipToDigit(s: string, i: nat): (j: nat)
    requires i <= |s|
    ensures i <= j <= |s|
    ensures AtEnd(s, j) || IsDigit(s[j])
    ensures forall q | i <= q < j :: s[q] != '\0' && !IsDigit(s[q])
    decreases |s| - i
  {
    if AtEnd(s, i) || IsDigit(s[i]) then i else SkipToDigit(s, i + 1)
  }

  /** The end of the run of digits starting at `i`. */
  function RunEnd(s: string, i: nat): (j: nat)
    requires i <= |s|
    ensures i <= j <= |s|
    ensures j == |s| || !IsDigit(s[j])
    ensures forall q | i <= q < j :: IsDigit(s[q])
    decreases |s| - i
  {
    if i == |s| || !IsDigit(s[i]) then i else RunEnd(s, i + 1)
  }

  predicate AllDigits(d: string) {
    forall q | 0 <= q < |d| :: IsDigit(d[q])
  }

  /** The number a string of decimal digits denotes, most significant first. */
  function DecimalValue(d: string): nat
    requires AllDigits(d)
  {
    if d == [] then 0 else DecimalValue(d[..|d| - 1]) * 10 + DigitValue(d[|d| - 1])
  }

  /**
   * The reference definition of the hash: the first maximal run of digits,
   * read as a decimal number reduced modulo 2^32 as unsigned 32-bit
   * arithmetic does, or NoNumber when the text holds no digit.
   */
  function FirstNumber(s: string): u32 {
    var i := SkipToDigit(s, 0);
    if AtEnd(s, i) then NoNumber
    else DecimalValue(s[i..RunEnd(s, i)]) % MODULUS
  }

  /** Reducing after every step of `n * 10 + d` gives the reduced value of the whole. */
  lemma ModStep(a: nat, d: nat)
    ensures ((a % MODULUS) * 10 + d) % MODULUS == (a * 10 + d) % MODULUS
  {
  }

  /**
   * test_hasher: skip everything up to the first digit, then accumulate the
   * run of digits as `n * 10 + d` in unsigned 32-bit arithmetic.
   */
  method TestHasher(s: string) returns (n: u32)
    ensures n == FirstNumber(s)
  {
    var i := 0;
    while !AtEnd(s, i) && !IsDigit(s[i])
      invariant i <= |s| && SkipToDigit(s, i) == SkipToDigit(s, 0)
      decreases |s| - i
    {
      i := i + 1;
    }
    if AtEnd(s, i) {
      return NoNumber;
    }
    n := 0;
    var j := i;
    while j < |s| && IsDigit(s[j])
      invariant i <= j <= |s| && RunEnd(s, j) == RunEnd(s, i)
      invariant AllDigits(s[i..j])
      invariant n == DecimalValue(s[i..j]) % MODULUS
      decreases |s| - j
    {
      assert s[i..j + 1][..j - i] == s[i..j];
      ModStep(DecimalValue(s[i..j]), DigitValue(s[j]));
      n := (n * 10 + DigitValue(s[j])) % MODULUS;
      j := j + 1;
    }
  }

  // ---------------------------------------------------------------------
  // What the hash is, independently of how it is scanned.
  // ---------------------------------------------------------------------

  /** A text without digits hashes to NoNumber. */
  lemma NoDigitsMeansNoNumber(s: string)
    requires forall q | 0 <= q < |s| :: !IsDigit(s[q])
    ensures FirstNumber(s) == NoNumber
  {
  }

  /** Only the text before the first NUL counts. */
  lemma {:induction false} SkipToDigitAfterNul(s: string, i: nat, rest: string)
    requires i <= |s| && (forall q | i <= q < |s| :: s[q] != '\0' && !IsDigit(s[q]))
    ensures SkipToDigit(s + "\0" + rest, i) == |s|
    decreases |s| - i
  {
    if i < |s| {
      SkipToDigitAfterNul(s, i + 1, rest);
    }
  }

  lemma TextEndsAtNul(s: string, rest: string)
    requires forall q | 0 <= q < |s| :: s[q] != '\0' && !IsDigit(s[q])
    ensures FirstNumber(s + "\0" + rest) == NoNumber
  {
    SkipToDigitAfterNul(s, 0, rest);
  }

  lemma {:induction false} SkipPrefix(p: string, d: string, r: string, i: nat)
    requires i <= |p| && (forall q | 0 <= q < |p| :: p[q] != '\0' && !IsDigit(p[q]))
    requires d != [] && AllDigits(d)
    ensures SkipToDigit(p + d + r, i) == |p|
    decreases |p| - i
  {
    if i < |p| {
      SkipPrefix(p, d, r, i + 1);
    }
  }

  lemma {:induction false} RunOfDigits(p: string, d: string, r: string, i: nat)
    requires |p| <= i <= |p| + |d| && AllDigits(d)
    requires r == [] || !IsDigit(r[0])
    ensures RunEnd(p + d + r, i) == |p| + |d|
    decreases |p| + |d| - i
  {
    if i < |p| + |d| {
      RunOfDigits(p, d, r, i + 1);
    }
  }

  /**
   * The hash of `prefix + digits + rest`, where the prefix holds no digit
   * and no NUL and the rest does not continue the run, is the number the
   * digits denote modulo 2^32.
   */
  lemma FirstNumberOfSplit(p: string, d: string, r: string)
    requires forall q | 0 <= q < |p| :: p[q] != '\0' && !IsDigit(p[q])
    requires d != [] && AllDigits(d)
    requires r == [] || !IsDigit(r[0])
    ensures FirstNumber(p + d + r) == DecimalValue(d) % MODULUS
  {
    var s := p + d + r;
    SkipPrefix(p, d, r, 0);
    RunOfDigits(p, d, r, |p|);
    assert s[|p|] == d[0];
    assert s[|p|..|p| + |d|] == d;
  }
}
