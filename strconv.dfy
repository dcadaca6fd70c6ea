/** The parts of Go's `strconv` package the programs use: `ParseUint` in base 10
    and `Atoi`, on a 64-bit platform. */
module Strconv {
  import opened Outcomes
  import opened GoInts

  /** RE2's `\d` and Go's decimal digit test: ASCII '0'..'9' only. */
  predicate IsDigit(c: char) {
    '0' <= c <= '9'
  }

  predicate AllDigits(s: string) {
    forall i :: 0 <= i < |s| ==> IsDigit(s[i])
  }

  function DigitValue(c: char): nat {
    if IsDigit(c) then c as int - '0' as int else 0
  }

  /** The number a digit string denotes, most significant digit first. */
  function DecimalValue(s: string): nat {
    if s == [] then 0 else DecimalValue(s[..|s| - 1]) * 10 + DigitValue(s[|s| - 1])
  }

  function Pow2(n: nat): (r: nat)
    ensures r >= 1
  {
    if n == 0 then 1 else 2 * Pow2(n - 1)
  }

  /** `1<<bitSize - 1`, the largest value `ParseUint` accepts for a bit size. */
  function MaxUint(bitSize: nat): nat {
    Pow2(bitSize) - 1
  }

  lemma MaxUintValues()
    ensures MaxUint(8) == 0xFF && MaxUint(16) == 0xFFFF
  {
  }

  /** The kind of a `*NumError`, or no error. */
  datatype NumError = NoError | ErrSyntax | ErrRange

  /** Both results of `ParseUint`: the value is returned even when there is an error. */
  datatype UintResult = UintResult(value: nat, err: NumError)

  /** The digit loop of `ParseUint` in base 10: `s[..i]` has been read and its
      value is `n`. A non-digit gives 0 with a syntax error; the first step whose
      value would exceed `maxVal` gives `maxVal` with a range error (Go also
      tests `n >= cutoff` and `n1 < n` to catch uint64 overflow; with unbounded
      integers both cases are covered by `n1 > maxVal`). */
  function Scan(s: string, i: nat, n: nat, maxVal: nat): (r: UintResult)
    requires i <= |s| && n <= maxVal
    ensures r.value <= maxVal
    ensures r.err == ErrSyntax ==> r.value == 0
    ensures r.err == ErrRange ==> r.value == maxVal
    ensures r.err == NoError ==> n <= r.value
    decreases |s| - i
  {
    if i == |s| then UintResult(n, NoError)
    else if !IsDigit(s[i]) then UintResult(0, ErrSyntax)
    else
      var n1 := n * 10 + DigitValue(s[i]);
      if n1 > maxVal then UintResult(maxVal, ErrRange)
      else Scan(s, i + 1, n1, maxVal)
  }

  /** `strconv.ParseUint(s, 10, bitSize)`. No sign, prefix or underscore is
      accepted in base 10; the empty string is a syntax error. */
  function ParseUint(s: string, bitSize: nat): (r: UintResult)
    requires 0 < bitSize <= 64
    ensures r.value <= MaxUint(bitSize)
    ensures r.err == ErrSyntax ==> r.value == 0
    ensures r.err == ErrRange ==> r.value == MaxUint(bitSize)
  {
    if s == [] then UintResult(0, ErrSyntax) else Scan(s, 0, 0, MaxUint(bitSize))
  }

  /** The length of the longest prefix of `s` made of digits. */
  function LeadingDigits(s: string): (k: nat)
    ensures k <= |s| && AllDigits(s[..k])
    ensures k < |s| ==> !IsDigit(s[k])
  {
    if s == [] || !IsDigit(s[0]) then 0
    else
      var k' := LeadingDigits(s[1..]);
      assert s[..1 + k'] == [s[0]] + s[1..][..k'];
      1 + k'
  }

  /** What `ParseUint` returns, stated without its loop: the longest digit prefix
      decides. If its value exceeds the maximum, the result is the maximum, even
      when a non-digit follows; otherwise a non-digit anywhere, or an empty
      string, gives 0; otherwise the string's decimal value. */
  function ParseUintSpec(s: string, bitSize: nat): UintResult
    requires 0 < bitSize <= 64
  {
    var k := LeadingDigits(s);
    if DecimalValue(s[..k]) > MaxUint(bitSize) then UintResult(MaxUint(bitSize), ErrRange)
    else if s == [] || k < |s| then UintResult(0, ErrSyntax)
    else UintResult(DecimalValue(s), NoError)
  }

  /** The value of a prefix never exceeds the value of a longer prefix. */
  lemma {:induction false} PrefixValueMonotone(s: string, j: nat, k: nat)
    requires j <= k <= |s|
    ensures DecimalValue(s[..j]) <= DecimalValue(s[..k])
  {
    if j < k {
      assert s[..k][..k - 1] == s[..k - 1];
      PrefixValueMonotone(s, j, k - 1);
    }
  }

  /** A digit prefix followed by a non-digit (or the end) is the longest one. */
  lemma {:induction false} LeadingDigitsUnique(s: string, i: nat)
    requires i <= |s| && AllDigits(s[..i])
    requires i < |s| ==> !IsDigit(s[i])
    ensures LeadingDigits(s) == i
  {
    if i > 0 {
      assert s[0] == s[..i][0];
      assert s[1..][..i - 1] == s[..i][1..];
      LeadingDigitsUnique(s[1..], i - 1);
    }
  }

  lemma {:induction false} ScanFromPrefix(s: string, i: nat, bitSize: nat)
    requires 0 < bitSize <= 64 && 0 < |s|
    requires i <= |s| && AllDigits(s[..i]) && DecimalValue(s[..i]) <= MaxUint(bitSize)
    ensures Scan(s, i, DecimalValue(s[..i]), MaxUint(bitSize)) == ParseUintSpec(s, bitSize)
    decreases |s| - i
  {
    var m := MaxUint(bitSize);
    if i == |s| {
      assert s[..i] == s;
      LeadingDigitsUnique(s, i);
    } else if !IsDigit(s[i]) {
      LeadingDigitsUnique(s, i);
    } else {
      assert s[..i + 1][..i] == s[..i];
      assert AllDigits(s[..i + 1]);
      var k := LeadingDigits(s);
      if DecimalValue(s[..i + 1]) > m {
        PrefixValueMonotone(s, i + 1, k);
      } else {
        ScanFromPrefix(s, i + 1, bitSize);
      }
    }
  }

  /** The scanning `ParseUint` agrees with its loop-free description. */
  lemma ParseUintMatchesSpec(s: string, bitSize: nat)
    requires 0 < bitSize <= 64
    ensures ParseUint(s, bitSize) == ParseUintSpec(s, bitSize)
  {
    if s != [] {
      assert s[..0] == [];
      ScanFromPrefix(s, 0, bitSize);
    }
  }

  /** A digit string within range parses to its decimal value with no error. */
  lemma ParseUintDigits(s: string, bitSize: nat)
    requires 0 < bitSize <= 64
    requires s != [] && AllDigits(s) && DecimalValue(s) <= MaxUint(bitSize)
    ensures ParseUint(s, bitSize) == UintResult(DecimalValue(s), NoError)
  {
    ParseUintMatchesSpec(s, bitSize);
    LeadingDigitsUnique(s, |s|);
    assert s[..|s|] == s;
  }

  /** A string holding a non-digit parses to 0 unless the digits before the
      first non-digit already exceed the maximum. */
  lemma ParseUintNonDigit(s: string, bitSize: nat, i: nat)
    requires 0 < bitSize <= 64
    requires i < |s| && AllDigits(s[..i]) && !IsDigit(s[i])
    requires DecimalValue(s[..i]) <= MaxUint(bitSize)
    ensures ParseUint(s, bitSize) == UintResult(0, ErrSyntax)
  {
    ParseUintMatchesSpec(s, bitSize);
    LeadingDigitsUnique(s, i);
  }

  /** `strconv.Atoi`: an optional '+' or '-' followed by at least one ASCII digit,
      with a value in the 64-bit `int` range. The kind of error is not kept,
      since every caller only compares the error with nil. */
  function Atoi(s: string): (r: Option<int>)
    ensures r.Some? ==> MinInt64 <= r.value <= MaxInt64
  {
    var signed := s != [] && (s[0] == '+' || s[0] == '-');
    var digits := if signed then s[1..] else s;
    if digits == [] || !AllDigits(digits) then None
    else
      var v: int := if s[0] == '-' then -(DecimalValue(digits) as int) else DecimalValue(digits);
      if MinInt64 <= v <= MaxInt64 then Some(v) else None
  }

  function Digit(d: nat): (c: char)
    requires d < 10
    ensures IsDigit(c) && DigitValue(c) == d
  {
    ('0' as int + d) as char
  }

  /** The shortest decimal form of a natural number (`strconv.FormatUint(n, 10)`). */
  function FormatNat(n: nat): (s: string)
    decreases n
  {
    if n < 10 then [Digit(n)] else FormatNat(n / 10) + [Digit(n % 10)]
  }

  /** `strconv.Itoa`. */
  function FormatInt(v: int): string {
    if v < 0 then ['-'] + FormatNat(-v) else FormatNat(v)
  }

  lemma {:induction false} FormatNatValue(n: nat)
    ensures FormatNat(n) != [] && AllDigits(FormatNat(n))
    ensures DecimalValue(FormatNat(n)) == n
    decreases n
  {
    if n >= 10 {
      FormatNatValue(n / 10);
      var s := FormatNat(n);
      assert s[..|s| - 1] == FormatNat(n / 10);
    }
  }

  /** `Atoi` reads back every `int` that `Itoa` writes. */
  lemma AtoiFormatRoundTrip(v: int)
    requires MinInt64 <= v <= MaxInt64
    ensures Atoi(FormatInt(v)) == Some(v)
  {
    var s := FormatInt(v);
    if v < 0 {
      var f := FormatNat(-v);
      FormatNatValue(-v);
      assert s[0] == '-' && s[1..] == f;
      assert -(DecimalValue(f) as int) == v;
    } else {
      FormatNatValue(v);
      assert IsDigit(s[0]);
    }
  }

  /** On a string of digits alone, `Atoi` succeeds exactly when the value fits an `int`. */
  lemma AtoiDigits(s: string)
    requires s != [] && AllDigits(s)
    ensures Atoi(s) == if DecimalValue(s) <= MaxInt64 then Some(DecimalValue(s)) else None
  {
    assert IsDigit(s[0]);
  }
}
