/**
 * Go's `strconv.ParseUint(s, 10, bitSize)`, which the argument validators and
 * `toUint8`/`toUint16` of cmd/lights.go call, and `strconv.FormatUint(n, 10)` as its
 * inverse. Integers are unbounded here: Go's two overflow checks (`n >= cutoff`
 * before multiplying and `n1 < n || n1 > maxVal` after adding the digit) both come
 * down to `10 * n + d > maxVal` because the accumulator never exceeds `maxVal`.
 */
module Strconv {
  import opened Wrappers

  /** The errors `ParseUint` reports (Go's `ErrSyntax`, `ErrRange` and the bit-size error). */
  datatype NumError = Syntax | Range | BitSize

  predicate IsDigit(c: char) { '0' <= c <= '9' }

  function DigitValue(c: char): nat
    requires IsDigit(c)
  {
    c as int - '0' as int
  }

  /** A non-empty string of decimal digits (leading zeros allowed). */
  predicate IsDecimal(s: string) {
    |s| > 0 && forall i :: 0 <= i < |s| ==> IsDigit(s[i])
  }

  /** The number a string of decimal digits denotes, most significant digit first. */
  function Value(s: string): nat
    requires forall i :: 0 <= i < |s| ==> IsDigit(s[i])
  {
    if s == [] then 0 else 10 * Value(s[..|s| - 1]) + DigitValue(s[|s| - 1])
  }

  /** The length of the longest prefix of `s` made of digits only. */
  function DigitRun(s: string): (k: nat)
    ensures k <= |s|
    ensures forall i :: 0 <= i < k ==> IsDigit(s[i])
    ensures k < |s| ==> !IsDigit(s[k])
  {
    if s == [] || !IsDigit(s[0]) then 0 else 1 + DigitRun(s[1..])
  }

  /** The largest value of an unsigned integer of `bits` bits. */
  function MaxUint(bits: nat): nat {
    if bits == 0 then 0 else 2 * MaxUint(bits - 1) + 1
  }

  /** Go's `bitSize`: 0 stands for the width of `uint`, taken here as 64 bits. */
  function EffectiveBits(bitSize: nat): nat {
    if bitSize == 0 then 64 else bitSize
  }

  /**
   * The digit loop of `ParseUint`: `n` is the value of `s[..i]`. It stops at the
   * first character that is not a digit (a syntax error) or at the first digit
   * that takes the value past `maxVal` (a range error), whichever comes first.
   */
  function Scan(s: string, i: nat, n: nat, maxVal: nat): Result<nat, NumError>
    requires i <= |s|
    decreases |s| - i
  {
    if i == |s| then Ok(n)
    else if !IsDigit(s[i]) then Err(Syntax)
    else if 10 * n + DigitValue(s[i]) > maxVal then Err(Range)
    else Scan(s, i + 1, 10 * n + DigitValue(s[i]), maxVal)
  }

  /**
   * What `ParseUint` decides, stated without the loop: the digit prefix of `s` is
   * judged first (too large is a range error), then whatever follows it.
   */
  function ParseSpec(s: string, maxVal: nat): Result<nat, NumError> {
    if s == [] then Err(Syntax)
    else if Value(s[..DigitRun(s)]) > maxVal then Err(Range)
    else if DigitRun(s) < |s| then Err(Syntax)
    else Ok(Value(s))
  }

  /** `strconv.ParseUint(s, 10, bitSize)`. */
  function ParseUint(s: string, bitSize: nat): (r: Result<nat, NumError>)
    ensures r.Ok? <==> IsDecimal(s) && bitSize <= 64 && Value(s) <= MaxUint(EffectiveBits(bitSize))
    ensures r.Ok? ==> r.value == Value(s)
    ensures s == [] ==> r == Err(Syntax)
    ensures s != [] && bitSize > 64 ==> r == Err(BitSize)
    ensures s != [] && bitSize <= 64 ==> r == ParseSpec(s, MaxUint(EffectiveBits(bitSize)))
  {
    if s == [] then Err(Syntax)
    else if bitSize > 64 then Err(BitSize)
    else
      var maxVal := MaxUint(EffectiveBits(bitSize));
      ScanIsSpec(s, 0, 0, maxVal);
      ParseSpecOk(s, maxVal);
      Scan(s, 0, 0, maxVal)
  }

  /** The value of a digit string grows by one digit at a time. */
  lemma ValueStep(s: string, i: nat)
    requires i < |s|
    requires forall j :: 0 <= j <= i ==> IsDigit(s[j])
    ensures Value(s[..i + 1]) == 10 * Value(s[..i]) + DigitValue(s[i])
  {
    assert s[..i + 1][..i] == s[..i];
  }

  /** Along a run of digits, the value of the prefix never decreases. */
  lemma {:induction false} ValueMonotone(s: string, i: nat, k: nat)
    requires i <= k <= |s|
    requires forall j :: 0 <= j < k ==> IsDigit(s[j])
    ensures Value(s[..i]) <= Value(s[..k])
    decreases k - i
  {
    if i < k {
      ValueStep(s, i);
      ValueMonotone(s, i + 1, k);
    }
  }

  /** The loop computes `ParseSpec` from any point inside the digit run. */
  lemma {:induction false} ScanIsSpec(s: string, i: nat, n: nat, maxVal: nat)
    requires s != [] && i <= DigitRun(s)
    requires n == Value(s[..i]) && n <= maxVal
    ensures Scan(s, i, n, maxVal) == ParseSpec(s, maxVal)
    decreases |s| - i
  {
    var k := DigitRun(s);
    if i == |s| {
      assert s[..i] == s;
    } else if !IsDigit(s[i]) {
    } else {
      ValueStep(s, i);
      if 10 * n + DigitValue(s[i]) > maxVal {
        ValueMonotone(s, i + 1, k);
      } else {
        ScanIsSpec(s, i + 1, 10 * n + DigitValue(s[i]), maxVal);
      }
    }
  }

  /** `ParseSpec` accepts exactly the decimal strings whose value fits. */
  lemma ParseSpecOk(s: string, maxVal: nat)
    ensures ParseSpec(s, maxVal).Ok? <==> IsDecimal(s) && Value(s) <= maxVal
    ensures ParseSpec(s, maxVal).Ok? ==> ParseSpec(s, maxVal).value == Value(s)
  {
    if s != [] && DigitRun(s) == |s| {
      assert s[..DigitRun(s)] == s;
    }
  }

  function DigitChar(d: nat): (c: char)
    requires d < 10
    ensures IsDigit(c) && DigitValue(c) == d
  {
    (d + '0' as int) as char
  }

  /** `strconv.FormatUint(n, 10)`: the shortest decimal spelling of `n`. */
  function FormatUint(n: nat): (s: string)
    ensures IsDecimal(s)
    decreases n
  {
    if n < 10 then [DigitChar(n)] else FormatUint(n / 10) + [DigitChar(n % 10)]
  }

  /** Formatting then reading back gives the number again. */
  lemma {:induction false} FormatValue(n: nat)
    ensures Value(FormatUint(n)) == n
    decreases n
  {
    if n >= 10 {
      FormatValue(n / 10);
      var s := FormatUint(n);
      assert s[..|s| - 1] == FormatUint(n / 10);
    }
  }

  /** Every number that fits in `bitSize` bits round-trips through its decimal spelling. */
  lemma ParseFormat(n: nat, bitSize: nat)
    requires 0 < bitSize <= 64 && n <= MaxUint(bitSize)
    ensures ParseUint(FormatUint(n), bitSize) == Ok(n)
  {
    FormatValue(n);
  }

  /** A range error can pre-empt a syntax error: the digits are judged as they are read. */
  lemma RangeBeforeSyntax()
    ensures ParseUint("300x", 8) == Err(Range)
    ensures ParseUint("x300", 8) == Err(Syntax)
    ensures ParseUint("0255", 8) == Ok(255)
    ensures ParseUint("+1", 8) == Err(Syntax)
  {
  }
}
