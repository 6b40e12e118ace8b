/**
 * The brightness transformers of cmd/lights.go: `addValue`, `subValue` and
 * `setValue` each build a `uint8 -> uint8` function from an operand, and
 * `lightBrightness` feeds it the light's current brightness. Here the three
 * closures are the three variants of `Mode`, and applying a closure is `Apply`.
 */
module Brightness {
  import opened Uint

  /** Which transformer the brightness command built, with its operand. */
  datatype Mode = Set(operand: uint8) | Inc(operand: uint8) | Dec(operand: uint8)

  /**
   * `addValue(a)(b)`: the guard `a > 255 - b` is the test for `a + b` overflowing 8
   * bits. Both the subtraction and the sum are computed in `uint8`, so the
   * verifier checks that neither wraps.
   */
  function AddValue(a: uint8, b: uint8): (r: uint8)
    ensures r as int == Min(a as int + b as int, MaxUint8)
    ensures b <= r && a <= r
  {
    if a > 255 - b then 255 else a + b
  }

  /** `subValue(a)(b)`: saturates at 1, so the result is never 0 and never wraps. */
  function SubValue(a: uint8, b: uint8): (r: uint8)
    ensures r as int == Max(b as int - a as int, 1)
    ensures 1 <= r && r as int <= Max(b as int, 1)
  {
    if b <= a then 1 else b - a
  }

  /** `setValue(a)(b)`: the operand, whatever the current value, with no clamping. */
  function SetValue(a: uint8, b: uint8): (r: uint8)
    ensures r == a
  {
    a
  }

  /** The transformer of `mode` applied to the current brightness `b`. */
  function Apply(mode: Mode, b: uint8): (r: uint8)
    ensures mode.Set? ==> r == mode.operand
    ensures mode.Inc? ==> r as int == Min(mode.operand as int + b as int, MaxUint8)
    ensures mode.Dec? ==> r as int == Max(b as int - mode.operand as int, 1)
  {
    match mode
    case Set(a) => SetValue(a, b)
    case Inc(a) => AddValue(a, b)
    case Dec(a) => SubValue(a, b)
  }

  /**
   * With an operand of at least 1 (all the command line lets through), every mode
   * yields a brightness in [1, 255], whatever the light's current brightness.
   */
  lemma ApplyInRange(mode: Mode, b: uint8)
    requires mode.operand >= 1
    ensures 1 <= Apply(mode, b) as int <= MaxUint8
  {
  }

  /** Increasing by 0 changes nothing; decreasing by at least the current value gives 1. */
  lemma ApplyEdges(a: uint8, b: uint8)
    ensures Apply(Inc(0), b) == b
    ensures a >= b ==> Apply(Dec(a), b) == 1
    ensures a as int + b as int > MaxUint8 ==> Apply(Inc(a), b) == 255
  {
  }

  /** The worked cases: 250 + 10 saturates at 255, 30 - 50 at 1. */
  lemma ApplyExamples(b: uint8)
    ensures Apply(Inc(10), 250) == 255
    ensures Apply(Dec(50), 30) == 1
    ensures Apply(Dec(10), 100) == 90
    ensures Apply(Set(200), b) == 200
  {
  }
}
