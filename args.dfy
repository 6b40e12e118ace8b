/**
 * Argument handling of the `brightness` and `color` commands in cmd/lights.go:
 * the positional-argument validators that the command framework runs before a
 * command, `toUint8`/`toUint16`, and the choice of transformer from the `--inc`
 * and `--dec` flags. `log.Fatal` becomes an `Err` result.
 */
module Args {
  import opened Wrappers
  import opened Uint
  import opened Strconv
  import opened Brightness

  /** Why a command line is refused; each variant is one message of the source. */
  datatype CliError =
    | ExactlyOneArgument        // "exactly one argument is required"
    | NotUint8                  // "argument needs to be a uint8"
    | NotPositive               // "argument needs to be greater than 0"
    | HueAndSaturationRequired  // "hue and saturation arguments required"
    | HueNotUint16              // "hue needs to be a uint16"
    | SaturationNotUint8        // "saturation needs to be a uint8"
    | IncAndDec                 // "cannot both increase and decrease value"
    | Fatal(cause: NumError)    // `log.Fatal(err)` in toUint8 / toUint16

  /** A base-10 number that fits in 8 bits. */
  predicate IsUint8Decimal(s: string) { IsDecimal(s) && Value(s) <= MaxUint8 }

  /** A base-10 number that fits in 16 bits. */
  predicate IsUint16Decimal(s: string) { IsDecimal(s) && Value(s) <= MaxUint16 }

  lemma MaxUintWidths()
    ensures MaxUint(8) == MaxUint8 && MaxUint(16) == MaxUint16
  {
  }

  /** `uintArgs()`: exactly one argument, a base-10 `uint8` of at least 1. */
  function UintArgs(args: seq<string>): (r: Outcome<CliError>)
    ensures r.Pass? <==> |args| == 1 && IsUint8Decimal(args[0]) && Value(args[0]) >= 1
    ensures |args| != 1 ==> r == Fail(ExactlyOneArgument)
    ensures |args| == 1 && !IsUint8Decimal(args[0]) ==> r == Fail(NotUint8)
    ensures |args| == 1 && IsUint8Decimal(args[0]) && Value(args[0]) == 0 ==> r == Fail(NotPositive)
  {
    MaxUintWidths();
    if |args| != 1 then Fail(ExactlyOneArgument)
    else match ParseUint(args[0], 8)
      case Err(_) => Fail(NotUint8)
      case Ok(a) => if a < 1 then Fail(NotPositive) else Pass
  }

  /** The `Args` check of the color command: a base-10 `uint16` hue, then a base-10 `uint8` saturation. */
  function ColorArgs(args: seq<string>): (r: Outcome<CliError>)
    ensures r.Pass? <==> |args| == 2 && IsUint16Decimal(args[0]) && IsUint8Decimal(args[1])
    ensures |args| != 2 ==> r == Fail(HueAndSaturationRequired)
    ensures |args| == 2 && !IsUint16Decimal(args[0]) ==> r == Fail(HueNotUint16)
    ensures |args| == 2 && IsUint16Decimal(args[0]) && !IsUint8Decimal(args[1]) ==> r == Fail(SaturationNotUint8)
  {
    MaxUintWidths();
    if |args| != 2 then Fail(HueAndSaturationRequired)
    else if ParseUint(args[0], 16).Err? then Fail(HueNotUint16)
    else if ParseUint(args[1], 8).Err? then Fail(SaturationNotUint8)
    else Pass
  }

  /** `toUint8`: the parsed value, or the fatal error `ParseUint` reported. */
  function ToUint8(arg: string): (r: Result<uint8, CliError>)
    ensures r.Ok? <==> IsUint8Decimal(arg)
    ensures r.Ok? ==> r.value as int == Value(arg)
    ensures r.Err? ==> ParseUint(arg, 8).Err? && r.error == Fatal(ParseUint(arg, 8).error)
  {
    MaxUintWidths();
    match ParseUint(arg, 8)
    case Ok(a) => Ok(a as uint8)
    case Err(e) => Err(Fatal(e))
  }

  /** `toUint16`: the parsed value, or the fatal error `ParseUint` reported. */
  function ToUint16(arg: string): (r: Result<uint16, CliError>)
    ensures r.Ok? <==> IsUint16Decimal(arg)
    ensures r.Ok? ==> r.value as int == Value(arg)
    ensures r.Err? ==> ParseUint(arg, 16).Err? && r.error == Fatal(ParseUint(arg, 16).error)
  {
    MaxUintWidths();
    match ParseUint(arg, 16)
    case Ok(a) => Ok(a as uint16)
    case Err(e) => Err(Fatal(e))
  }

  /**
   * The `brightness` command up to the choice of transformer: the argument check
   * runs first, then the flags are checked, then the argument is converted.
   */
  function BrightnessMode(increase: bool, decrease: bool, args: seq<string>): (r: Result<Mode, CliError>)
    ensures r.Ok? <==> UintArgs(args).Pass? && !(increase && decrease)
    ensures UintArgs(args).Fail? ==> r == Err(UintArgs(args).error)
    ensures UintArgs(args).Pass? && increase && decrease ==> r == Err(IncAndDec)
    ensures r.Ok? ==> r.value.operand as int == Value(args[0]) && r.value.operand >= 1
    ensures r.Ok? ==> (r.value.Inc? <==> increase) && (r.value.Dec? <==> decrease)
    ensures r.Ok? ==> (r.value.Set? <==> !increase && !decrease)
  {
    match UintArgs(args)
    case Fail(e) => Err(e)
    case Pass =>
      if increase && decrease then Err(IncAndDec)
      else match ToUint8(args[0])
        case Err(e) => Err(e)
        case Ok(val) =>
          if increase then Ok(Inc(val))
          else if decrease then Ok(Dec(val))
          else Ok(Set(val))
  }

  /** The `color` command's hue and saturation, after its argument check. */
  function ColorValues(args: seq<string>): (r: Result<(uint16, uint8), CliError>)
    ensures r.Ok? <==> ColorArgs(args).Pass?
    ensures ColorArgs(args).Fail? ==> r == Err(ColorArgs(args).error)
    ensures r.Ok? ==> r.value.0 as int == Value(args[0]) && r.value.1 as int == Value(args[1])
  {
    match ColorArgs(args)
    case Fail(e) => Err(e)
    case Pass =>
      match ToUint16(args[0])
      case Err(e) => Err(e)
      case Ok(hue) =>
        match ToUint8(args[1])
        case Err(e) => Err(e)
        case Ok(sat) => Ok((hue, sat))
  }

  /** Whatever the flags and the current brightness, an accepted command line never asks for 0. */
  lemma AcceptedBrightnessInRange(increase: bool, decrease: bool, args: seq<string>, current: uint8)
    requires BrightnessMode(increase, decrease, args).Ok?
    ensures 1 <= Apply(BrightnessMode(increase, decrease, args).value, current) as int <= MaxUint8
  {
  }

  lemma BrightnessExamples()
    ensures BrightnessMode(true, false, ["10"]) == Ok(Inc(10))
    ensures BrightnessMode(false, false, ["0"]) == Err(NotPositive)
    ensures BrightnessMode(false, false, ["256"]) == Err(NotUint8)
    ensures BrightnessMode(true, true, []) == Err(ExactlyOneArgument)
    ensures BrightnessMode(true, true, ["5"]) == Err(IncAndDec)
  {
  }
}
