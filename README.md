# huectl lights core, modelled in Dafny

`huectl` is a command-line client for Philips Hue lights. This project models the
brightness and argument logic of its `lights` commands (cmd/lights.go), and the
way a command is run on a set of lights:

- **Brightness transformers** (`Brightness`). `addValue`, `subValue` and
  `setValue` are the three variants of `Mode`, and `Apply` applies one of them to
  a light's current brightness. The arithmetic is done in a `uint8` newtype, so
  the verifier checks that `a + b` and `255 - b` never wrap. `addValue` stops at
  255. `subValue` stops at 1, so it never reaches 0.
- **Argument handling** (`Args`, `Strconv`). `uintArgs` is `UintArgs`, the color
  command's argument check is `ColorArgs`, and `toUint8`/`toUint16` are
  `ToUint8`/`ToUint16`. `BrightnessMode` models the choice between `--inc` and
  `--dec`. Go's `strconv.ParseUint(s, 10, bitSize)` is modelled as a
  left-to-right digit scan, like Go's loop. It is proved equal to a plain
  statement (`ParseSpec`), and it reads back every `FormatUint(n)` that fits.
  `log.Fatal` becomes an `Err` result.
- **Light commands** (`Lights`). The Hue bridge is a `Bridge` object holding a
  map from light id to light state. `simpleLightCommand` is
  `SimpleLightCommand`: it gathers the targeted lights (`GetLights`, or
  `FetchLights` over the given ids), then `RunOnAll` runs the command on each of
  them. The per-light commands (`lightOn`, `lightOff`, `lightToggle`,
  `lightBrightness`, `lightColor`) are the `Command` variants, run by `Execute`.
  The pure function `Run` states what the loop does, and the lemmas are about
  `Run`. `byID` and the sort in `listLightsCmd` are `Swap` and `SortById`.

Each command works on a *snapshot*: it computes its requests from the light
state fetched before the loop. So `--id 3,3 toggle` flips light 3 once, not twice
(`ToggleRepeatedIdFlipsOnce`). Two separate `toggle` invocations do restore the
light's state (`ToggleTwiceRestores`).

The model is written in Dafny 4.11. It is made of `wrappers.dfy`, `uint.dfy`,
`strconv.dfy`, `brightness.dfy`, `args.dfy` and `lights.dfy`, which are given to
`dafny verify` together.

## Model

| member | source | states |
|---|---|---|
| `Strconv.ParseUint` | cmd/lights.go:254 | accepts exactly the non-empty strings of decimal digits whose value fits in `bitSize` bits (0 meaning the width of `uint`, taken here as 64), with that value as the result; the empty string is a syntax error, a bit size over 64 a bit-size error; otherwise the result, error kind included, is that of `ParseSpec` |
| `Strconv.ScanIsSpec` | cmd/lights.go:262 | the digit-by-digit loop agrees with the plain statement: a too-large digit prefix is a range error, then a non-digit is a syntax error |
| `Strconv.ParseFormat` | cmd/lights.go:201 | every number that fits in the bit size parses back from its decimal spelling |
| `Strconv.FormatValue` | cmd/lights.go:173 | the decimal spelling of `n` denotes `n` |
| `Strconv.RangeBeforeSyntax` | cmd/lights.go:176 | "300x" is a range error and "x300" a syntax error for 8 bits; leading zeros are allowed; a sign is refused |
| `Brightness.AddValue` | cmd/lights.go:269-276 | the result is `min(a + b, 255)`; it is never below `a` or `b`, so it never wraps |
| `Brightness.SubValue` | cmd/lights.go:278-285 | the result is `max(b - a, 1)`; it is at least 1 and at most `max(b, 1)` |
| `Brightness.SetValue` | cmd/lights.go:287-291 | the result is the operand, whatever the current value, with no clamping |
| `Brightness.Apply` | cmd/lights.go:293-298 | applying the chosen transformer to the current brightness gives set, saturating-add or saturating-subtract as above |
| `Brightness.ApplyInRange` | cmd/lights.go:269-291 | with an operand of at least 1, every mode yields a brightness in [1, 255] |
| `Brightness.ApplyEdges` | cmd/lights.go:271-283 | adding 0 is the identity; subtracting at least the current value gives exactly 1; an overflowing sum gives exactly 255 |
| `Brightness.ApplyExamples` | cmd/lights.go:269-290 | 250 + 10 gives 255, 30 - 50 gives 1, 100 - 10 gives 90, setting 200 gives 200 |
| `Args.UintArgs` | cmd/lights.go:195-209 | accepts exactly one argument that is a base-10 `uint8` of at least 1; otherwise the wrong count, a non-`uint8` and a 0 each give their own error, in that order |
| `Args.ColorArgs` | cmd/lights.go:168-181 | accepts exactly two arguments, a base-10 `uint16` then a base-10 `uint8`; otherwise the wrong count, a bad hue and a bad saturation each give their own error, in that order |
| `Args.ToUint8` | cmd/lights.go:253-259 | succeeds exactly on a base-10 `uint8`, returning its decimal value; otherwise a fatal error carrying the error `ParseUint(arg, 8)` reports |
| `Args.ToUint16` | cmd/lights.go:261-267 | succeeds exactly on a base-10 `uint16`, returning its decimal value; otherwise a fatal error carrying the error `ParseUint(arg, 16)` reports |
| `Args.BrightnessMode` | cmd/lights.go:134-148 | the argument check comes first; then `--inc` with `--dec` is refused; otherwise `--inc` selects add, `--dec` selects subtract and neither selects set, with the argument's decimal value (at least 1) as operand |
| `Args.ColorValues` | cmd/lights.go:182-184 | after the color argument check, the hue and saturation are the decimal values of the two arguments |
| `Args.AcceptedBrightnessInRange` | cmd/lights.go:133 | for an accepted command line and any current brightness, the new brightness is in [1, 255] |
| `Args.BrightnessExamples` | cmd/lights.go:136-147 | concrete command lines: `--inc 10`, `0`, `256`, no argument, and both flags |
| `Lights.Requests` | cmd/lights.go:245-327 | the one or two calls each light command makes, computed from the fetched light: carried out, they turn it on, turn it off, flip its on/off state (toggle), set its brightness to the transformer applied to its current brightness, or set its hue and saturation |
| `Lights.SendAll` | cmd/lights.go:300-311 | sending a light command's requests changes only the targeted light, and no light is added or removed |
| `Lights.SendAllStopsAtFirstRefusal` | cmd/lights.go:302-309 | requests go out in order and stop at the first refusal: the light ends as the accepted earlier requests left it, and the refused request is reported |
| `Lights.Run` | cmd/lights.go:234-240 | running the command over the targets adds or removes no light and logs exactly one entry per target |
| `Lights.FirstUnfetchable` | cmd/lights.go:225-229 | the position of the first id that cannot be fetched, with all earlier ids fetchable; none exactly when every id is fetchable |
| `Lights.Bridge.GetLight` | cmd/lights.go:226 | a light is returned exactly when the bridge is reachable and knows the id, and it is the bridge's state for that id |
| `Lights.Bridge.GetLights` | cmd/lights.go:221 | when the bridge is reachable, every light exactly once with its current state; otherwise an error |
| `Lights.Bridge.SetState` | cmd/lights.go:247 | a request succeeds unless the bridge refuses it, and only a successful request changes the light |
| `Lights.Execute` | cmd/lights.go:293-327 | running one light command changes the bridge as `SendAll` of the command's requests, which are computed from the fetched light, and reports the refused request |
| `Lights.FetchLights` | cmd/lights.go:224-232 | with explicit ids, either every light in id order, or an error naming the first id that could not be fetched |
| `Lights.RunOnAll` | cmd/lights.go:234-240 | the command is run on every gathered light in order; the final bridge state and the log are those of `Run` |
| `Lights.SimpleLightCommand` | cmd/lights.go:213-243 | no bridge, an unreachable listing, or the first unfetchable explicit id gives an error with no command sent; otherwise the targets are all lights or the lights of the given ids in order, the result is success, and the state and log are those of `Run` |
| `Lights.RunLogsEveryTarget` | cmd/lights.go:234-240 | every gathered light gets exactly one log entry, in order, carrying that light's id |
| `Lights.SendAllRefusalIgnoresState` | cmd/lights.go:235-236 | whether a light's requests are refused, and which one, depends only on which lights the bridge knows, not on their current state |
| `Lights.RunLogIsPerTarget` | cmd/lights.go:234-240 | each target's log entry is the outcome of sending that target's own requests to the bridge as it stood before the loop, so a refusal for one light changes no other light's entry: a refused light is logged as a warning and the loop goes on |
| `Lights.RunAcceptedTargetReachesGoal` | cmd/lights.go:234-240 | a target named once, fetched as the bridge holds it, whose requests are all accepted, ends in the state its command computed, whatever is refused for the other targets |
| `Lights.RunLeavesOthers` | cmd/lights.go:234-236 | lights that were not targeted are unchanged, and no light is added or removed |
| `Lights.SendAllAccepted` | cmd/lights.go:302-310 | when the bridge refuses nothing, all of a command's requests are carried out and nothing is reported |
| `Lights.GoalIsStable` | cmd/lights.go:293-327 | carrying out a command's requests again on a light that already reached their result changes nothing |
| `Lights.RunReachesGoals` | cmd/lights.go:219-240 | when nothing is refused, every targeted light ends in the state its command computed from the snapshot, whatever the order and repetitions of the targets |
| `Lights.RunAcceptedLogsNoWarning` | cmd/lights.go:235-238 | when nothing is refused, every log entry is a debug line and none is a warning |
| `Lights.ToggleFlips` | cmd/lights.go:320-327 | toggling turns an on light off and an off light on, changing nothing else |
| `Lights.ToggleTwiceRestores` | cmd/lights.go:320-327 | two toggle invocations, each fetching the light again, restore the whole light; the first one flips its on/off state |
| `Lights.ToggleRepeatedIdFlipsOnce` | cmd/lights.go:225-240 | naming one light twice in a single toggle flips it once, because both commands use the same snapshot |
| `Lights.SentBrightnessInRange` | cmd/lights.go:293-298 | for an accepted brightness command line, the one request sent for a light sets a brightness in [1, 255] |
| `Lights.Swap` | cmd/lights.go:60 | exchanges two elements and leaves the others and the multiset of lights unchanged |
| `Lights.SortById` | cmd/lights.go:73 | the lights end in ascending id order and are a permutation of the original lights |

## Left out

- Listing output: the `tabwriter` table of `listLightsCmd` (cmd/lights.go:75-82) is not modelled. Of `listLightsCmd`, only the sort is modelled.
- Configuration and `getBridge`: reading the YAML config is file I/O in config/config.go and cmd/root.go. Its outcome is the `Bridge?` parameter of `SimpleLightCommand`, with `null` meaning failure.
- Bridge transport: huego's HTTP calls (`l.On`, `l.Off`, `l.Bri`, `l.Hue`, `l.Sat`, `GetLight`, `GetLights`) are not part of this model. Whether a request fails is the bridge's `refuses` relation. Whether a fetch fails depends on `reachable` and on the id being known.
- Lights.Bridge.SetState: takes each call to change only the attribute it names, whatever the huego client actually puts in the request body. The client may also send `on: true` with a brightness, hue or saturation and may leave out a zero hue or saturation; huego is not part of this model. So `Goal` of a brightness command keeping `on` unchanged is a statement about the model, not about the bridge.
- Lights.Bridge.GetLights: huego builds its result by iterating a Go map, so the order can change on every call. Here each bridge lists its lights in one fixed but arbitrary `order`. `SimpleLightCommand` promises only that its targets list each light once, in some order.
- Log text: `log.Warningf` and `log.Debugf` are modelled as `Warned` and `Executed` entries. `log.Warningf(err.Error())` prints only the error text; the light id in a `Warned` entry is the model's own bookkeeping, so that entries can be matched to lights. The error strings of huego are not modelled.
- `log.Fatal`: modelled as an `Err`/`Fail` result. Process termination is not modelled.
- Strconv.ParseUint: models only the error kind. Go also returns a value on error (0, or the maximum on a range error), which nothing in the core uses.
- Lights.SortById: the `sort.Sort` library algorithm is not reimplemented. An insertion sort using `byID.Swap` stands in for it, and only the contract matters: ascending ids and a permutation.
- Command-line wiring: cobra commands, flag parsing (`--id` as an int slice, `--inc`, `--dec`) and help text are not modelled. `ids` is `None` when `--id` was not given.
- cmd/connect.go (bridge discovery and pairing), cmd/version.go and main.go (log formatting) are not part of this model.
