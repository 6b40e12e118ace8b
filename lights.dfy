/**
 * The light commands of cmd/lights.go. The Hue bridge is a `Bridge` object that
 * holds the state of every light by id; what it answers to a request is fixed by
 * its `refuses` relation, and whether it can be reached at all by `reachable`.
 * `simpleLightCommand` first gathers the targeted lights (all of them, or each
 * given id in turn), then runs the command on every gathered light in order.
 */
module Lights {
  import opened Wrappers
  import opened Uint
  import opened Brightness
  import Args

  /** The part of a `huego.Light` the commands read or change. */
  datatype Light = Light(id: int, on: bool, bri: uint8, hue: uint16, sat: uint8)

  /** One state change sent to the bridge for one light (`l.On`, `l.Off`, `l.Bri`, `l.Hue`, `l.Sat`). */
  datatype Request = SetOn(on: bool) | SetBri(bri: uint8) | SetHue(hue: uint16) | SetSat(sat: uint8)

  /** The `lightCommand` closures: `lightOn`, `lightOff`, `lightToggle`, `lightBrightness`, `lightColor`. */
  datatype Command = TurnOn | TurnOff | Toggle | SetBrightness(mode: Mode) | SetColor(hue: uint16, sat: uint8)

  /** What `simpleLightCommand` logs for one light: a warning with the refused request, or a debug line. */
  datatype LogEntry = Executed(id: int) | Warned(id: int, refused: Request)

  /** Why `simpleLightCommand` returned an error. */
  datatype CommandError =
    | NoBridge            // "unable to find hue brigde: ..."
    | ListFailed          // the error of `GetLights`, returned as it is
    | FetchFailed(id: int) // "could not fetch light %d: ..."

  /** The light once the bridge has carried out `req`. */
  function Updated(l: Light, req: Request): Light {
    match req
    case SetOn(b) => l.(on := b)
    case SetBri(v) => l.(bri := v)
    case SetHue(h) => l.(hue := h)
    case SetSat(s) => l.(sat := s)
  }

  /** The light once the bridge has carried out all of `reqs`, in order. */
  function ApplyAll(l: Light, reqs: seq<Request>): (r: Light)
    ensures r.id == l.id
    decreases |reqs|
  {
    if reqs == [] then l else ApplyAll(Updated(l, reqs[0]), reqs[1..])
  }

  lemma ApplyOne(l: Light, r: Request)
    ensures ApplyAll(l, [r]) == Updated(l, r)
  {
    assert [r][1..] == [];
  }

  lemma ApplyTwo(l: Light, r1: Request, r2: Request)
    ensures ApplyAll(l, [r1, r2]) == Updated(Updated(l, r1), r2)
  {
    assert [r1, r2][1..] == [r2];
    ApplyOne(Updated(l, r1), r2);
  }

  /**
   * The requests a command sends for a light, computed from the light's state as
   * fetched, stated by what they achieve when all are carried out.
   */
  function Requests(cmd: Command, l: Light): (rs: seq<Request>)
    ensures 1 <= |rs| <= 2
    ensures cmd.TurnOn? ==> ApplyAll(l, rs) == l.(on := true)
    ensures cmd.TurnOff? ==> ApplyAll(l, rs) == l.(on := false)
    ensures cmd.Toggle? ==> ApplyAll(l, rs) == l.(on := !l.on)
    ensures cmd.SetBrightness? ==> ApplyAll(l, rs) == l.(bri := Apply(cmd.mode, l.bri))
    ensures cmd.SetColor? ==> ApplyAll(l, rs) == l.(hue := cmd.hue, sat := cmd.sat)
  {
    match cmd
    case TurnOn => ApplyOne(l, SetOn(true)); [SetOn(true)]
    case TurnOff => ApplyOne(l, SetOn(false)); [SetOn(false)]
    case Toggle =>
      ApplyOne(l, SetOn(!l.on));
      if l.on then [SetOn(false)] else [SetOn(true)]
    case SetBrightness(m) => ApplyOne(l, SetBri(Apply(m, l.bri))); [SetBri(Apply(m, l.bri))]
    case SetColor(h, s) => ApplyTwo(l, SetHue(h), SetSat(s)); [SetHue(h), SetSat(s)]
  }

  /** The state a light reaches when every request of `cmd` on it is carried out. */
  function Goal(cmd: Command, l: Light): Light {
    ApplyAll(l, Requests(cmd, l))
  }

  /**
   * Sends `reqs` for light `id`, in order, and stops at the first one the bridge
   * refuses (a light command returns on its first error). Gives the new state and
   * the refused request, if any.
   */
  function SendAll(state: map<int, Light>, id: int, reqs: seq<Request>, refuses: (int, Request) -> bool)
    : (r: (map<int, Light>, Option<Request>))
    ensures r.0.Keys == state.Keys
    ensures forall x :: x in state && x != id ==> r.0[x] == state[x]
    ensures r.1.None? ==> id in state || reqs == []
    decreases |reqs|
  {
    if reqs == [] then (state, None)
    else if id !in state || refuses(id, reqs[0]) then (state, Some(reqs[0]))
    else SendAll(state[id := Updated(state[id], reqs[0])], id, reqs[1..], refuses)
  }

  lemma SendOne(state: map<int, Light>, id: int, r: Request, refuses: (int, Request) -> bool)
    ensures SendAll(state, id, [r], refuses)
      == if id in state && !refuses(id, r) then (state[id := Updated(state[id], r)], None) else (state, Some(r))
  {
    assert [r][1..] == [];
  }

  lemma SendTwo(state: map<int, Light>, id: int, r1: Request, r2: Request, refuses: (int, Request) -> bool)
    ensures SendAll(state, id, [r1, r2], refuses)
      == if id in state && !refuses(id, r1) then SendAll(state[id := Updated(state[id], r1)], id, [r2], refuses)
         else (state, Some(r1))
  {
    assert [r1, r2][1..] == [r2];
  }

  /**
   * When the bridge refuses request `k` and accepts every earlier one, the light
   * ends as the earlier requests left it and request `k` is reported.
   */
  lemma {:induction false} SendAllStopsAtFirstRefusal(state: map<int, Light>, id: int, reqs: seq<Request>,
                                                     refuses: (int, Request) -> bool, k: nat)
    requires id in state && k < |reqs|
    requires refuses(id, reqs[k]) && forall j :: 0 <= j < k ==> !refuses(id, reqs[j])
    ensures SendAll(state, id, reqs, refuses) == (state[id := ApplyAll(state[id], reqs[..k])], Some(reqs[k]))
    decreases k
  {
    if k == 0 {
      assert reqs[..0] == [];
      assert state[id := state[id]] == state;
    } else {
      var s1 := state[id := Updated(state[id], reqs[0])];
      var tail := reqs[1..];
      assert forall j :: 0 <= j < |tail| ==> tail[j] == reqs[j + 1];
      SendAllStopsAtFirstRefusal(s1, id, tail, refuses, k - 1);
      assert reqs[..k][1..] == tail[..k - 1];
      assert s1[id := ApplyAll(s1[id], tail[..k - 1])] == state[id := ApplyAll(state[id], reqs[..k])];
    }
  }

  /** The entry logged for a light, given what its command returned. */
  function Entry(id: int, refused: Option<Request>): LogEntry {
    if refused.Some? then Warned(id, refused.value) else Executed(id)
  }

  /**
   * The second loop of `simpleLightCommand`: the command is run on every light of
   * `targets` in order, a refusal is logged and the loop goes on. Gives the final
   * state of the bridge and the log.
   */
  function Run(state: map<int, Light>, targets: seq<Light>, cmd: Command, refuses: (int, Request) -> bool)
    : (r: (map<int, Light>, seq<LogEntry>))
    ensures r.0.Keys == state.Keys
    ensures |r.1| == |targets|
    decreases |targets|
  {
    if targets == [] then (state, [])
    else
      var sent := SendAll(state, targets[0].id, Requests(cmd, targets[0]), refuses);
      var rest := Run(sent.0, targets[1..], cmd, refuses);
      (rest.0, [Entry(targets[0].id, sent.1)] + rest.1)
  }

  /** Every light is stored under its own id. */
  predicate WellKeyed(state: map<int, Light>) {
    forall id :: id in state ==> state[id].id == id
  }

  predicate Fetchable(lights: map<int, Light>, reachable: bool, id: int) {
    reachable && id in lights
  }

  /** The position of the first id that cannot be fetched, if there is one. */
  function FirstUnfetchable(lights: map<int, Light>, reachable: bool, ids: seq<int>): (r: Option<nat>)
    ensures r.Some? ==> r.value < |ids| && !Fetchable(lights, reachable, ids[r.value])
    ensures r.Some? ==> forall j :: 0 <= j < r.value ==> Fetchable(lights, reachable, ids[j])
    ensures r.None? <==> forall j :: 0 <= j < |ids| ==> Fetchable(lights, reachable, ids[j])
  {
    if ids == [] then None
    else if !Fetchable(lights, reachable, ids[0]) then Some(0)
    else match FirstUnfetchable(lights, reachable, ids[1..])
      case None => None
      case Some(k) => Some(k + 1)
  }

  /** `ls` is what `GetLights` may return: every light once, in some order. */
  ghost predicate IsListing(ls: seq<Light>, lights: map<int, Light>) {
    && (forall i :: 0 <= i < |ls| ==> ls[i].id in lights && lights[ls[i].id] == ls[i])
    && (forall id :: id in lights ==> exists i :: 0 <= i < |ls| && ls[i].id == id)
    && (forall i, j :: 0 <= i < j < |ls| ==> ls[i].id != ls[j].id)
  }

  /** `order` lists every id of `lights` exactly once. */
  predicate Enumerates(order: seq<int>, lights: map<int, Light>) {
    && (forall k :: 0 <= k < |order| ==> order[k] in lights)
    && (forall id :: id in lights ==> id in order)
    && (forall k, m :: 0 <= k < m < |order| ==> order[k] != order[m])
  }

  /**
   * The Hue bridge, seen through the calls the light commands make on it.
   * `order` is the order in which it lists its lights.
   */
  class Bridge {
    var lights: map<int, Light>
    const order: seq<int>
    const reachable: bool
    const refuses: (int, Request) -> bool

    ghost predicate Valid()
      reads this
    {
      WellKeyed(lights) && Enumerates(order, lights)
    }

    constructor (lights: map<int, Light>, order: seq<int>, reachable: bool, refuses: (int, Request) -> bool)
      requires WellKeyed(lights) && Enumerates(order, lights)
      ensures Valid()
      ensures this.lights == lights && this.order == order && this.reachable == reachable && this.refuses == refuses
    {
      this.lights := lights;
      this.order := order;
      this.reachable := reachable;
      this.refuses := refuses;
    }

    /** `b.GetLight(id)`. */
    method GetLight(id: int) returns (r: Option<Light>)
      ensures r.Some? <==> Fetchable(lights, reachable, id)
      ensures r.Some? ==> r.value == lights[id]
    {
      if reachable && id in lights {
        r := Some(lights[id]);
      } else {
        r := None;
      }
    }

    /** `b.GetLights()`: every light once, in the bridge's order. */
    method GetLights() returns (r: Option<seq<Light>>)
      requires Valid()
      ensures r.Some? <==> reachable
      ensures r.Some? ==> IsListing(r.value, lights)
    {
      if !reachable {
        return None;
      }
      var ls: seq<Light> := [];
      for i := 0 to |order|
        invariant |ls| == i
        invariant forall k :: 0 <= k < i ==> ls[k] == lights[order[k]] && ls[k].id == order[k]
      {
        ls := ls + [lights[order[i]]];
      }
      forall id | id in lights
        ensures exists k :: 0 <= k < |ls| && ls[k].id == id
      {
        var k :| 0 <= k < |order| && order[k] == id;
        assert ls[k].id == id;
      }
      return Some(ls);
    }

    /** One call such as `l.On()` or `l.Bri(v)`: it succeeds unless the bridge refuses it. */
    method SetState(id: int, req: Request) returns (ok: bool)
      requires Valid()
      modifies this
      ensures Valid()
      ensures ok <==> id in old(lights) && !refuses(id, req)
      ensures lights == if ok then old(lights)[id := Updated(old(lights)[id], req)] else old(lights)
    {
      ok := id in lights && !refuses(id, req);
      if ok {
        lights := lights[id := Updated(lights[id], req)];
      }
    }
  }

  /** Runs one light command on the fetched light `l`; gives the request the bridge refused, if any. */
  method Execute(b: Bridge, l: Light, cmd: Command) returns (refused: Option<Request>)
    requires b.Valid()
    modifies b
    ensures b.Valid()
    ensures (b.lights, refused) == SendAll(old(b.lights), l.id, Requests(cmd, l), b.refuses)
  {
    var ok: bool;
    ghost var before := b.lights;
    match cmd {
      case TurnOn =>
        ok := b.SetState(l.id, SetOn(true));
        refused := if ok then None else Some(SetOn(true));
        SendOne(before, l.id, SetOn(true), b.refuses);
      case TurnOff =>
        ok := b.SetState(l.id, SetOn(false));
        refused := if ok then None else Some(SetOn(false));
        SendOne(before, l.id, SetOn(false), b.refuses);
      case Toggle =>
        if l.on {
          ok := b.SetState(l.id, SetOn(false));
          refused := if ok then None else Some(SetOn(false));
          SendOne(before, l.id, SetOn(false), b.refuses);
        } else {
          ok := b.SetState(l.id, SetOn(true));
          refused := if ok then None else Some(SetOn(true));
          SendOne(before, l.id, SetOn(true), b.refuses);
        }
      case SetBrightness(m) =>
        var value := Apply(m, l.bri);
        ok := b.SetState(l.id, SetBri(value));
        refused := if ok then None else Some(SetBri(value));
        SendOne(before, l.id, SetBri(value), b.refuses);
      case SetColor(h, s) =>
        SendTwo(before, l.id, SetHue(h), SetSat(s), b.refuses);
        ok := b.SetState(l.id, SetHue(h));
        if !ok {
          refused := Some(SetHue(h));
        } else {
          ghost var middle := b.lights;
          ok := b.SetState(l.id, SetSat(s));
          refused := if ok then None else Some(SetSat(s));
          SendOne(middle, l.id, SetSat(s), b.refuses);
        }
    }
  }

  /** The first loop of `simpleLightCommand` for explicit ids: fetch each in turn, stop at the first failure. */
  method FetchLights(b: Bridge, ids: seq<int>) returns (r: Result<seq<Light>, CommandError>)
    ensures r.Ok? <==> FirstUnfetchable(b.lights, b.reachable, ids).None?
    ensures r.Ok? ==> |r.value| == |ids| && forall k :: 0 <= k < |ids| ==> r.value[k] == b.lights[ids[k]]
    ensures r.Err? ==> r.error == FetchFailed(ids[FirstUnfetchable(b.lights, b.reachable, ids).value])
  {
    var lights: seq<Light> := [];
    for i := 0 to |ids|
      invariant |lights| == i
      invariant forall k :: 0 <= k < i ==> Fetchable(b.lights, b.reachable, ids[k]) && lights[k] == b.lights[ids[k]]
    {
      var l := b.GetLight(ids[i]);
      if l.None? {
        var first := FirstUnfetchable(b.lights, b.reachable, ids);
        assert first == Some(i) by {
          if first.None? {
          } else if first.value < i {
          } else if first.value > i {
          }
        }
        return Err(FetchFailed(ids[i]));
      }
      lights := lights + [l.value];
    }
    return Ok(lights);
  }

  /** The second loop of `simpleLightCommand`: run `cmd` on every light, log each outcome, never stop. */
  method RunOnAll(b: Bridge, lights: seq<Light>, cmd: Command) returns (log: seq<LogEntry>)
    requires b.Valid()
    modifies b
    ensures b.Valid()
    ensures (b.lights, log) == Run(old(b.lights), lights, cmd, b.refuses)
  {
    log := [];
    ghost var whole := Run(b.lights, lights, cmd, b.refuses);
    assert lights[0..] == lights;
    assert whole == (whole.0, whole.1) && whole.1 == log + whole.1;
    for i := 0 to |lights|
      invariant b.Valid()
      invariant Run(old(b.lights), lights, cmd, b.refuses)
        == (Run(b.lights, lights[i..], cmd, b.refuses).0, log + Run(b.lights, lights[i..], cmd, b.refuses).1)
    {
      ghost var before := b.lights;
      assert lights[i..][1..] == lights[i + 1..];
      var refused := Execute(b, lights[i], cmd);
      ghost var rest := Run(b.lights, lights[i + 1..], cmd, b.refuses);
      assert Run(before, lights[i..], cmd, b.refuses) == (rest.0, [Entry(lights[i].id, refused)] + rest.1);
      assert log + ([Entry(lights[i].id, refused)] + rest.1) == (log + [Entry(lights[i].id, refused)]) + rest.1;
      log := log + [Entry(lights[i].id, refused)];
    }
    assert lights[|lights|..] == [];
    assert log + [] == log;
  }

  /**
   * `simpleLightCommand(ids, cmd)`. `b` is what `getBridge` gave (null when it
   * failed); `ids` is `None` when no `--id` flag was given. `targets` is the
   * sequence of lights the command ran on.
   */
  method SimpleLightCommand(b: Bridge?, ids: Option<seq<int>>, cmd: Command)
    returns (r: Outcome<CommandError>, log: seq<LogEntry>, ghost targets: seq<Light>)
    requires b != null ==> b.Valid()
    modifies b
    ensures b != null ==> b.Valid()
    ensures b == null ==> r == Fail(NoBridge)
    ensures b != null && ids.None? ==> (r.Pass? <==> b.reachable)
    ensures b != null && ids.None? && !b.reachable ==> r == Fail(ListFailed)
    ensures b != null && ids.None? && r.Pass? ==> IsListing(targets, old(b.lights))
    ensures b != null && ids.Some? ==>
      match FirstUnfetchable(old(b.lights), b.reachable, ids.value)
      case None => r.Pass? && |targets| == |ids.value|
        && forall k :: 0 <= k < |ids.value| ==> targets[k] == old(b.lights)[ids.value[k]]
      case Some(k) => r == Fail(FetchFailed(ids.value[k]))
    ensures r.Fail? ==> log == [] && (b != null ==> b.lights == old(b.lights))
    ensures r.Pass? ==> b != null && (b.lights, log) == Run(old(b.lights), targets, cmd, b.refuses)
  {
    if b == null {
      return Fail(NoBridge), [], [];
    }
    var lights: seq<Light>;
    if ids.None? {
      var all := b.GetLights();
      if all.None? {
        return Fail(ListFailed), [], [];
      }
      lights := all.value;
    } else {
      var fetched := FetchLights(b, ids.value);
      if fetched.Err? {
        return Fail(fetched.error), [], [];
      }
      lights := fetched.value;
    }
    targets := lights;
    log := RunOnAll(b, lights, cmd);
    return Pass, log, targets;
  }

  // ---------------------------------------------------------------------------
  // Properties of the command loop

  /** Every gathered light gets exactly one log entry, in order: a refusal does not stop the loop. */
  lemma {:induction false} RunLogsEveryTarget(state: map<int, Light>, targets: seq<Light>, cmd: Command, refuses: (int, Request) -> bool)
    ensures |Run(state, targets, cmd, refuses).1| == |targets|
    ensures forall i :: 0 <= i < |targets| ==> Run(state, targets, cmd, refuses).1[i].id == targets[i].id
    decreases |targets|
  {
    if targets != [] {
      RunLogsEveryTarget(SendAll(state, targets[0].id, Requests(cmd, targets[0]), refuses).0, targets[1..], cmd, refuses);
    }
  }

  /** The loop changes no light outside the targets, and adds or removes none. */
  lemma {:induction false} RunLeavesOthers(state: map<int, Light>, targets: seq<Light>, cmd: Command, refuses: (int, Request) -> bool)
    ensures Run(state, targets, cmd, refuses).0.Keys == state.Keys
    ensures forall x :: x in state && (forall i :: 0 <= i < |targets| ==> targets[i].id != x) ==>
      Run(state, targets, cmd, refuses).0[x] == state[x]
    decreases |targets|
  {
    if targets != [] {
      var s1 := SendAll(state, targets[0].id, Requests(cmd, targets[0]), refuses).0;
      RunLeavesOthers(s1, targets[1..], cmd, refuses);
      forall x | x in state && (forall i :: 0 <= i < |targets| ==> targets[i].id != x)
        ensures Run(state, targets, cmd, refuses).0[x] == state[x]
      {
        assert targets[0].id != x;
        assert forall i :: 0 <= i < |targets[1..]| ==> targets[1..][i].id != x by {
          forall i | 0 <= i < |targets[1..]| ensures targets[1..][i].id != x {
            assert targets[1..][i] == targets[i + 1];
          }
        }
      }
    }
  }

  /** Whether a light's requests are refused depends only on which lights the bridge knows, not on their state. */
  lemma {:induction false} SendAllRefusalIgnoresState(s: map<int, Light>, t: map<int, Light>, id: int, reqs: seq<Request>,
                                                     refuses: (int, Request) -> bool)
    requires s.Keys == t.Keys
    ensures SendAll(s, id, reqs, refuses).1 == SendAll(t, id, reqs, refuses).1
    decreases |reqs|
  {
    if reqs != [] && id in s && !refuses(id, reqs[0]) {
      SendAllRefusalIgnoresState(s[id := Updated(s[id], reqs[0])], t[id := Updated(t[id], reqs[0])], id, reqs[1..], refuses);
    }
  }

  /**
   * The entry logged for each target is what its own command's requests get from
   * the bridge: a refusal of earlier lights changes nothing about later entries.
   */
  lemma {:induction false} RunLogIsPerTarget(state: map<int, Light>, targets: seq<Light>, cmd: Command, refuses: (int, Request) -> bool)
    ensures forall i :: 0 <= i < |targets| ==>
      Run(state, targets, cmd, refuses).1[i]
        == Entry(targets[i].id, SendAll(state, targets[i].id, Requests(cmd, targets[i]), refuses).1)
    decreases |targets|
  {
    if targets != [] {
      var s1 := SendAll(state, targets[0].id, Requests(cmd, targets[0]), refuses).0;
      var tail := targets[1..];
      RunLogIsPerTarget(s1, tail, cmd, refuses);
      forall i | 0 < i < |targets|
        ensures Run(state, targets, cmd, refuses).1[i]
          == Entry(targets[i].id, SendAll(state, targets[i].id, Requests(cmd, targets[i]), refuses).1)
      {
        assert tail[i - 1] == targets[i];
        SendAllRefusalIgnoresState(s1, state, targets[i].id, Requests(cmd, targets[i]), refuses);
      }
    }
  }

  /**
   * A target named once, fetched as it is in `state`, whose requests the bridge
   * accepts, ends at its goal whatever the bridge refuses for the other targets.
   */
  lemma {:induction false} RunAcceptedTargetReachesGoal(state: map<int, Light>, targets: seq<Light>, cmd: Command,
                                                       refuses: (int, Request) -> bool, i: nat)
    requires i < |targets| && targets[i].id in state && state[targets[i].id] == targets[i]
    requires forall j :: 0 <= j < |targets| && j != i ==> targets[j].id != targets[i].id
    requires Accepted(refuses, targets[i].id, Requests(cmd, targets[i]))
    ensures targets[i].id in Run(state, targets, cmd, refuses).0
    ensures Run(state, targets, cmd, refuses).0[targets[i].id] == Goal(cmd, targets[i])
    decreases i
  {
    var t := targets[i];
    var tail := targets[1..];
    assert forall j :: 0 <= j < |tail| ==> tail[j] == targets[j + 1];
    if i == 0 {
      SendAllAccepted(state, t.id, Requests(cmd, t), refuses);
      var s1 := state[t.id := Goal(cmd, t)];
      RunLeavesOthers(s1, tail, cmd, refuses);
    } else {
      var s1 := SendAll(state, targets[0].id, Requests(cmd, targets[0]), refuses).0;
      RunAcceptedTargetReachesGoal(s1, tail, cmd, refuses, i - 1);
    }
  }

  /** The bridge refuses none of `reqs` for light `id`. */
  predicate Accepted(refuses: (int, Request) -> bool, id: int, reqs: seq<Request>) {
    forall k :: 0 <= k < |reqs| ==> !refuses(id, reqs[k])
  }

  /** When nothing is refused, sending all requests carries all of them out. */
  lemma {:induction false} SendAllAccepted(state: map<int, Light>, id: int, reqs: seq<Request>, refuses: (int, Request) -> bool)
    requires id in state && Accepted(refuses, id, reqs)
    ensures SendAll(state, id, reqs, refuses) == (state[id := ApplyAll(state[id], reqs)], None)
    decreases |reqs|
  {
    if reqs == [] {
      assert state[id := state[id]] == state;
    } else {
      var s1 := state[id := Updated(state[id], reqs[0])];
      assert Accepted(refuses, id, reqs[1..]) by {
        forall k | 0 <= k < |reqs[1..]| ensures !refuses(id, reqs[1..][k]) {
          assert reqs[1..][k] == reqs[k + 1];
        }
      }
      SendAllAccepted(s1, id, reqs[1..], refuses);
      assert s1[id := ApplyAll(s1[id], reqs[1..])] == state[id := ApplyAll(state[id], reqs)];
    }
  }

  /** Carrying out a command's requests on a light that already reached its goal changes nothing. */
  lemma GoalIsStable(cmd: Command, l: Light)
    ensures ApplyAll(Goal(cmd, l), Requests(cmd, l)) == Goal(cmd, l)
  {
    match cmd
    case SetColor(h, s) =>
      ApplyTwo(l, SetHue(h), SetSat(s));
      ApplyTwo(Goal(cmd, l), SetHue(h), SetSat(s));
    case _ =>
      var rs := Requests(cmd, l);
      assert |rs| == 1;
      assert rs == [rs[0]];
      ApplyOne(l, rs[0]);
      ApplyOne(Goal(cmd, l), rs[0]);
  }

  /** The targets are snapshots: two of them with the same id are the same light state. */
  ghost predicate Snapshots(targets: seq<Light>) {
    forall i, j :: 0 <= i < |targets| && 0 <= j < |targets| && targets[i].id == targets[j].id ==> targets[i] == targets[j]
  }

  /**
   * When the bridge accepts every request, every targeted light ends in the goal
   * its command computed from the snapshot taken before the loop, whatever the
   * order of the targets and however often an id repeats.
   */
  lemma {:induction false} RunReachesGoals(state: map<int, Light>, targets: seq<Light>, cmd: Command, refuses: (int, Request) -> bool)
    requires Snapshots(targets)
    requires forall i :: 0 <= i < |targets| ==> targets[i].id in state
    requires forall i :: 0 <= i < |targets| ==> Accepted(refuses, targets[i].id, Requests(cmd, targets[i]))
    requires forall i :: 0 <= i < |targets| ==>
      state[targets[i].id] == targets[i] || state[targets[i].id] == Goal(cmd, targets[i])
    ensures forall i :: 0 <= i < |targets| ==>
      (targets[i].id in Run(state, targets, cmd, refuses).0 &&
       Run(state, targets, cmd, refuses).0[targets[i].id] == Goal(cmd, targets[i]))
    decreases |targets|
  {
    if targets != [] {
      var t := targets[0];
      SendAllAccepted(state, t.id, Requests(cmd, t), refuses);
      GoalIsStable(cmd, t);
      var s1 := state[t.id := Goal(cmd, t)];
      assert SendAll(state, t.id, Requests(cmd, t), refuses) == (s1, None);
      var tail := targets[1..];
      assert forall i :: 0 <= i < |tail| ==> tail[i] == targets[i + 1];
      forall i | 0 <= i < |tail|
        ensures tail[i].id in s1 && (s1[tail[i].id] == tail[i] || s1[tail[i].id] == Goal(cmd, tail[i]))
      {
        if tail[i].id == t.id {
          assert tail[i] == targets[i + 1] == t;
        }
      }
      RunReachesGoals(s1, tail, cmd, refuses);
      RunLeavesOthers(s1, tail, cmd, refuses);
      var rest := Run(s1, tail, cmd, refuses);
      assert Run(state, targets, cmd, refuses).0 == rest.0;
      forall i | 0 <= i < |targets|
        ensures targets[i].id in rest.0 && rest.0[targets[i].id] == Goal(cmd, targets[i])
      {
        if i > 0 {
          assert targets[i] == tail[i - 1];
        } else if j :| 0 <= j < |tail| && tail[j].id == t.id {
          assert tail[j] == targets[j + 1] == t;
        }
      }
    }
  }

  /** When the bridge accepts every request, every log entry is a debug line. */
  lemma {:induction false} RunAcceptedLogsNoWarning(state: map<int, Light>, targets: seq<Light>, cmd: Command, refuses: (int, Request) -> bool)
    requires forall i :: 0 <= i < |targets| ==> targets[i].id in state
    requires forall i :: 0 <= i < |targets| ==> Accepted(refuses, targets[i].id, Requests(cmd, targets[i]))
    ensures forall i :: 0 <= i < |Run(state, targets, cmd, refuses).1| ==> Run(state, targets, cmd, refuses).1[i].Executed?
    decreases |targets|
  {
    if targets != [] {
      var t := targets[0];
      SendAllAccepted(state, t.id, Requests(cmd, t), refuses);
      var sent := SendAll(state, t.id, Requests(cmd, t), refuses);
      var tail := targets[1..];
      assert forall i :: 0 <= i < |tail| ==> tail[i] == targets[i + 1];
      RunAcceptedLogsNoWarning(sent.0, tail, cmd, refuses);
    }
  }

  // ---------------------------------------------------------------------------
  // The commands themselves

  /** `lightToggle` turns an on light off and an off light on. */
  lemma ToggleFlips(l: Light)
    ensures Goal(Toggle, l).on == !l.on
    ensures Goal(Toggle, l) == l.(on := !l.on)
  {
    ApplyOne(l, SetOn(!l.on));
  }

  /** Toggling a light in two invocations, each fetching it anew, restores its on/off state. */
  lemma ToggleTwiceRestores(state: map<int, Light>, id: int, refuses: (int, Request) -> bool)
    requires WellKeyed(state) && id in state
    requires !refuses(id, SetOn(true)) && !refuses(id, SetOn(false))
    ensures var once := Run(state, [state[id]], Toggle, refuses).0;
      id in once && once[id].on == !state[id].on &&
      var twice := Run(once, [once[id]], Toggle, refuses).0;
      id in twice && twice[id] == state[id]
  {
    var l := state[id];
    ToggleFlips(l);
    RunReachesGoals(state, [l], Toggle, refuses);
    var once := Run(state, [l], Toggle, refuses).0;
    assert [l][0] == l;
    var l1 := once[id];
    ToggleFlips(l1);
    RunReachesGoals(once, [l1], Toggle, refuses);
    assert [l1][0] == l1;
  }

  /**
   * Naming one light twice in one invocation does not toggle it twice: both
   * commands are computed from the same snapshot, so it ends up flipped.
   */
  lemma ToggleRepeatedIdFlipsOnce(state: map<int, Light>, id: int, refuses: (int, Request) -> bool)
    requires WellKeyed(state) && id in state
    requires !refuses(id, SetOn(true)) && !refuses(id, SetOn(false))
    ensures var final := Run(state, [state[id], state[id]], Toggle, refuses).0;
      id in final && final[id].on == !state[id].on
  {
    var l := state[id];
    ToggleFlips(l);
    RunReachesGoals(state, [l, l], Toggle, refuses);
    assert [l, l][0] == l;
  }

  /** The brightness sent for an accepted command line is in [1, 255], whatever the light's brightness. */
  lemma SentBrightnessInRange(increase: bool, decrease: bool, args: seq<string>, l: Light)
    requires Args.BrightnessMode(increase, decrease, args).Ok?
    ensures var rs := Requests(SetBrightness(Args.BrightnessMode(increase, decrease, args).value), l);
      |rs| == 1 && rs[0].SetBri? && 1 <= rs[0].bri as int <= MaxUint8
  {
  }

  // ---------------------------------------------------------------------------
  // Ordering for the listing

  /** `byID.Less`, extended to say the whole sequence is in ascending id order. */
  predicate SortedById(ls: seq<Light>) {
    forall i, j :: 0 <= i < j < |ls| ==> ls[i].id <= ls[j].id
  }

  /** `byID.Swap`. */
  method Swap(a: array<Light>, i: int, j: int)
    requires 0 <= i < a.Length && 0 <= j < a.Length
    modifies a
    ensures a[i] == old(a[j]) && a[j] == old(a[i])
    ensures forall k :: 0 <= k < a.Length && k != i && k != j ==> a[k] == old(a[k])
    ensures multiset(a[..]) == old(multiset(a[..]))
  {
    a[i], a[j] := a[j], a[i];
  }

  /** `sort.Sort(byID(lights))`: ascending ids, and the same lights (insertion by adjacent swaps). */
  method SortById(a: array<Light>)
    modifies a
    ensures SortedById(a[..])
    ensures multiset(a[..]) == old(multiset(a[..]))
  {
    for i := 0 to a.Length
      invariant SortedById(a[..i])
      invariant multiset(a[..]) == old(multiset(a[..]))
    {
      var j := i;
      while j > 0 && a[j - 1].id > a[j].id
        invariant 0 <= j <= i
        invariant forall k, m :: 0 <= k < m <= i && k != j && m != j ==> a[k].id <= a[m].id
        invariant forall m :: j < m <= i ==> a[j].id <= a[m].id
        invariant multiset(a[..]) == old(multiset(a[..]))
      {
        Swap(a, j - 1, j);
        j := j - 1;
      }
    }
  }
}
