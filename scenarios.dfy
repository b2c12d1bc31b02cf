/** Concrete machines run through the whole back end: a description, its preparation,
    the emitted machine's construction and its event methods. */
module Scenarios {
  import opened Wrappers
  import opened Tokens
  import Model
  import Generate
  import Runtime

  const VolumeFits: Model.Code := [Ident("volume"), Punct('<'), Punct('='), Ident("remaining")]
  const VolumeExceeds: Model.Code := [Ident("volume"), Punct('>'), Ident("remaining")]
  const IdlePattern: Model.Pattern := Model.Pattern("Idle", [Group(Brace, [Ident("remaining")])])

  /** A bottle filler: from `Idle`, `fill(volume)` moves to `Filling` through handler
      `fill_bottle` when the volume fits, and to `Empty` otherwise. */
  function Bottle(): (m: Model.Machine)
    ensures m.states.defaults.Keys == {"Idle", "Filling", "Empty"}
  {
    var volume := Model.Captured("volume", [Ident("u32")]);
    Model.Machine("Bottle",
      [Model.Event("fill", [volume])],
      [Model.Handler("fill_bottle", [], [])],
      map["fill" := map["Idle" := [
        Model.Transition(IdlePattern, "Filling", ["volume"], Some(VolumeFits), Some("fill_bottle")),
        Model.Transition(IdlePattern, "Empty", ["volume"], Some(VolumeExceeds), None)]]],
      Model.States("Idle", [], map["Idle" := [Literal("20")], "Filling" := [Literal("0")], "Empty" := []]))
  }

  const BottleOrder: seq<string> := ["Idle", "Filling", "Empty"]

  /** The default expressions of the bottle's states, evaluated. */
  function BottleDefault(c: Model.Code): Runtime.Value<int>
  {
    if c == [Literal("20")] then Runtime.Value("Idle", 20)
    else if c == [Literal("0")] then Runtime.Value("Filling", 0)
    else Runtime.Value("Empty", 0)
  }

  // ---------------------------------------------------------------------------
  // Names in scope inside an arm, for examples whose expressions are plain names
  // ---------------------------------------------------------------------------

  /** The value of `x` in `env`, or 0 when it is unbound. */
  function Get(env: map<string, int>, x: string): int
  {
    if x in env then env[x] else 0
  }

  /** The event method's parameters bound to the call's arguments. */
  function Params(names: seq<string>, args: seq<int>): map<string, int>
    decreases |names|
  {
    if names == [] || args == [] then map[]
    else Params(names[1..], args[1..])[names[0] := args[0]]
  }

  /** The `let <name> = <expr>;` bindings run one after another. */
  function Lets(env: map<string, int>, bindings: seq<(string, string)>): map<string, int>
    decreases |bindings|
  {
    if bindings == [] then env
    else Lets(env[bindings[0].0 := Get(env, bindings[0].1)], bindings[1..])
  }

  /** A pattern `State { x }` binds `x` to the payload; other patterns bind nothing. */
  function Destructure(pat: Model.Pattern, payload: int, env: map<string, int>): map<string, int>
  {
    if |pat.shape| == 1 && pat.shape[0].Group? && |pat.shape[0].stream| == 1 && pat.shape[0].stream[0].Ident?
    then env[pat.shape[0].stream[0].name := payload]
    else env
  }

  /** The scope of an arm of an event with parameter names `params`. */
  function Scope(params: seq<string>, pat: Model.Pattern, payload: int, bindings: seq<(string, string)>, args: seq<int>): map<string, int>
  {
    Destructure(pat, payload, Lets(Params(params, args), bindings))
  }

  /** The bottle's guards and its handler: `fill_bottle` takes the volume out of the
      idle slot and records it in the filling slot. */
  function BottleCode(): Runtime.UserCode<int, int>
  {
    Runtime.UserCode(
      (pat, p) => true,
      (g, ps, pat, p, bs, args) =>
        var env := Scope(ps, pat, p, bs, args);
        if g == VolumeFits then Get(env, "volume") <= Get(env, "remaining") else Get(env, "volume") > Get(env, "remaining"),
      (e, ps, pat, p, bs, args) => Get(Scope(ps, pat, p, bs, args), e),
      (h: string, o: Option<Runtime.Value<int>>, n: Runtime.Value<int>, args: seq<int>) =>
        if o.Some? && |args| == 1 then (Runtime.Value("Idle", o.value.payload - args[0]), Runtime.Value("Filling", args[0]))
        else (n, n))
  }

  /** The arms compiled for `fill` out of `Idle`, in the table's order. */
  const FillArm: Generate.Arm := Generate.Arm(
    "Idle", "idle", IdlePattern, ["volume"], [("volume", "volume")], Some(VolumeFits), "Filling",
    Some(Generate.Call("handle_fill_bottle", Some("idle"), "filling", ["volume"])))
  const SpillArm: Generate.Arm := Generate.Arm(
    "Idle", "idle", IdlePattern, ["volume"], [("volume", "volume")], Some(VolumeExceeds), "Empty", None)
  const BottleBody: Generate.Body := map["Idle" := [FillArm, SpillArm]]

  /** What `prepare` makes of the bottle, written out. */
  const PreparedBottle: Generate.Prepared := Generate.Prepared(
    "Bottle",
    BottleOrder, [[Literal("20")], [Literal("0")], []], "Idle", [], ["idle", "filling", "empty"],
    ["handle_fill_bottle"], [[]], [[]],
    ["fill"], [[Model.Captured("volume", [Ident("u32")])]], [BottleBody])

  lemma BottleNames(p: Generate.Prepared)
    requires |p.stateNames| == 3
    requires forall i :: 0 <= i < 3 ==> p.stateNames[i] == Generate.AsName(BottleOrder[i])
    ensures p.stateNames == ["idle", "filling", "empty"]
  {
    assert Generate.AsName("Idle") == "idle";
    assert Generate.AsName("Filling") == "filling";
    assert Generate.AsName("Empty") == "empty";
  }

  lemma CompiledBottleArms()
    ensures Generate.CompileArm("Idle", Bottle().transitions["fill"]["Idle"][0], Bottle().events[0]) == FillArm
    ensures Generate.CompileArm("Idle", Bottle().transitions["fill"]["Idle"][1], Bottle().events[0]) == SpillArm
  {
    var ev := Bottle().events[0];
    assert Generate.AsName("Idle") == "idle";
    assert Generate.AsName("Filling") == "filling";
    assert Generate.ArgExprs(ev.params) == ["volume"];
    assert Generate.Bindings(["volume"], ["volume"]) == [("volume", "volume")];
    FillBottleName();
    assert Generate.HandlerCall("Idle", Bottle().transitions["fill"]["Idle"][0], ev)
      == Some(Generate.Call("handle_fill_bottle", Some("idle"), "filling", ["volume"]));
  }

  lemma BottleEventBody()
    ensures Generate.EventBody(Bottle().events[0], Bottle().transitions) == BottleBody
  {
    var body := Generate.EventBody(Bottle().events[0], Bottle().transitions);
    assert body.Keys == {"Idle"};
    CompiledBottleArms();
    assert body["Idle"] == [FillArm, SpillArm];
  }

  lemma BottleStateVectors(p: Generate.Prepared)
    requires Model.Enumerates(BottleOrder, Bottle().states.defaults.Keys)
    requires p == Generate.Prepare(Bottle(), BottleOrder)
    ensures p.stateIdents == BottleOrder && p.stateDefaults == PreparedBottle.stateDefaults
  {
  }

  lemma FillBottleName()
    ensures Generate.HandlerName("fill_bottle") == "handle_fill_bottle"
  {
  }

  lemma BottleHandlerVectors(p: Generate.Prepared)
    requires |p.handlerNames| == |p.handlerParams| == |p.handlerBodies| == 1
    requires p.handlerNames[0] == Generate.HandlerName("fill_bottle") && p.handlerParams[0] == [] && p.handlerBodies[0] == []
    ensures p.handlerNames == ["handle_fill_bottle"] && p.handlerParams == [[]] && p.handlerBodies == [[]]
  {
    FillBottleName();
  }

  lemma BottleEventVectors(p: Generate.Prepared)
    requires |p.eventNames| == |p.eventParams| == |p.eventBodies| == 1
    requires p.eventNames[0] == "fill" && p.eventParams[0] == Bottle().events[0].params
    requires p.eventBodies[0] == Generate.EventBody(Bottle().events[0], Bottle().transitions)
    ensures p.eventNames == ["fill"] && p.eventParams == PreparedBottle.eventParams
    ensures p.eventBodies == [BottleBody]
  {
    BottleEventBody();
  }

  lemma BottleClosed()
    ensures Model.Enumerates(BottleOrder, Bottle().states.defaults.Keys)
    ensures Generate.TableClosed(Bottle())
  {
  }

  /** `prepare` turns the bottle into `PreparedBottle`. */
  lemma BottlePrepared()
    ensures Model.Enumerates(BottleOrder, Bottle().states.defaults.Keys)
    ensures Generate.Prepare(Bottle(), BottleOrder) == PreparedBottle
  {
    BottleClosed();
    var p := Generate.Prepare(Bottle(), BottleOrder);
    BottleNames(p);
    BottleStateVectors(p);
    BottleHandlerVectors(p);
    BottleEventVectors(p);
  }

  /** Inside the bottle's `Idle` arms, `volume` is the argument and `remaining` the idle
      payload. */
  lemma FillScope(payload: int, volume: int)
    ensures Scope(["volume"], IdlePattern, payload, [("volume", "volume")], [volume])
            == map["volume" := volume, "remaining" := payload]
  {
    var env := Params(["volume"], [volume]);
    assert env == map["volume" := volume];
    assert Lets(env, [("volume", "volume")]) == Lets(env, []) == env;
  }

  /** With room for `volume`, the fill arm's guard holds. */
  lemma FillEnabled(slots: map<string, Runtime.Value<int>>, volume: int)
    requires "idle" in slots && slots["idle"].variant == "Idle" && volume <= slots["idle"].payload
    ensures Runtime.Enabled(FillArm, slots, [volume], BottleCode())
  {
    FillScope(slots["idle"].payload, volume);
  }

  /** Firing the fill arm moves the volume from the idle field to the filling field. */
  lemma FillApplied(c: Runtime.Config<int>, volume: int)
    requires "idle" in c.slots && "filling" in c.slots
    ensures Generate.SlotsFit(FillArm, c.slots.Keys)
    ensures Runtime.Apply(FillArm, c, [volume], BottleCode())
      == Runtime.Config("Filling", c.slots["idle" := Runtime.Value("Idle", c.slots["idle"].payload - volume)]
                                          ["filling" := Runtime.Value("Filling", volume)])
  {
    FillScope(c.slots["idle"].payload, volume);
    assert Runtime.ArmArgs(FillArm, FillArm.call.value, c.slots, [volume], BottleCode()) == [volume];
  }

  /** The bottle's arms read and write fields that exist. */
  lemma BottleBodyFits(c: Runtime.Config<int>)
    requires "idle" in c.slots && "filling" in c.slots
    ensures Runtime.Fit(BottleBody, c)
  {
    assert Generate.SlotsFit(FillArm, c.slots.Keys) && Generate.SlotsFit(SpillArm, c.slots.Keys);
  }

  /** A volume that fits moves `Idle` to `Filling`; the handler takes it out of the
      idle slot and records it in the filling slot. */
  lemma FillFits(c: Runtime.Config<int>, volume: int)
    requires c.current == "Idle" && "idle" in c.slots && "filling" in c.slots
    requires c.slots["idle"].variant == "Idle" && volume <= c.slots["idle"].payload
    ensures Runtime.Fit(BottleBody, c)
    ensures Runtime.Dispatch(BottleBody, c, [volume], BottleCode())
      == (true, Runtime.Config("Filling", c.slots["idle" := Runtime.Value("Idle", c.slots["idle"].payload - volume)]
                                                  ["filling" := Runtime.Value("Filling", volume)]))
  {
    BottleBodyFits(c);
    FillEnabled(c.slots, volume);
    FillApplied(c, volume);
    Runtime.FirstMatchWins(BottleBody, c, [volume], BottleCode(), 0);
  }

  /** A volume that does not fit moves `Idle` to `Empty`, and no slot changes. */
  lemma FillOverflows(c: Runtime.Config<int>, volume: int)
    requires c.current == "Idle" && "idle" in c.slots
    requires c.slots["idle"].variant == "Idle" && volume > c.slots["idle"].payload
    ensures Runtime.Fit(BottleBody, c) ==> Runtime.Dispatch(BottleBody, c, [volume], BottleCode()) == (true, Runtime.Config("Empty", c.slots))
  {
    if Runtime.Fit(BottleBody, c) {
      FillScope(c.slots["idle"].payload, volume);
      assert !Runtime.Enabled(FillArm, c.slots, [volume], BottleCode());
      assert Runtime.Enabled(SpillArm, c.slots, [volume], BottleCode());
      Runtime.FirstMatchWins(BottleBody, c, [volume], BottleCode(), 1);
    }
  }

  /** Once filling, `fill` finds no transition and changes nothing. */
  lemma FillWhileFilling(c: Runtime.Config<int>, args: seq<int>)
    requires c.current == "Filling" && Runtime.Fit(BottleBody, c)
    ensures Runtime.Dispatch(BottleBody, c, args, BottleCode()) == (false, c)
  {
  }

  /** The prepared bottle meets what the emitted `new()` needs, and its slots start with
      20 left in the idle slot. */
  lemma BottleReady()
    ensures forall i, j :: 0 <= i < j < |PreparedBottle.stateNames| ==> PreparedBottle.stateNames[i] != PreparedBottle.stateNames[j]
    ensures PreparedBottle.stateInitial in PreparedBottle.stateIdents
    ensures forall e :: 0 <= e < |PreparedBottle.eventBodies| ==>
      Generate.BodyFits(PreparedBottle.eventBodies[e], set s | s in PreparedBottle.stateNames, set s | s in PreparedBottle.stateIdents)
  {
    assert (set s | s in PreparedBottle.stateNames) == {"idle", "filling", "empty"};
    assert (set s | s in PreparedBottle.stateIdents) == {"Idle", "Filling", "Empty"};
    assert Generate.BodyFits(BottleBody, {"idle", "filling", "empty"}, {"Idle", "Filling", "Empty"});
  }

  /** A new bottle has 20 left in its idle slot. */
  lemma BottleStartsFull()
    ensures "filling" in BottleSlots()
    ensures BottleSlots()["idle"] == Runtime.Value("Idle", 20)
  {
    var slots := BottleSlots();
    assert PreparedBottle.stateNames[0] == "idle" && PreparedBottle.stateNames[1] == "filling";
    assert slots["idle"] == BottleDefault([Literal("20")]);
  }

  /** The slots of a new bottle. */
  function BottleSlots(): map<string, Runtime.Value<int>>
  {
    Runtime.InitialSlots(PreparedBottle.stateNames, PreparedBottle.stateDefaults, BottleDefault)
  }

  /** `Bottle::new()`. */
  method NewBottle() returns (machine: Runtime.Machine<int>)
    ensures fresh(machine) && machine.Valid()
    ensures machine.bodies == [BottleBody] && machine.current == "Idle"
    ensures "idle" in machine.slots && "filling" in machine.slots
    ensures machine.slots["idle"] == Runtime.Value("Idle", 20)
  {
    BottleReady();
    BottleStartsFull();
    machine := new Runtime.Machine(PreparedBottle, BottleDefault);
  }

  /** Fill a new bottle with 10, then with 5. The first call fires and runs the
      handler; the second finds no transition out of `Filling` and changes nothing. */
  method FillTwice() returns (first: bool, second: bool, state: string, idle: int, filling: int)
    ensures first && !second
    ensures state == "Filling" && idle == 10 && filling == 10
  {
    var machine := NewBottle();
    FillFits(Runtime.Config(machine.current, machine.slots), 10);
    first := machine.Trigger(0, [10], BottleCode());
    ghost var filled := machine.slots;
    FillWhileFilling(Runtime.Config(machine.current, machine.slots), [5]);
    second := machine.Trigger(0, [5], BottleCode());
    state := machine.current;
    idle := machine.slots["idle"].payload;
    filling := machine.slots["filling"].payload;
  }

  // ---------------------------------------------------------------------------
  // What a handler receives: the event's parameter patterns, read in the arm's scope
  // ---------------------------------------------------------------------------

  /** An event `swap(a, b)`; its method passes `a, b` on to every handler it calls. */
  const Swap := Model.Event("swap", [Model.Captured("a", []), Model.Captured("b", [])])

  /** A guard `x > 0`. */
  const XPositive: Model.Code := [Ident("x"), Punct('>'), Literal("0")]

  /** User code that reads plain names in the arm's scope; the guard `x > 0` reads `x`
      there, and the handler leaves its slots as they are. */
  function ScopeCode(): Runtime.UserCode<int, int>
  {
    Runtime.UserCode(
      (pat, p) => true,
      (g, ps, pat, p, bs, args) => g != XPositive || Get(Scope(ps, pat, p, bs, args), "x") > 0,
      (e, ps, pat, p, bs, args) => Get(Scope(ps, pat, p, bs, args), e),
      (h: string, o: Option<Runtime.Value<int>>, n: Runtime.Value<int>, args: seq<int>) => (n, n))
  }

  /** `S => T : swap(b, a)` emits `let b = a; let a = b;` before the handler call, so
      both arguments the handler receives are the first one passed to `swap`. */
  lemma SwappedParameters(slots: map<string, Runtime.Value<int>>)
    requires Generate.AsName("S") in slots
    ensures var t := Model.Transition(Model.Pattern("S", []), "T", ["b", "a"], None, Some("h"));
      Runtime.TransitionArgs("S", t, Swap, slots, [1, 2], ScopeCode()) == [1, 1]
  {
    var bs := [("b", "a"), ("a", "b")];
    assert Generate.ArgExprs(Swap.params) == ["a", "b"];
    assert Generate.Bindings(["b", "a"], ["a", "b"]) == bs;
    var env0 := Params(["a", "b"], [1, 2]);
    assert env0 == map["b" := 2, "a" := 1];
    var env1 := env0["b" := 1];
    assert Lets(env0, bs) == Lets(env1, bs[1..]);
    var env2 := env1["a" := 1];
    assert Lets(env1, bs[1..]) == Lets(env2, []) == env2;
    var p := slots[Generate.AsName("S")].payload;
    assert Scope(["a", "b"], Model.Pattern("S", []), p, bs, [1, 2]) == env2;
  }

  /** With the names in their declared order the `let`s change nothing, and the handler
      receives the arguments as passed. */
  lemma InOrderParameters(slots: map<string, Runtime.Value<int>>)
    requires Generate.AsName("S") in slots
    ensures var t := Model.Transition(Model.Pattern("S", []), "T", ["a", "b"], None, Some("h"));
      Runtime.TransitionArgs("S", t, Swap, slots, [1, 2], ScopeCode()) == [1, 2]
  {
    var bs := [("a", "a"), ("b", "b")];
    assert Generate.ArgExprs(Swap.params) == ["a", "b"];
    assert Generate.Bindings(["a", "b"], ["a", "b"]) == bs;
    var env0 := Params(["a", "b"], [1, 2]);
    assert env0 == map["b" := 2, "a" := 1];
    assert Lets(env0, bs) == Lets(env0, bs[1..]);
    assert Lets(env0, bs[1..]) == Lets(env0, []) == env0;
    var p := slots[Generate.AsName("S")].payload;
    assert Scope(["a", "b"], Model.Pattern("S", []), p, bs, [1, 2]) == env0;
  }

  /** `fill(volume)` out of `Idle { volume }`: the pattern's `volume` shadows the
      parameter, so the handler receives the idle field's payload, not the argument. */
  lemma PatternShadowsArgument(slots: map<string, Runtime.Value<int>>)
    requires Generate.AsName("Idle") in slots && slots[Generate.AsName("Idle")] == Runtime.Value("Idle", 20)
    ensures var t := Model.Transition(Model.Pattern("Idle", [Group(Brace, [Ident("volume")])]), "Filling", ["volume"], None, Some("fill_bottle"));
      Runtime.TransitionArgs("Idle", t, Bottle().events[0], slots, [10], BottleCode()) == [20]
  {
    assert Generate.AsName("Idle") == "idle";
    assert Generate.ArgExprs(Bottle().events[0].params) == ["volume"];
    assert Generate.Bindings(["volume"], ["volume"]) == [("volume", "volume")];
  }

  /** Two events declaring the same names in different orders: `e1(a, x)` and `e2(x, a)`. */
  const E1 := Model.Event("e1", [Model.Captured("a", []), Model.Captured("x", [])])
  const E2 := Model.Event("e2", [Model.Captured("x", []), Model.Captured("a", [])])

  /** `S => T : eN [x > 0] -> h` with no transition parameters: each event method reads
      its own parameters. Called with `(0, 5)`, `x` is 5 under `e1` and 0 under `e2`, so
      only `e1` fires, and both hand the handler their arguments as passed. */
  lemma OwnParameters(slots: map<string, Runtime.Value<int>>)
    requires Generate.AsName("S") in slots && slots[Generate.AsName("S")].variant == "S"
    ensures var t := Model.Transition(Model.Pattern("S", []), "T", [], Some(XPositive), Some("h"));
      && Runtime.TransitionEnabled("S", t, E1, slots, [0, 5], ScopeCode())
      && !Runtime.TransitionEnabled("S", t, E2, slots, [0, 5], ScopeCode())
      && Runtime.TransitionArgs("S", t, E1, slots, [0, 5], ScopeCode()) == [0, 5]
      && Runtime.TransitionArgs("S", t, E2, slots, [0, 5], ScopeCode()) == [0, 5]
  {
    assert Generate.AsName("S") == "s";
    assert Generate.ArgExprs(E1.params) == ["a", "x"];
    assert Generate.ArgExprs(E2.params) == ["x", "a"];
    var p := slots[Generate.AsName("S")].payload;
    assert Params(["a", "x"], [0, 5]) == map["x" := 5, "a" := 0];
    assert Params(["x", "a"], [0, 5]) == map["a" := 5, "x" := 0];
    assert Scope(["a", "x"], Model.Pattern("S", []), p, [], [0, 5]) == map["x" := 5, "a" := 0];
    assert Scope(["x", "a"], Model.Pattern("S", []), p, [], [0, 5]) == map["a" := 5, "x" := 0];
  }
}
