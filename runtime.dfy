/** The behaviour of the machine that `src/generate.rs` emits. It holds a current state
    identifier and one payload slot per state, keyed by the state's field name. Each event
    method runs the arms that `Generate` compiled for it. Patterns, guards and handler
    bodies are user code, so they are supplied as functions. */
module Runtime {
  import opened Wrappers
  import Model
  import Generate

  /** A value of the emitted `State` enum: its variant and its payload. */
  datatype Value<P> = Value(variant: string, payload: P)

  /** The user code the emitted machine runs. Inside an arm, the names in scope are the
      event method's parameter patterns (bound, in order, to the call's arguments), then
      the arm's `let` bindings, then the names the from-pattern binds in the slot's
      payload; later ones shadow earlier ones. `guard` and `eval` receive all four parts:
      the parameter patterns, the pattern, the payload and the bindings, and the arguments.
      - `matches` says whether a payload destructures against a state pattern.
      - `guard` evaluates a guard in that scope.
      - `eval` evaluates an argument expression of the handler call in that scope.
      - `handle` runs a handler on the old slot (absent for a self-transition), the new
        slot and the argument values, and returns the values it leaves in both slots. */
  datatype UserCode<!P, !A> = UserCode(
    matches: (Model.Pattern, P) -> bool,
    guard: (Model.Code, seq<string>, Model.Pattern, P, seq<(string, string)>, seq<A>) -> bool,
    eval: (string, seq<string>, Model.Pattern, P, seq<(string, string)>, seq<A>) -> A,
    handle: (string, Option<Value<P>>, Value<P>, seq<A>) -> (Value<P>, Value<P>))

  /** The values a handler call passes: each argument expression evaluated in the arm's
      scope: the parameter patterns `params` bound to `args`, then `bindings`, then
      pattern `pattern` matched against `payload`. */
  function HandlerArgs<P, A>(exprs: seq<string>, params: seq<string>, pattern: Model.Pattern, payload: P,
                             bindings: seq<(string, string)>, args: seq<A>, code: UserCode<P, A>): seq<A>
  {
    seq(|exprs|, k requires 0 <= k < |exprs| => code.eval(exprs[k], params, pattern, payload, bindings, args))
  }

  /** The argument values an arm's handler call receives. */
  function ArmArgs<P, A>(arm: Generate.Arm, call: Generate.Call, slots: map<string, Value<P>>, args: seq<A>, code: UserCode<P, A>): seq<A>
    requires arm.fromName in slots
  {
    HandlerArgs(call.args, arm.params, arm.pattern, slots[arm.fromName].payload, arm.bindings, args, code)
  }

  /** The observable state of a machine: `current_state` and the slots. */
  datatype Config<P> = Config(current: string, slots: map<string, Value<P>>)

  /** Arm `arm` fires: its slot holds its from-variant, the payload matches its pattern,
      and its guard, if any, holds. */
  predicate Enabled<P, A>(arm: Generate.Arm, slots: map<string, Value<P>>, args: seq<A>, code: UserCode<P, A>)
    requires arm.fromName in slots
  {
    var v := slots[arm.fromName];
    v.variant == arm.fromIdent && code.matches(arm.pattern, v.payload)
    && (arm.guard.None? || code.guard(arm.guard.value, arm.params, arm.pattern, v.payload, arm.bindings, args))
  }

  /** The effect of a fired arm: the current state becomes the arm's destination, and the
      handler, if any, rewrites the slots it was handed. */
  function Apply<P, A>(arm: Generate.Arm, c: Config<P>, args: seq<A>, code: UserCode<P, A>): (d: Config<P>)
    requires Generate.SlotsFit(arm, c.slots.Keys)
    ensures d.current == arm.toIdent && d.slots.Keys == c.slots.Keys
    ensures arm.call.None? ==> d.slots == c.slots
    ensures forall s :: s in c.slots && !Touches(arm, s) ==> d.slots[s] == c.slots[s]
    ensures arm.call.Some? ==>
      var call := arm.call.value;
      var oldArg := if call.oldSlot.Some? then Some(c.slots[call.oldSlot.value]) else None;
      d.slots[call.newSlot] == code.handle(call.target, oldArg, c.slots[call.newSlot], ArmArgs(arm, call, c.slots, args, code)).1
    ensures arm.call.Some? && arm.call.value.oldSlot.Some? && arm.call.value.oldSlot.value != arm.call.value.newSlot ==>
      var call := arm.call.value;
      d.slots[call.oldSlot.value]
        == code.handle(call.target, Some(c.slots[call.oldSlot.value]), c.slots[call.newSlot], ArmArgs(arm, call, c.slots, args, code)).0
  {
    match arm.call
    case None => Config(arm.toIdent, c.slots)
    case Some(call) =>
      var vals := ArmArgs(arm, call, c.slots, args, code);
      if call.oldSlot.Some? then
        var out := code.handle(call.target, Some(c.slots[call.oldSlot.value]), c.slots[call.newSlot], vals);
        Config(arm.toIdent, c.slots[call.oldSlot.value := out.0][call.newSlot := out.1])
      else
        var out := code.handle(call.target, None, c.slots[call.newSlot], vals);
        Config(arm.toIdent, c.slots[call.newSlot := out.1])
  }

  /** The slots a fired arm may rewrite: those it hands to its handler. */
  predicate Touches(arm: Generate.Arm, s: string)
  {
    arm.call.Some? && (s == arm.call.value.newSlot || arm.call.value.oldSlot == Some(s))
  }

  /** Index of the first arm at or after `k` that fires. */
  function Select<P, A>(arms: seq<Generate.Arm>, k: nat, slots: map<string, Value<P>>, args: seq<A>, code: UserCode<P, A>): (r: Option<nat>)
    requires k <= |arms|
    requires forall j :: 0 <= j < |arms| ==> arms[j].fromName in slots
    ensures r.Some? ==> k <= r.value < |arms| && Enabled(arms[r.value], slots, args, code)
    ensures r.Some? ==> forall j :: k <= j < r.value ==> !Enabled(arms[j], slots, args, code)
    ensures r.None? ==> forall j :: k <= j < |arms| ==> !Enabled(arms[j], slots, args, code)
    decreases |arms| - k
  {
    if k == |arms| then None
    else if Enabled(arms[k], slots, args, code) then Some(k)
    else Select(arms, k + 1, slots, args, code)
  }

  /** Every arm of `body` fits the slots of `c`. */
  predicate Fit<P>(body: Generate.Body, c: Config<P>)
  {
    forall from, k :: from in body && 0 <= k < |body[from]| ==>
      Generate.SlotsFit(body[from][k], c.slots.Keys)
  }

  /** One call of an event method with body `body`: whether it returned `true`, and the
      configuration after it. */
  function Dispatch<P, A>(body: Generate.Body, c: Config<P>, args: seq<A>, code: UserCode<P, A>): (r: (bool, Config<P>))
    requires Fit(body, c)
    ensures r.1.slots.Keys == c.slots.Keys
  {
    if c.current !in body then (false, c)
    else
      var arms := body[c.current];
      match Select(arms, 0, c.slots, args, code)
      case None => (false, c)
      case Some(k) => (true, Apply(arms[k], c, args, code))
  }

  /** An event method returns `false` exactly when the current state has no arm in it or
      none of its arms fires, and then nothing changes. */
  lemma RejectedExactly<P, A>(body: Generate.Body, c: Config<P>, args: seq<A>, code: UserCode<P, A>)
    requires Fit(body, c)
    ensures !Dispatch(body, c, args, code).0 <==>
      c.current !in body || forall j :: 0 <= j < |body[c.current]| ==> !Enabled(body[c.current][j], c.slots, args, code)
    ensures !Dispatch(body, c, args, code).0 ==> Dispatch(body, c, args, code).1 == c
  {
    if c.current in body {
      var arms := body[c.current];
      var r := Select(arms, 0, c.slots, args, code);
      if r.Some? {
        assert Enabled(arms[r.value], c.slots, args, code);
      }
    }
  }

  /** The first arm that fires is the one taken; the arms after it are never tried. */
  lemma FirstMatchWins<P, A>(body: Generate.Body, c: Config<P>, args: seq<A>, code: UserCode<P, A>, k: nat)
    requires Fit(body, c)
    requires c.current in body && k < |body[c.current]|
    requires Enabled(body[c.current][k], c.slots, args, code)
    requires forall j :: 0 <= j < k ==> !Enabled(body[c.current][j], c.slots, args, code)
    ensures Dispatch(body, c, args, code) == (true, Apply(body[c.current][k], c, args, code))
  {
    var arms := body[c.current];
    var r := Select(arms, 0, c.slots, args, code);
    assert r == Some(k);
  }

  /** A call that returns `true` took the first arm that fires, and changed only the
      current state and the slots that arm hands to its handler. */
  lemma FiredFrame<P, A>(body: Generate.Body, c: Config<P>, args: seq<A>, code: UserCode<P, A>)
    requires Fit(body, c)
    requires Dispatch(body, c, args, code).0
    ensures c.current in body
    ensures exists k :: (
      && 0 <= k < |body[c.current]| && Enabled(body[c.current][k], c.slots, args, code)
      && (forall j :: 0 <= j < k ==> !Enabled(body[c.current][j], c.slots, args, code))
      && Dispatch(body, c, args, code).1 == Apply(body[c.current][k], c, args, code)
      && Dispatch(body, c, args, code).1.current == body[c.current][k].toIdent
      && (forall s :: s in c.slots && !Touches(body[c.current][k], s) ==> Dispatch(body, c, args, code).1.slots[s] == c.slots[s]))
  {
    var k := Select(body[c.current], 0, c.slots, args, code).value;
    assert Dispatch(body, c, args, code).1 == Apply(body[c.current][k], c, args, code);
  }

  /** A self-transition hands its handler no old state; any other transition hands it
      the slot of the state it leaves. */
  lemma HandlerOldArgument(from: string, t: Model.Transition, ev: Model.Event)
    requires t.handler.Some?
    ensures var call := Generate.CompileArm(from, t, ev).call.value;
      (call.oldSlot.None? <==> from == t.toIdent)
      && (call.oldSlot.Some? ==> call.oldSlot.value == Generate.AsName(from))
      && call.newSlot == Generate.AsName(t.toIdent)
  {
  }

  // ---------------------------------------------------------------------------
  // The same behaviour read off the machine description
  // ---------------------------------------------------------------------------

  /** Transition `t`, listed for event `ev` under from-state `from`, fires: the field of
      `from` holds a `from` value whose payload matches the transition's pattern, and
      the guard, if any, holds with the event's parameter patterns bound to the call's
      arguments, the transition's parameter names bound to those patterns, and the
      from-pattern's names bound in the payload. */
  predicate TransitionEnabled<P, A>(from: string, t: Model.Transition, ev: Model.Event,
                                    slots: map<string, Value<P>>, args: seq<A>, code: UserCode<P, A>)
  {
    var field := Generate.AsName(from);
    field in slots && slots[field].variant == from && code.matches(t.fromPat, slots[field].payload)
    && (t.guard.None?
        || code.guard(t.guard.value, Generate.ArgExprs(ev.params), t.fromPat, slots[field].payload,
                      Generate.Bindings(t.eventParams, Generate.ArgExprs(ev.params)), args))
  }

  /** The fields taking `t` from `from` reads exist. */
  predicate Ready<P>(from: string, t: Model.Transition, slots: map<string, Value<P>>)
  {
    Generate.AsName(from) in slots && (t.handler.Some? ==> Generate.AsName(t.toIdent) in slots)
  }

  /** The argument values a handler of transition `t` of event `ev` receives: each
      parameter pattern of `ev`, evaluated after the transition's parameter names are
      bound to them and the from-pattern is matched against the field of `from`. */
  function TransitionArgs<P, A>(from: string, t: Model.Transition, ev: Model.Event,
                                slots: map<string, Value<P>>, args: seq<A>, code: UserCode<P, A>): seq<A>
    requires Generate.AsName(from) in slots
  {
    var exprs := Generate.ArgExprs(ev.params);
    HandlerArgs(exprs, exprs, t.fromPat, slots[Generate.AsName(from)].payload, Generate.Bindings(t.eventParams, exprs), args, code)
  }

  /** Taking transition `t` of event `ev` from `from`: the machine moves to `t.toIdent`,
      and a handler `h` runs as `handle_<h>` on the field of `from` (not passed for a
      self-transition), the field of the destination and the event's parameter patterns
      evaluated in the transition's scope; the two fields receive what it leaves in them. */
  function Take<P, A>(from: string, t: Model.Transition, ev: Model.Event, c: Config<P>, args: seq<A>, code: UserCode<P, A>): (d: Config<P>)
    requires Ready(from, t, c.slots)
    ensures d.current == t.toIdent && d.slots.Keys == c.slots.Keys
    ensures t.handler.None? ==> d.slots == c.slots
    ensures t.handler.Some? ==>
      var target := Generate.HandlerName(t.handler.value);
      var dest := Generate.AsName(t.toIdent);
      var oldArg := if from == t.toIdent then None else Some(c.slots[Generate.AsName(from)]);
      var vals := TransitionArgs(from, t, ev, c.slots, args, code);
      d.slots[dest] == code.handle(target, oldArg, c.slots[dest], vals).1
      && (from != t.toIdent && Generate.AsName(from) != dest ==>
            d.slots[Generate.AsName(from)] == code.handle(target, oldArg, c.slots[dest], vals).0)
      && forall s :: s in c.slots && s != dest && (from == t.toIdent || s != Generate.AsName(from)) ==>
            d.slots[s] == c.slots[s]
  {
    match t.handler
    case None => Config(t.toIdent, c.slots)
    case Some(h) =>
      var dest := Generate.AsName(t.toIdent);
      var vals := TransitionArgs(from, t, ev, c.slots, args, code);
      if from == t.toIdent then
        var out := code.handle(Generate.HandlerName(h), None, c.slots[dest], vals);
        Config(t.toIdent, c.slots[dest := out.1])
      else
        var field := Generate.AsName(from);
        var out := code.handle(Generate.HandlerName(h), Some(c.slots[field]), c.slots[dest], vals);
        Config(t.toIdent, c.slots[field := out.0][dest := out.1])
  }

  /** The arm compiled for a transition fires exactly when the transition does, and
      firing it is taking the transition. */
  lemma CompiledArmAgrees<P, A>(from: string, t: Model.Transition, ev: Model.Event, c: Config<P>, args: seq<A>, code: UserCode<P, A>)
    requires Generate.SlotsFit(Generate.CompileArm(from, t, ev), c.slots.Keys)
    ensures Enabled(Generate.CompileArm(from, t, ev), c.slots, args, code)
            <==> TransitionEnabled(from, t, ev, c.slots, args, code)
    ensures Ready(from, t, c.slots)
    ensures Apply(Generate.CompileArm(from, t, ev), c, args, code) == Take(from, t, ev, c, args, code)
  {
  }

  /** An event method generated from the description does what the description says:
      it returns `true` exactly when one of the transitions listed for the event and the
      current state fires, and then takes the first of them in the listed order;
      otherwise nothing changes. */
  lemma {:induction false} DispatchFollowsTable<P, A>(ev: Model.Event, table: Model.TransitionTable, c: Config<P>, args: seq<A>, code: UserCode<P, A>)
    requires Fit(Generate.EventBody(ev, table), c)
    ensures var ts := Model.TransitionsFrom(table, ev.name, c.current);
      var r := Dispatch(Generate.EventBody(ev, table), c, args, code);
      && (r.0 <==> exists k :: 0 <= k < |ts| && TransitionEnabled(c.current, ts[k], ev, c.slots, args, code))
      && (!r.0 ==> r.1 == c)
      && (r.0 ==> exists k :: (
            && 0 <= k < |ts| && TransitionEnabled(c.current, ts[k], ev, c.slots, args, code)
            && (forall j :: 0 <= j < k ==> !TransitionEnabled(c.current, ts[j], ev, c.slots, args, code))
            && Ready(c.current, ts[k], c.slots)
            && r.1 == Take(c.current, ts[k], ev, c, args, code)))
  {
    var body := Generate.EventBody(ev, table);
    var ts := Model.TransitionsFrom(table, ev.name, c.current);
    var r := Dispatch(body, c, args, code);
    RejectedExactly(body, c, args, code);
    if c.current in body {
      var arms := body[c.current];
      assert ts == table[ev.name][c.current] && |arms| == |ts|;
      forall k | 0 <= k < |ts|
        ensures Enabled(arms[k], c.slots, args, code) <==> TransitionEnabled(c.current, ts[k], ev, c.slots, args, code)
      {
        assert arms[k] == Generate.CompileArm(c.current, ts[k], ev);
        CompiledArmAgrees(c.current, ts[k], ev, c, args, code);
      }
      if r.0 {
        var k := Select(arms, 0, c.slots, args, code).value;
        assert arms[k] == Generate.CompileArm(c.current, ts[k], ev);
        CompiledArmAgrees(c.current, ts[k], ev, c, args, code);
        assert r.1 == Take(c.current, ts[k], ev, c, args, code);
      }
    } else {
      assert ts == [];
    }
  }

  /** The slots of a freshly constructed machine: slot `names[i]` holds the value of
      default expression `defaults[i]`. */
  function InitialSlots<P>(names: seq<string>, defaults: seq<Model.Code>, value: Model.Code -> Value<P>): (slots: map<string, Value<P>>)
    requires |names| == |defaults|
    requires forall i, j :: 0 <= i < j < |names| ==> names[i] != names[j]
    ensures slots.Keys == set s | s in names
    ensures forall i :: 0 <= i < |names| ==> slots[names[i]] == value(defaults[i])
  {
    map i | 0 <= i < |names| :: names[i] := value(defaults[i])
  }

  /** The slots `new()` fills for a prepared machine hold, for every state of the
      description, the value of that state's default under the state's field name. */
  lemma NewSlotsHoldDefaults<P>(m: Model.Machine, order: seq<string>, value: Model.Code -> Value<P>, s: string)
    requires Model.Enumerates(order, m.states.defaults.Keys)
    requires forall i, j :: 0 <= i < j < |order| ==> Generate.AsName(order[i]) != Generate.AsName(order[j])
    requires s in m.states.defaults
    ensures var p := Generate.Prepare(m, order);
      Generate.AsName(s) in InitialSlots(p.stateNames, p.stateDefaults, value)
      && InitialSlots(p.stateNames, p.stateDefaults, value)[Generate.AsName(s)] == value(m.states.defaults[s])
  {
    var p := Generate.Prepare(m, order);
    var i :| 0 <= i < |order| && order[i] == s;
    assert p.stateNames[i] == Generate.AsName(s);
  }

  /** One call of an event method: the event's number and its arguments. */
  datatype Stimulus<A> = Stimulus(event: nat, args: seq<A>)

  /** Every body fits the slots of `c` and every stimulus names an existing event. */
  predicate Runnable<P, A>(bodies: seq<Generate.Body>, c: Config<P>, trace: seq<Stimulus<A>>)
  {
    (forall e :: 0 <= e < |bodies| ==> Fit(bodies[e], c))
    && forall k :: 0 <= k < |trace| ==> trace[k].event < |bodies|
  }

  /** The configuration after calling the event methods of `trace` one after another. */
  function Run<P, A>(bodies: seq<Generate.Body>, c: Config<P>, trace: seq<Stimulus<A>>, code: UserCode<P, A>): (d: Config<P>)
    requires Runnable(bodies, c, trace)
    ensures d.slots.Keys == c.slots.Keys
    decreases |trace|
  {
    if trace == [] then c
    else
      var next := Dispatch(bodies[trace[0].event], c, trace[0].args, code).1;
      assert Runnable(bodies, next, trace[1..]) by {
        forall e | 0 <= e < |bodies|
          ensures Fit(bodies[e], next)
        {
          assert Fit(bodies[e], c);
        }
      }
      Run(bodies, next, trace[1..], code)
  }

  /** Slots persist: a slot that no arm hands to a handler keeps the payload it had,
      whatever events arrive, so re-entering its state finds that payload again. */
  lemma {:induction false} UntouchedSlotPersists<P, A>(bodies: seq<Generate.Body>, c: Config<P>, trace: seq<Stimulus<A>>, code: UserCode<P, A>, s: string)
    requires Runnable(bodies, c, trace) && s in c.slots
    requires forall e, from, k :: 0 <= e < |bodies| && from in bodies[e] && 0 <= k < |bodies[e][from]| ==> !Touches(bodies[e][from][k], s)
    ensures Run(bodies, c, trace, code).slots[s] == c.slots[s]
    decreases |trace|
  {
    if trace != [] {
      var body := bodies[trace[0].event];
      var r := Dispatch(body, c, trace[0].args, code);
      if r.0 {
        FiredFrame(body, c, trace[0].args, code);
      } else {
        RejectedExactly(body, c, trace[0].args, code);
      }
      assert r.1.slots[s] == c.slots[s];
      assert Runnable(bodies, r.1, trace[1..]) by {
        forall e | 0 <= e < |bodies|
          ensures Fit(bodies[e], r.1)
        {
          assert Fit(bodies[e], c);
        }
      }
      UntouchedSlotPersists(bodies, r.1, trace[1..], code, s);
    }
  }

  /** The current state is always a declared state identifier. */
  lemma {:induction false} RunStaysDeclared<P, A>(bodies: seq<Generate.Body>, c: Config<P>, trace: seq<Stimulus<A>>, code: UserCode<P, A>, idents: set<string>)
    requires Runnable(bodies, c, trace) && c.current in idents
    requires forall e :: 0 <= e < |bodies| ==> Generate.BodyFits(bodies[e], c.slots.Keys, idents)
    ensures Run(bodies, c, trace, code).current in idents
    decreases |trace|
  {
    if trace != [] {
      var body := bodies[trace[0].event];
      var r := Dispatch(body, c, trace[0].args, code);
      if r.0 {
        FiredFrame(body, c, trace[0].args, code);
        var k :| 0 <= k < |body[c.current]| && r.1 == Apply(body[c.current][k], c, trace[0].args, code);
        assert Generate.Fits(body[c.current][k], c.slots.Keys, idents);
      } else {
        RejectedExactly(body, c, trace[0].args, code);
      }
      assert Runnable(bodies, r.1, trace[1..]) by {
        forall e | 0 <= e < |bodies|
          ensures Fit(bodies[e], r.1)
        {
          assert Fit(bodies[e], c);
        }
      }
      RunStaysDeclared(bodies, r.1, trace[1..], code, idents);
    }
  }

  /** The emitted `Machine`. */
  class Machine<P> {
    /** The `StateIdentifier` variants. */
    const idents: set<string>
    /** The slot fields. */
    const names: set<string>
    /** The body of each event method, in event order. */
    const bodies: seq<Generate.Body>
    var current: string
    var slots: map<string, Value<P>>

    ghost predicate Valid()
      reads this
    {
      current in idents && slots.Keys == names
      && forall e :: 0 <= e < |bodies| ==> Generate.BodyFits(bodies[e], names, idents)
    }

    /** `Machine::new()`: the initial state, and every slot holding its state's default. */
    constructor (p: Generate.Prepared, value: Model.Code -> Value<P>)
      requires |p.stateIdents| == |p.stateDefaults| == |p.stateNames|
      requires forall i, j :: 0 <= i < j < |p.stateNames| ==> p.stateNames[i] != p.stateNames[j]
      requires p.stateInitial in p.stateIdents
      requires forall e :: 0 <= e < |p.eventBodies| ==>
        Generate.BodyFits(p.eventBodies[e], set s | s in p.stateNames, set s | s in p.stateIdents)
      ensures Valid()
      ensures idents == set s | s in p.stateIdents && names == set s | s in p.stateNames
      ensures bodies == p.eventBodies
      ensures current == p.stateInitial
      ensures slots == InitialSlots(p.stateNames, p.stateDefaults, value)
    {
      idents := set s | s in p.stateIdents;
      names := set s | s in p.stateNames;
      bodies := p.eventBodies;
      current := p.stateInitial;
      slots := InitialSlots(p.stateNames, p.stateDefaults, value);
    }

    /** The event method of event number `e`, called with arguments `args`. */
    method Trigger<A>(e: nat, args: seq<A>, code: UserCode<P, A>) returns (fired: bool)
      requires Valid() && e < |bodies|
      modifies this
      ensures Valid()
      ensures Fit(bodies[e], old(Config(current, slots)))
      ensures (fired, Config(current, slots)) == Dispatch(bodies[e], old(Config(current, slots)), args, code)
    {
      ghost var c := Config(current, slots);
      var body := bodies[e];
      assert Fit(body, c) by {
        forall from, k | from in body && 0 <= k < |body[from]|
          ensures Generate.SlotsFit(body[from][k], c.slots.Keys)
        {
          assert Generate.Fits(body[from][k], names, idents);
        }
      }
      if current !in body {
        return false;
      }
      var arms := body[current];
      var k := 0;
      while k < |arms|
        invariant k <= |arms|
        invariant current == c.current && slots == c.slots
        invariant Select(arms, 0, slots, args, code) == Select(arms, k, slots, args, code)
      {
        var arm := arms[k];
        var v := slots[arm.fromName];
        if v.variant == arm.fromIdent && code.matches(arm.pattern, v.payload) {
          if arm.guard.None? || code.guard(arm.guard.value, arm.params, arm.pattern, v.payload, arm.bindings, args) {
            current := arm.toIdent;
            if arm.call.Some? {
              var call := arm.call.value;
              var vals := HandlerArgs(call.args, arm.params, arm.pattern, v.payload, arm.bindings, args, code);
              if call.oldSlot.Some? {
                var out := code.handle(call.target, Some(slots[call.oldSlot.value]), slots[call.newSlot], vals);
                slots := slots[call.oldSlot.value := out.0][call.newSlot := out.1];
              } else {
                var out := code.handle(call.target, None, slots[call.newSlot], vals);
                slots := slots[call.newSlot := out.1];
              }
            }
            return true;
          }
        }
        k := k + 1;
      }
      return false;
    }
  }
}
