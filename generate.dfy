/** The generator's preparation step (`src/generate.rs`): it turns a machine description
    into index-aligned vectors of state, handler and event data, and compiles each event's
    transitions into the dispatch arms of its event method. The emitted text is not
    modelled; an arm records what the emitted code for one transition does. */
module Generate {
  import opened Wrappers
  import Model

  predicate IsUpper(c: char)
  {
    'A' <= c <= 'Z'
  }

  /** No character of `s` is an upper-case letter. */
  predicate NoUpper(s: string)
  {
    forall k :: 0 <= k < |s| ==> !IsUpper(s[k])
  }

  /** Lower-casing of one character (ASCII letters only). */
  function Lower(c: char): (l: char)
    ensures !IsUpper(l)
    ensures IsUpper(c) ==> l as int == c as int + 32
    ensures !IsUpper(c) ==> l == c
  {
    if IsUpper(c) then (c as int + 32) as char else c
  }

  /** `as_name`: the field name of a state, its identifier in lower case. */
  function AsName(ident: string): (name: string)
    ensures |name| == |ident|
    ensures NoUpper(name)
    ensures forall k :: 0 <= k < |ident| ==> (name[k] == ident[k] <==> !IsUpper(ident[k]))
    ensures forall k :: 0 <= k < |ident| && IsUpper(ident[k]) ==> name[k] as int == ident[k] as int + 32
  {
    seq(|ident|, k requires 0 <= k < |ident| => Lower(ident[k]))
  }

  /** A name already in lower case is its own field name. */
  lemma AsNameKeepsLower(ident: string)
    requires NoUpper(ident)
    ensures AsName(ident) == ident
  {
  }

  /** Lower-casing twice is lower-casing once. */
  lemma AsNameIdempotent(ident: string)
    ensures AsName(AsName(ident)) == AsName(ident)
  {
    AsNameKeepsLower(AsName(ident));
  }

  /** Two identifiers that differ only in case get the same field name. */
  lemma AsNameIgnoresCase()
    ensures "Idle" != "IDLE" && AsName("Idle") == AsName("IDLE")
  {
    assert AsName("Idle") == "idle";
    assert AsName("IDLE") == "idle";
  }

  /** The method name generated for handler `h`. */
  function HandlerName(h: string): (n: string)
    ensures |n| == |h| + 7 && n[..7] == "handle_" && n[7..] == h
  {
    "handle_" + h
  }

  /** Distinct handlers get distinct method names. */
  lemma HandlerNameInjective(a: string, b: string)
    requires HandlerName(a) == HandlerName(b)
    ensures a == b
  {
    assert a == HandlerName(a)[7..];
  }

  /** A handler invocation: the method called, the slot passed as the old state (`None`
      for a self-transition), the slot passed as the new state, and the expressions
      passed as the event's arguments. */
  datatype Call = Call(target: string, oldSlot: Option<string>, newSlot: string, args: seq<string>)

  /** What the emitted code does for one transition, inside the event method whose
      parameter patterns are `params`: it binds the transition's parameter names to
      those patterns, matches the slot `fromName` against
      `State::<fromIdent><pattern>`, evaluates the guard, and on success moves to
      `toIdent`, makes the handler call, and returns `true`. */
  datatype Arm = Arm(
    fromIdent: string, fromName: string, pattern: Model.Pattern,
    params: seq<string>, bindings: seq<(string, string)>, guard: Option<Model.Code>,
    toIdent: string, call: Option<Call>)

  /** The body of one event method: for each from-state identifier, the arms tried in
      order. A state absent from the map falls through to `false`. */
  type Body = map<string, seq<Arm>>

  /** The vectors `prepare` hands to the code template. Vectors sharing a prefix are
      index-aligned. */
  datatype Prepared = Prepared(
    name: string,
    stateIdents: seq<string>, stateDefaults: seq<Model.Code>, stateInitial: string,
    stateDefinitions: Model.Code, stateNames: seq<string>,
    handlerNames: seq<string>, handlerParams: seq<seq<Model.Param>>, handlerBodies: seq<Model.Code>,
    eventNames: seq<string>, eventParams: seq<seq<Model.Param>>, eventBodies: seq<Body>)

  /** The expression an event method passes on for one of its parameters: the parameter's
      pattern, or the placeholder `__invalid__` for any uncaptured parameter. */
  function ArgExpr(p: Model.Param): (e: string)
    ensures p.Captured? ==> e == p.pat
    ensures p.Uncaptured? ==> e == "__invalid__"
  {
    match p
    case Captured(pat, _) => pat
    case Uncaptured => "__invalid__"
  }

  function ArgExprs(params: seq<Model.Param>): (es: seq<string>)
    ensures |es| == |params|
    ensures forall k :: 0 <= k < |params| ==> es[k] == ArgExpr(params[k])
  {
    seq(|params|, k requires 0 <= k < |params| => ArgExpr(params[k]))
  }

  /** The `let <name> = <argument>;` pairs: a repetition over two lists stops at the end
      of the shorter one. */
  function Bindings(names: seq<string>, args: seq<string>): (bs: seq<(string, string)>)
    ensures |bs| == if |names| <= |args| then |names| else |args|
    ensures forall k :: 0 <= k < |bs| ==> bs[k] == (names[k], args[k])
  {
    if names == [] || args == [] then [] else [(names[0], args[0])] + Bindings(names[1..], args[1..])
  }

  /** The handler call a transition from `from` makes, if it names a handler. */
  function HandlerCall(from: string, t: Model.Transition, ev: Model.Event): (c: Option<Call>)
    ensures c.Some? <==> t.handler.Some?
    ensures c.Some? ==> c.value.target == HandlerName(t.handler.value)
    ensures c.Some? ==> (c.value.oldSlot.None? <==> from == t.toIdent)
    ensures c.Some? && c.value.oldSlot.Some? ==> c.value.oldSlot.value == AsName(from)
    ensures c.Some? ==> c.value.newSlot == AsName(t.toIdent) && c.value.args == ArgExprs(ev.params)
  {
    match t.handler
    case None => None
    case Some(h) =>
      Some(Call(HandlerName(h), if from == t.toIdent then None else Some(AsName(from)),
                AsName(t.toIdent), ArgExprs(ev.params)))
  }

  /** The arm emitted for transition `t`, listed under from-state `from` of event `ev`. */
  function CompileArm(from: string, t: Model.Transition, ev: Model.Event): (a: Arm)
    ensures a.fromIdent == from && a.fromName == AsName(from)
    ensures a.pattern == t.fromPat && a.guard == t.guard && a.toIdent == t.toIdent
    ensures a.params == ArgExprs(ev.params) && a.bindings == Bindings(t.eventParams, a.params)
    ensures a.call == HandlerCall(from, t, ev)
  {
    Arm(from, AsName(from), t.fromPat, ArgExprs(ev.params), Bindings(t.eventParams, ArgExprs(ev.params)),
        t.guard, t.toIdent, HandlerCall(from, t, ev))
  }

  /** The method body of event `ev`: one arm list per from-state listed for it in the
      table, each in the table's order; no entry for the event gives an empty body. */
  function EventBody(ev: Model.Event, table: Model.TransitionTable): (body: Body)
    ensures ev.name !in table ==> body == map[]
    ensures ev.name in table ==> body.Keys == table[ev.name].Keys
    ensures forall from :: from in body ==>
      |body[from]| == |table[ev.name][from]|
      && forall k :: 0 <= k < |body[from]| ==> body[from][k] == CompileArm(from, table[ev.name][from][k], ev)
  {
    if ev.name in table then
      var froms := table[ev.name];
      map from | from in froms :: seq(|froms[from]|, k requires 0 <= k < |froms[from]| => CompileArm(from, froms[from][k], ev))
    else
      map[]
  }

  /** `prepare`. `order` is the iteration order of the defaults map. */
  function Prepare(m: Model.Machine, order: seq<string>): (p: Prepared)
    requires Model.Enumerates(order, m.states.defaults.Keys)
    ensures p.name == m.name && p.stateInitial == m.states.initial && p.stateDefinitions == m.states.definition
    ensures |p.stateIdents| == |p.stateDefaults| == |p.stateNames| == |m.states.defaults|
    ensures forall i :: 0 <= i < |p.stateIdents| ==>
      p.stateIdents[i] in m.states.defaults && p.stateDefaults[i] == m.states.defaults[p.stateIdents[i]]
      && p.stateNames[i] == AsName(p.stateIdents[i])
    ensures forall s :: s in m.states.defaults <==> s in p.stateIdents
    ensures |p.handlerNames| == |p.handlerParams| == |p.handlerBodies| == |m.handlers|
    ensures forall i :: 0 <= i < |m.handlers| ==>
      p.handlerNames[i] == HandlerName(m.handlers[i].name)
      && p.handlerParams[i] == m.handlers[i].params && p.handlerBodies[i] == m.handlers[i].body
    ensures |p.eventNames| == |p.eventParams| == |p.eventBodies| == |m.events|
    ensures forall i :: 0 <= i < |m.events| ==>
      p.eventNames[i] == m.events[i].name && p.eventParams[i] == m.events[i].params
      && p.eventBodies[i] == EventBody(m.events[i], m.transitions)
  {
    var ds := m.states.defaults;
    Model.EnumeratesCount(order, ds.Keys);
    var hs := m.handlers;
    var es := m.events;
    Prepared(
      m.name,
      order, seq(|order|, i requires 0 <= i < |order| => ds[order[i]]), m.states.initial,
      m.states.definition, seq(|order|, i requires 0 <= i < |order| => AsName(order[i])),
      seq(|hs|, i requires 0 <= i < |hs| => HandlerName(hs[i].name)),
      seq(|hs|, i requires 0 <= i < |hs| => hs[i].params),
      seq(|hs|, i requires 0 <= i < |hs| => hs[i].body),
      Model.EventNames(es),
      seq(|es|, i requires 0 <= i < |es| => es[i].params),
      seq(|es|, i requires 0 <= i < |es| => EventBody(es[i], m.transitions)))
  }

  /** The map rebuilt from a key vector and a value vector. */
  function Rebuild<V>(keys: seq<string>, values: seq<V>): (r: map<string, V>)
    requires |keys| == |values|
    ensures r.Keys == set k | k in keys
  {
    if keys == [] then map[] else Rebuild(keys[..|keys| - 1], values[..|values| - 1])[keys[|keys| - 1] := values[|values| - 1]]
  }

  lemma RebuildLookup<V>(keys: seq<string>, values: seq<V>, i: nat)
    requires |keys| == |values| && i < |keys|
    requires forall a, b :: 0 <= a < b < |keys| ==> keys[a] != keys[b]
    ensures Rebuild(keys, values)[keys[i]] == values[i]
  {
    if i < |keys| - 1 {
      RebuildLookup(keys[..|keys| - 1], values[..|values| - 1], i);
    }
  }

  /** The state vectors stay paired: zipping identifiers with defaults gives back the
      defaults map. */
  lemma StateVectorsPaired(m: Model.Machine, order: seq<string>)
    requires Model.Enumerates(order, m.states.defaults.Keys)
    ensures Rebuild(Prepare(m, order).stateIdents, Prepare(m, order).stateDefaults) == m.states.defaults
  {
    var p := Prepare(m, order);
    RebuildListing(p.stateIdents, p.stateDefaults, m.states.defaults);
  }

  /** Zipping a listing of a map's keys with the values at those keys rebuilds the map. */
  lemma RebuildListing<V>(keys: seq<string>, values: seq<V>, d: map<string, V>)
    requires Model.Enumerates(keys, d.Keys)
    requires |values| == |keys|
    requires forall i :: 0 <= i < |keys| ==> values[i] == d[keys[i]]
    ensures Rebuild(keys, values) == d
  {
    var r := Rebuild(keys, values);
    assert r.Keys == d.Keys;
    forall s | s in d
      ensures r[s] == d[s]
    {
      var i :| 0 <= i < |keys| && keys[i] == s;
      RebuildLookup(keys, values, i);
    }
  }

  /** A transition naming handler `h` calls a generated handler method exactly when `h`
      is a declared handler. */
  lemma CallTargetDeclared(m: Model.Machine, order: seq<string>, h: string)
    requires Model.Enumerates(order, m.states.defaults.Keys)
    ensures HandlerName(h) in Prepare(m, order).handlerNames <==> exists i :: 0 <= i < |m.handlers| && m.handlers[i].name == h
  {
    var p := Prepare(m, order);
    if HandlerName(h) in p.handlerNames {
      var i :| 0 <= i < |p.handlerNames| && p.handlerNames[i] == HandlerName(h);
      HandlerNameInjective(m.handlers[i].name, h);
    }
  }

  /** The slots the arm reads and hands to its handler exist among `names`. */
  predicate SlotsFit(arm: Arm, names: set<string>)
  {
    arm.fromName in names
    && (arm.call.Some? ==>
          arm.call.value.newSlot in names
          && (arm.call.value.oldSlot.Some? ==> arm.call.value.oldSlot.value in names))
  }

  /** The arm's slots exist among `names` and its destination among `idents`. */
  predicate Fits(arm: Arm, names: set<string>, idents: set<string>)
  {
    SlotsFit(arm, names) && arm.toIdent in idents
  }

  /** Every arm of the body fits the machine's slots and identifiers. */
  ghost predicate BodyFits(body: Body, names: set<string>, idents: set<string>)
  {
    forall from, k :: from in body && 0 <= k < |body[from]| ==> Fits(body[from][k], names, idents)
  }

  /** Every from-state and destination the table mentions is a declared state. */
  ghost predicate TableClosed(m: Model.Machine)
  {
    forall e, from :: e in m.transitions && from in m.transitions[e] ==>
      from in m.states.defaults
      && forall k :: 0 <= k < |m.transitions[e][from]| ==> m.transitions[e][from][k].toIdent in m.states.defaults
  }

  /** If the table only mentions declared states, every compiled arm fits the fields and
      identifiers the generated machine declares. */
  lemma ClosedTableFits(m: Model.Machine, order: seq<string>, e: nat)
    requires Model.Enumerates(order, m.states.defaults.Keys)
    requires TableClosed(m) && e < |m.events|
    ensures BodyFits(Prepare(m, order).eventBodies[e], set s | s in Prepare(m, order).stateNames,
                     set s | s in Prepare(m, order).stateIdents)
  {
    var p := Prepare(m, order);
    var body := p.eventBodies[e];
    forall from, k | from in body && 0 <= k < |body[from]|
      ensures Fits(body[from][k], set s | s in p.stateNames, set s | s in p.stateIdents)
    {
      ArmFits(m, order, e, from, k);
    }
  }

  lemma ArmFits(m: Model.Machine, order: seq<string>, e: nat, from: string, k: nat)
    requires Model.Enumerates(order, m.states.defaults.Keys)
    requires TableClosed(m) && e < |m.events|
    requires from in Prepare(m, order).eventBodies[e] && k < |Prepare(m, order).eventBodies[e][from]|
    ensures Fits(Prepare(m, order).eventBodies[e][from][k], set s | s in Prepare(m, order).stateNames,
                 set s | s in Prepare(m, order).stateIdents)
  {
    var p := Prepare(m, order);
    var ev := m.events[e];
    assert p.eventBodies[e] == EventBody(ev, m.transitions);
    assert ev.name in m.transitions && from in m.transitions[ev.name];
    var t := m.transitions[ev.name][from][k];
    assert from in m.states.defaults && t.toIdent in m.states.defaults;
    assert from in order && t.toIdent in order;
    var i :| 0 <= i < |order| && order[i] == from;
    var j :| 0 <= j < |order| && order[j] == t.toIdent;
    assert p.stateNames[i] == AsName(from);
    assert p.stateNames[j] == AsName(t.toIdent);
  }
}
