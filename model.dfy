/** The machine description that the parser fills and the generator consumes
    (`src/machine.rs`), with the records it is built from. User code (types, default
    expressions, patterns, guards, handler bodies) is kept as unparsed token streams. */
module Model {
  import opened Wrappers
  import opened Tokens

  /** Opaque user code, passed through unparsed. */
  type Code = seq<Token>

  /** The `states` table: the initial state, the variant definitions, and for every
      state identifier the expression that builds its default value. */
  datatype States = States(initial: string, definition: Code, defaults: map<string, Code>)

  /** A parameter of an event or handler signature: a captured `pattern: Type`, or any
      other form (`self`, `&self`, `&mut self`, an inferred or ignored argument), which
      the generator does not read a pattern from. */
  datatype Param = Captured(pat: string, ty: Code) | Uncaptured

  /** A declared event: the runtime call signature that triggers it. */
  datatype Event = Event(name: string, params: seq<Param>)

  /** A declared handler: its name, parameters and body. */
  datatype Handler = Handler(name: string, params: seq<Param>, body: Code)

  /** A state pattern `Name{ .. }`, `Name(..)` or `Name`: the state it names and the
      destructuring part after the name. */
  datatype Pattern = Pattern(ident: string, shape: Code)

  /** One transition: the pattern its from-state must match, the destination, the names
      the event's parameters are bound to, an optional guard (`predicate`) and an optional handler. */
  datatype Transition = Transition(
    fromPat: Pattern, toIdent: string, eventParams: seq<string>,
    guard: Option<Code>, handler: Option<string>)

  /** Transitions keyed by event, then by from-state; the innermost order is the order in
      which dispatch tries them. */
  type TransitionTable = map<string, map<string, seq<Transition>>>

  /** The machine description. */
  datatype Machine = Machine(
    name: string, events: seq<Event>, handlers: seq<Handler>,
    transitions: TransitionTable, states: States)

  /** `States::default()`. */
  function DefaultStates(): (s: States)
    ensures s.initial == "__invalid__" && s.definition == [] && s.defaults == map[]
  {
    States("__invalid__", [], map[])
  }

  /** `Machine::default()`. */
  function DefaultMachine(): (m: Machine)
    ensures m.name == "__invalid__"
    ensures m.events == [] && m.handlers == [] && m.transitions == map[]
    ensures m.states == DefaultStates()
  {
    Machine("__invalid__", [], [], map[], DefaultStates())
  }

  /** The declared event names, in declaration order. */
  function EventNames(events: seq<Event>): (names: seq<string>)
    ensures |names| == |events|
    ensures forall k :: 0 <= k < |events| ==> names[k] == events[k].name
  {
    seq(|events|, k requires 0 <= k < |events| => events[k].name)
  }

  /** The transitions that dispatch of `event` tries when the machine is in `from`. */
  function TransitionsFrom(t: TransitionTable, event: string, from: string): (ts: seq<Transition>)
    ensures event in t && from in t[event] ==> ts == t[event][from]
    ensures !(event in t && from in t[event]) ==> ts == []
  {
    if event in t && from in t[event] then t[event][from] else []
  }

  /** `keys` lists the keys of a hash map once each, in the map's iteration order. */
  ghost predicate Enumerates(keys: seq<string>, domain: set<string>)
  {
    (forall i, j :: 0 <= i < j < |keys| ==> keys[i] != keys[j])
    && (forall k :: k in keys <==> k in domain)
  }

  /** A list without repetitions has as many elements as the set of its elements. */
  lemma {:induction false} DistinctCount(keys: seq<string>)
    requires forall i, j :: 0 <= i < j < |keys| ==> keys[i] != keys[j]
    ensures |set k | k in keys| == |keys|
  {
    if keys != [] {
      var last := keys[|keys| - 1];
      var init := keys[..|keys| - 1];
      DistinctCount(init);
      assert (set k | k in keys) == (set k | k in init) + {last};
      assert last !in init;
    }
  }

  /** A key listing is as long as the map has keys. */
  lemma EnumeratesCount(keys: seq<string>, domain: set<string>)
    requires Enumerates(keys, domain)
    ensures |keys| == |domain|
  {
    DistinctCount(keys);
    assert (set k | k in keys) == domain;
  }
}
