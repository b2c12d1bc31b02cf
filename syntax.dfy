/** The newer top-level parser of `src/syntax.rs`: a loop over `machine <name> { ... }`
    definitions that fills one machine record, block by block.

    Its `states` and `transitions` sub-parsers are the placeholder versions of
    `src/states.rs` and `src/transitions.rs`: each consumes one token and returns a fixed
    table. Its event sub-parser is not part of this model and is taken as a parameter;
    the only thing required of it is that it never moves the cursor backwards or past
    the end of its stream. */
module Syntax {
  import opened Wrappers
  import opened Tokens
  import Model

  /** A transition of the table this parser fills: from-state and to-state. */
  datatype Edge = Edge(from: string, to: string)

  /** Transitions keyed by event. */
  type EdgeTable = map<string, seq<Edge>>

  /** The record `parse_syntax` fills. */
  datatype Machine = Machine(name: string, events: seq<Model.Event>, transitions: EdgeTable, states: Model.States)

  /** `Machine::default()` of `src/syntax.rs`. */
  function DefaultMachine(): (m: Machine)
    ensures m.name == "__invalid__" && m.events == [] && m.transitions == map[]
    ensures m.states == Model.DefaultStates()
  {
    Machine("__invalid__", [], map[], Model.DefaultStates())
  }

  // ---------------------------------------------------------------------------
  // Sub-parsers
  // ---------------------------------------------------------------------------

  /** What an event sub-parser reports: an event and the position after it, a syntax
      error, or `NoFurtherTokens`, the error `parse_syntax` takes for the end of its input. */
  datatype Step = Got(event: Model.Event, rest: nat) | Fail(error: Error) | NoFurtherTokens

  /** An event sub-parser: given the cursor and the span of the `event` keyword, what it
      read. */
  type EventParser = (Stream, nat, Span) -> Step

  /** The event sub-parser never moves the cursor backwards or past the end. */
  ghost predicate Advances(parse: EventParser)
  {
    forall s: Stream, i: nat, sp: Span ::
      i <= |s.tokens| && parse(s, i, sp).Got? ==> i <= parse(s, i, sp).rest <= |s.tokens|
  }

  /** The event sub-parser never reports `NoFurtherTokens`. */
  ghost predicate Completes(parse: EventParser)
  {
    forall s: Stream, i: nat, sp: Span :: !parse(s, i, sp).NoFurtherTokens?
  }

  /** The code of `State::<name>()`. */
  function UnitDefault(name: string): Model.Code
  {
    [Ident("State"), Punct(':'), Punct(':'), Ident(name), Group(Parenthesis, [])]
  }

  /** The fixed table `states::parse_states` returns: `Stopped()`, `Running(String)` and
      `Paused()`, starting in `Stopped`. */
  const StubStates := Model.States(
    "Stopped",
    [Ident("Stopped"), Group(Parenthesis, []), Punct(','),
     Ident("Running"), Group(Parenthesis, [Ident("String")]), Punct(','),
     Ident("Paused"), Group(Parenthesis, []), Punct(',')],
    map[
      "Stopped" := UnitDefault("Stopped"),
      "Running" := [Ident("State"), Punct(':'), Punct(':'), Ident("Running"),
                    Group(Parenthesis,
                          [Punct('<'), Ident("String"), Ident("as"), Ident("core"), Punct(':'), Punct(':'),
                           Ident("default"), Punct(':'), Punct(':'), Ident("Default"), Punct('>'),
                           Punct(':'), Punct(':'), Ident("default"), Group(Parenthesis, [])])],
      "Paused" := UnitDefault("Paused")])

  /** The fixed table `transitions::parse_transitions` returns. */
  const StubTransitions: EdgeTable := map[
    "run" := [Edge("Stopped", "Running"), Edge("Paused", "Running")],
    "pause" := [Edge("Running", "Paused")],
    "stop" := [Edge("Running", "Stopped"), Edge("Paused", "Stopped")]]

  /** `states::parse_states`: consumes one token and returns the fixed table. */
  function ParseStates(s: Stream, i: nat): (r: Parsed<Model.States>)
    requires i <= |s.tokens|
    ensures r.value == StubStates && r.rest == Next(s, i)
  {
    Parsed(StubStates, Next(s, i))
  }

  /** `transitions::parse_transitions`: consumes one token and returns the fixed table. */
  function ParseTransitions(s: Stream, i: nat): (r: Parsed<EdgeTable>)
    requires i <= |s.tokens|
    ensures r.value == StubTransitions && r.rest == Next(s, i)
  {
    Parsed(StubTransitions, Next(s, i))
  }

  // ---------------------------------------------------------------------------
  // The header and the block loop
  // ---------------------------------------------------------------------------

  /** The header `machine <name> { ... }` at position `i`: the name and the stream inside
      the braces, or the error for the first token that deviates. */
  function Header(top: Stream, i: nat): (r: Result<(string, Stream)>)
    requires i < |top.tokens|
    ensures r.Ok? <==> i + 3 <= |top.tokens| && top.tokens[i] == Ident("machine")
                       && top.tokens[i + 1].Ident?
                       && top.tokens[i + 2].Group? && top.tokens[i + 2].delim == Brace
    ensures r.Ok? ==> r.value == (top.tokens[i + 1].name, Inner(top, i + 2))
  {
    var t := top.tokens[i];
    if !t.Ident? then Err(Error("unexpected token, expected 'machine'", SpanAt(top, i)))
    else if t.name != "machine" then Err(Error("invalid identifier, expected 'machine'", SpanAt(top, i)))
    else if i + 1 == |top.tokens| then Err(Error("missing machine name", SpanAt(top, i)))
    else if !top.tokens[i + 1].Ident? then Err(Error("invalid machine name", SpanAt(top, i + 1)))
    else if i + 2 == |top.tokens| then Err(Error("missing machine definition", SpanAt(top, i + 1)))
    else if !top.tokens[i + 2].Group? then Err(Error("expected state machine definition", SpanAt(top, i + 2)))
    else if top.tokens[i + 2].delim != Brace then Err(Error("expected braces '{ ... }'", SpanAt(top, i + 2)))
    else Ok((top.tokens[i + 1].name, Inner(top, i + 2)))
  }

  /** Position `k` of the header (0: keyword, 1: name, 2: definition) holds `t` of the
      expected kind. */
  predicate HeaderAccepts(k: nat, t: Token)
  {
    match k
    case 0 => t == Ident("machine")
    case 1 => t.Ident?
    case _ => t.Group? && t.delim == Brace
  }

  /** The message for header position `k`: when its token is missing, or when it is the
      wrong token `t`. */
  function HeaderMessage(k: nat, t: Option<Token>): string
  {
    match k
    case 0 =>
      if t.Some? && t.value.Ident? then "invalid identifier, expected 'machine'"
      else "unexpected token, expected 'machine'"
    case 1 =>
      if t.None? then "missing machine name" else "invalid machine name"
    case _ =>
      if t.None? then "missing machine definition"
      else if t.value.Group? then "expected braces '{ ... }'"
      else "expected state machine definition"
  }

  /** The first `k` header positions from `i` on hold tokens of the expected kind. */
  predicate HeaderPrefix(g: seq<Token>, i: nat, k: nat)
  {
    i + k <= |g|
    && (k > 0 ==> HeaderAccepts(0, g[i]))
    && (k > 1 ==> HeaderAccepts(1, g[i + 1]))
    && (k > 2 ==> HeaderAccepts(2, g[i + 2]))
  }

  /** The first header position whose token is missing or of the wrong kind decides the
      error: a wrong token is reported at itself, a missing one at the token before it. */
  lemma HeaderFirstDeviation(top: Stream, i: nat, k: nat)
    requires i < |top.tokens| && k < 3 && HeaderPrefix(top.tokens, i, k)
    requires i + k < |top.tokens| ==> !HeaderAccepts(k, top.tokens[i + k])
    ensures Header(top, i)
         == Err(Error(HeaderMessage(k, if i + k < |top.tokens| then Some(top.tokens[i + k]) else None),
                      if i + k < |top.tokens| then SpanAt(top, i + k) else SpanAt(top, i + k - 1)))
  {
  }

  /** Where the blocks of a definition stopped: the machine filled so far, and whether
      the event sub-parser ran out of tokens, which ends the whole input. */
  datatype Reached = Reached(machine: Machine, exhausted: bool)

  /** The blocks of one definition from position `j` on, applied to `acc`. */
  function Blocks(parse: EventParser, g: Stream, j: nat, acc: Machine): Result<Reached>
    requires Advances(parse) && j <= |g.tokens|
    decreases |g.tokens| - j
  {
    if j == |g.tokens| then Ok(Reached(acc, false))
    else
      var sp := SpanAt(g, j);
      match g.tokens[j]
      case Ident(kw) =>
        if kw == "event" then
          match parse(g, j + 1, sp)
          case Fail(e) => Err(e)
          case NoFurtherTokens => Ok(Reached(acc, true))
          case Got(ev, rest) => Blocks(parse, g, rest, acc.(events := acc.events + [ev]))
        else if kw == "states" then
          var p := ParseStates(g, j + 1);
          Blocks(parse, g, p.rest, acc.(states := p.value))
        else if kw == "transitions" then
          var p := ParseTransitions(g, j + 1);
          Blocks(parse, g, p.rest, acc.(transitions := p.value))
        else Err(Error("expected 'event', 'states', or 'transitions' keyword", sp))
      case _ => Err(Error("expected definition of machine", sp))
  }

  /** The machine definitions from position `i` on, applied to `acc`; running out of
      tokens where a new definition could start, or inside an event block, ends the
      input normally with the machine filled so far. */
  function Definitions(parse: EventParser, top: Stream, i: nat, acc: Machine): Result<Machine>
    requires Advances(parse) && i <= |top.tokens|
    decreases |top.tokens| - i
  {
    if i == |top.tokens| then Ok(acc)
    else
      match Header(top, i)
      case Err(e) => Err(e)
      case Ok((name, body)) =>
        match Blocks(parse, body, 0, acc.(name := name))
        case Err(e) => Err(e)
        case Ok(Reached(next, true)) => Ok(next)
        case Ok(Reached(next, false)) => Definitions(parse, top, i + 3, next)
  }

  /** `parse_syntax`: reads every definition of the input into one machine record
      starting from the default, or returns the first syntax error and no machine. */
  method ParseSyntax(parse: EventParser, input: seq<Token>) returns (r: Result<Machine>)
    requires Advances(parse)
    ensures r == Definitions(parse, Stream(input, []), 0, DefaultMachine())
  {
    var top := Stream(input, []);
    var machine := DefaultMachine();
    var i := 0;
    while true
      invariant i <= |input|
      invariant Definitions(parse, top, i, machine) == Definitions(parse, top, 0, DefaultMachine())
      decreases |input| - i
    {
      if i == |input| {
        return Ok(machine);
      }
      var header := Header(top, i);
      if header.Err? {
        return Err(header.error);
      }
      machine := machine.(name := header.value.0);
      var g := header.value.1;
      ghost var start := machine;
      var j := 0;
      while j < |g.tokens|
        invariant j <= |g.tokens|
        invariant Blocks(parse, g, j, machine) == Blocks(parse, g, 0, start)
        decreases |g.tokens| - j
      {
        var sp := SpanAt(g, j);
        var next := g.tokens[j];
        if !next.Ident? {
          return Err(Error("expected definition of machine", sp));
        }
        if next.name == "event" {
          var e := parse(g, j + 1, sp);
          if e.Fail? {
            return Err(e.error);
          } else if e.NoFurtherTokens? {
            return Ok(machine);
          }
          machine := machine.(events := machine.events + [e.event]);
          j := e.rest;
        } else if next.name == "states" {
          var p := ParseStates(g, j + 1);
          machine := machine.(states := p.value);
          j := p.rest;
        } else if next.name == "transitions" {
          var p := ParseTransitions(g, j + 1);
          machine := machine.(transitions := p.value);
          j := p.rest;
        } else {
          return Err(Error("expected 'event', 'states', or 'transitions' keyword", sp));
        }
      }
      i := i + 3;
    }
  }

  // ---------------------------------------------------------------------------
  // Properties of the loop
  // ---------------------------------------------------------------------------

  /** An empty token stream yields the default machine. */
  lemma EmptyInputIsDefault(parse: EventParser)
    requires Advances(parse)
    ensures Definitions(parse, Stream([], []), 0, DefaultMachine()) == Ok(DefaultMachine())
  {
  }

  /** Blocks only append events, and `states` and `transitions` are either left alone
      or replaced by what the last such block returned; the name is never changed. */
  lemma {:induction false} BlocksEffect(parse: EventParser, g: Stream, j: nat, acc: Machine)
    requires Advances(parse) && j <= |g.tokens|
    ensures var r := Blocks(parse, g, j, acc);
      r.Ok? ==> acc.events <= r.value.machine.events
                && r.value.machine.name == acc.name
                && (r.value.machine.states == acc.states || r.value.machine.states == StubStates)
                && (r.value.machine.transitions == acc.transitions || r.value.machine.transitions == StubTransitions)
    decreases |g.tokens| - j
  {
    if j < |g.tokens| && g.tokens[j].Ident? {
      var kw := g.tokens[j].name;
      if kw == "event" {
        var p := parse(g, j + 1, SpanAt(g, j));
        if p.Got? {
          BlocksEffect(parse, g, p.rest, acc.(events := acc.events + [p.event]));
        }
      } else if kw == "states" {
        var p := ParseStates(g, j + 1);
        BlocksEffect(parse, g, p.rest, acc.(states := p.value));
      } else if kw == "transitions" {
        var p := ParseTransitions(g, j + 1);
        BlocksEffect(parse, g, p.rest, acc.(transitions := p.value));
      }
    }
  }

  /** Once a `states` block is read, the record holds the table a `states` block returns,
      whatever was read before it and whatever blocks follow. */
  lemma StatesBlockWins(parse: EventParser, g: Stream, j: nat, acc: Machine)
    requires Advances(parse) && j < |g.tokens| && g.tokens[j] == Ident("states")
    ensures var r := Blocks(parse, g, j, acc);
      r.Ok? ==> r.value.machine.states == StubStates
  {
    var p := ParseStates(g, j + 1);
    BlocksEffect(parse, g, p.rest, acc.(states := p.value));
  }

  /** Once a `transitions` block is read, the record holds the table a `transitions`
      block returns, whatever was read before it and whatever blocks follow. */
  lemma TransitionsBlockWins(parse: EventParser, g: Stream, j: nat, acc: Machine)
    requires Advances(parse) && j < |g.tokens| && g.tokens[j] == Ident("transitions")
    ensures var r := Blocks(parse, g, j, acc);
      r.Ok? ==> r.value.machine.transitions == StubTransitions
  {
    var p := ParseTransitions(g, j + 1);
    BlocksEffect(parse, g, p.rest, acc.(transitions := p.value));
  }

  /** An `event` block appends exactly the event its sub-parser read: whatever blocks
      follow, that event sits right after the events collected before it. */
  lemma EventBlockAppends(parse: EventParser, g: Stream, j: nat, acc: Machine)
    requires Advances(parse) && j < |g.tokens| && g.tokens[j] == Ident("event")
    requires parse(g, j + 1, SpanAt(g, j)).Got? && Blocks(parse, g, j, acc).Ok?
    ensures var r := Blocks(parse, g, j, acc).value.machine;
      |acc.events| < |r.events| && r.events[|acc.events|] == parse(g, j + 1, SpanAt(g, j)).event
  {
    var p := parse(g, j + 1, SpanAt(g, j));
    var pushed := acc.(events := acc.events + [p.event]);
    assert Blocks(parse, g, j, acc) == Blocks(parse, g, p.rest, pushed);
    BlocksEffect(parse, g, p.rest, pushed);
    assert pushed.events[|acc.events|] == p.event;
  }

  /** Across several definitions, events accumulate (earlier ones are kept, in order) and
      the machine is named after a definition that was read. */
  lemma {:induction false} DefinitionsEffect(parse: EventParser, top: Stream, i: nat, acc: Machine)
    requires Advances(parse) && i <= |top.tokens|
    ensures var r := Definitions(parse, top, i, acc);
      r.Ok? ==> acc.events <= r.value.events
                && (r.value.name == acc.name
                    || exists k :: i <= k < |top.tokens| - 1 && top.tokens[k] == Ident("machine")
                                   && top.tokens[k + 1] == Ident(r.value.name))
    decreases |top.tokens| - i
  {
    if i < |top.tokens| {
      var h := Header(top, i);
      if h.Ok? {
        var start := acc.(name := h.value.0);
        BlocksEffect(parse, h.value.1, 0, start);
        var b := Blocks(parse, h.value.1, 0, start);
        if b.Ok? {
          if b.value.exhausted {
            assert top.tokens[i] == Ident("machine") && top.tokens[i + 1] == Ident(b.value.machine.name);
          } else {
            DefinitionsEffect(parse, top, i + 3, b.value.machine);
            var r := Definitions(parse, top, i + 3, b.value.machine);
            if r.Ok? && r.value.name == b.value.machine.name {
              assert top.tokens[i] == Ident("machine") && top.tokens[i + 1] == Ident(r.value.name);
            }
          }
        }
      }
    }
  }

  /** Every definition writes its name into the same record, so when the event
      sub-parser never runs out of tokens the last definition of the input names the
      machine. */
  lemma {:induction false} LastDefinitionNames(parse: EventParser, top: Stream, i: nat, acc: Machine)
    requires Advances(parse) && Completes(parse) && i < |top.tokens|
    ensures var r := Definitions(parse, top, i, acc);
      r.Ok? ==> 2 <= |top.tokens| && top.tokens[|top.tokens| - 2].Ident?
                && r.value.name == top.tokens[|top.tokens| - 2].name
    decreases |top.tokens| - i
  {
    var h := Header(top, i);
    if h.Ok? {
      var start := acc.(name := h.value.0);
      BlocksEffect(parse, h.value.1, 0, start);
      var b := Blocks(parse, h.value.1, 0, start);
      if b.Ok? {
        NeverExhausted(parse, h.value.1, 0, start);
        if i + 3 < |top.tokens| {
          LastDefinitionNames(parse, top, i + 3, b.value.machine);
        }
      }
    }
  }

  /** A sub-parser that never reports `NoFurtherTokens` never ends a definition early. */
  lemma {:induction false} NeverExhausted(parse: EventParser, g: Stream, j: nat, acc: Machine)
    requires Advances(parse) && Completes(parse) && j <= |g.tokens|
    ensures Blocks(parse, g, j, acc).Ok? ==> !Blocks(parse, g, j, acc).value.exhausted
    decreases |g.tokens| - j
  {
    if j < |g.tokens| && g.tokens[j].Ident? {
      var kw := g.tokens[j].name;
      if kw == "event" {
        var p := parse(g, j + 1, SpanAt(g, j));
        assert !p.NoFurtherTokens?;
        if p.Got? {
          NeverExhausted(parse, g, p.rest, acc.(events := acc.events + [p.event]));
        }
      } else if kw == "states" {
        var p := ParseStates(g, j + 1);
        NeverExhausted(parse, g, p.rest, acc.(states := p.value));
      } else if kw == "transitions" {
        var p := ParseTransitions(g, j + 1);
        NeverExhausted(parse, g, p.rest, acc.(transitions := p.value));
      }
    }
  }

  /** When the event sub-parser runs out of tokens inside a definition, the input ends
      there: the machine filled so far, named after that definition, is the result, and
      whatever follows is not read. */
  lemma ExhaustionEndsInput(parse: EventParser, top: Stream, i: nat, acc: Machine)
    requires Advances(parse) && i < |top.tokens| && Header(top, i).Ok?
    requires var b := Blocks(parse, Header(top, i).value.1, 0, acc.(name := Header(top, i).value.0));
      b.Ok? && b.value.exhausted
    ensures var b := Blocks(parse, Header(top, i).value.1, 0, acc.(name := Header(top, i).value.0));
      Definitions(parse, top, i, acc) == Ok(b.value.machine)
      && b.value.machine.name == top.tokens[i + 1].name
      && acc.events <= b.value.machine.events
  {
    BlocksEffect(parse, Header(top, i).value.1, 0, acc.(name := Header(top, i).value.0));
  }

  /** An unknown identifier at block position aborts with its own message, and a token
      that is not an identifier with another; no machine is returned. */
  lemma UnknownBlockRejected(parse: EventParser, g: Stream, j: nat, acc: Machine)
    requires Advances(parse) && j < |g.tokens|
    requires g.tokens[j] !in {Ident("event"), Ident("states"), Ident("transitions")}
    ensures Blocks(parse, g, j, acc)
         == Err(Error(if g.tokens[j].Ident? then "expected 'event', 'states', or 'transitions' keyword"
                      else "expected definition of machine", SpanAt(g, j)))
  {
  }

  /** An event sub-parser that reads a single identifier as the event name, and reports
      `NoFurtherTokens` at the end of its group. It stands in for the missing one in the
      examples below. */
  function NameOnly(s: Stream, i: nat, sp: Span): Step
  {
    if i >= |s.tokens| then NoFurtherTokens
    else if s.tokens[i].Ident? then Got(Model.Event(s.tokens[i].name, []), i + 1)
    else Fail(Error("expected event name", sp))
  }

  /** With two definitions in one stream, the second name wins and the events of both
      are kept, in order. */
  lemma TwoDefinitions()
    ensures Advances(NameOnly)
    ensures Definitions(NameOnly,
                        Stream([Ident("machine"), Ident("a"), Group(Brace, [Ident("event"), Ident("run")]),
                                Ident("machine"), Ident("b"), Group(Brace, [Ident("event"), Ident("stop")])], []),
                        0, DefaultMachine())
         == Ok(DefaultMachine().(name := "b", events := [Model.Event("run", []), Model.Event("stop", [])]))
  {
    var top := Stream([Ident("machine"), Ident("a"), Group(Brace, [Ident("event"), Ident("run")]),
                       Ident("machine"), Ident("b"), Group(Brace, [Ident("event"), Ident("stop")])], []);
    var m1 := DefaultMachine().(name := "a", events := [Model.Event("run", [])]);
    assert NameOnly(Inner(top, 2), 1, [2, 0]) == Got(Model.Event("run", []), 2);
    assert Blocks(NameOnly, Inner(top, 2), 2, m1) == Ok(Reached(m1, false));
    var g1 := Inner(top, 2);
    assert g1.tokens[0] == Ident("event");
    assert DefaultMachine().(name := "a").events + [Model.Event("run", [])] == m1.events;
    assert Blocks(NameOnly, g1, 0, DefaultMachine().(name := "a")) == Blocks(NameOnly, g1, 2, m1);
    var m2 := m1.(name := "b", events := [Model.Event("run", []), Model.Event("stop", [])]);
    assert NameOnly(Inner(top, 5), 1, [5, 0]) == Got(Model.Event("stop", []), 2);
    assert Blocks(NameOnly, Inner(top, 5), 2, m2) == Ok(Reached(m2, false));
    var g2 := Inner(top, 5);
    assert g2.tokens[0] == Ident("event");
    assert m1.(name := "b").events + [Model.Event("stop", [])] == m2.events;
    assert Blocks(NameOnly, g2, 0, m1.(name := "b")) == Blocks(NameOnly, g2, 2, m2);
  }

  /** An `event` keyword at the end of the first definition makes the sub-parser run out
      of tokens: the input ends there, with the first definition's name and without the
      second definition's events. */
  lemma ExhaustedFirstDefinition()
    ensures Advances(NameOnly)
    ensures Definitions(NameOnly,
                        Stream([Ident("machine"), Ident("a"), Group(Brace, [Ident("event")]),
                                Ident("machine"), Ident("b"), Group(Brace, [Ident("event"), Ident("stop")])], []),
                        0, DefaultMachine())
         == Ok(DefaultMachine().(name := "a"))
  {
    var top := Stream([Ident("machine"), Ident("a"), Group(Brace, [Ident("event")]),
                       Ident("machine"), Ident("b"), Group(Brace, [Ident("event"), Ident("stop")])], []);
    var g1 := Inner(top, 2);
    assert g1.tokens[0] == Ident("event");
    assert NameOnly(g1, 1, [2, 0]) == NoFurtherTokens;
    assert Blocks(NameOnly, g1, 0, DefaultMachine().(name := "a")) == Ok(Reached(DefaultMachine().(name := "a"), true));
  }
}
