/** The older, complete hand-written parser of `src/lib.rs`: the `machine <name> { ... }`
    header, the loop over the blocks of a definition, and the sub-grammar
    `event name(old: &mut State, new: &mut State) { body }`.

    Every parser reads its input through a cursor (a stream and a position) that
    `next()` moves one token on, whether or not the token is the one expected. */
module Legacy {
  import opened Wrappers
  import opened Tokens

  // ---------------------------------------------------------------------------
  // parse_event_param: `name : & mut State`
  // ---------------------------------------------------------------------------

  /** Whether `t` is acceptable as the `k`-th of the five tokens of `name: &mut State`. */
  predicate ParamAccepts(k: nat, t: Token)
  {
    match k
    case 0 => t.Ident?
    case 1 => t == Punct(':')
    case 2 => t == Punct('&')
    case 3 => t == Ident("mut")
    case 4 => t == Ident("State")
    case _ => false
  }

  /** The message reported when the `k`-th token of a parameter is wrong or missing. */
  function ParamMessage(k: nat): string
  {
    match k
    case 0 => "Expected identifier"
    case 1 => "Expected colon ':'"
    case 2 => "Expected mutable reference '&mut'"
    case 3 => "Expected &mut reference"
    case _ => "Expected 'State' type"
  }

  /** The first `k` tokens from `p` on are the first `k` tokens of a parameter. */
  predicate ParamPrefix(g: seq<Token>, p: nat, k: nat)
  {
    p + k <= |g|
    && (k > 0 ==> ParamAccepts(0, g[p]))
    && (k > 1 ==> ParamAccepts(1, g[p + 1]))
    && (k > 2 ==> ParamAccepts(2, g[p + 2]))
    && (k > 3 ==> ParamAccepts(3, g[p + 3]))
    && (k > 4 ==> ParamAccepts(4, g[p + 4]))
  }

  /** The five tokens from `p` on spell a parameter `name: &mut State`. */
  predicate ParamAt(g: seq<Token>, p: nat)
  {
    ParamPrefix(g, p, 5)
  }

  /** One `next()` that must yield `want`: the span of the token read, or `msg` at that
      token, or at `span` (the last token read before) when the stream has ended. */
  function Expect(s: Stream, i: nat, span: Span, want: Token, msg: string): (r: Result<Span>)
    requires i <= |s.tokens|
    ensures r.Ok? <==> i < |s.tokens| && s.tokens[i] == want
    ensures r.Ok? ==> r.value == SpanAt(s, i)
    ensures r.Err? ==> r.error == Error(msg, if i < |s.tokens| then SpanAt(s, i) else span)
  {
    if i == |s.tokens| then Err(Error(msg, span))
    else if s.tokens[i] == want then Ok(SpanAt(s, i))
    else Err(Error(msg, SpanAt(s, i)))
  }

  /** `parse_event_param`: reads `name: &mut State` and returns the name with the span of
      the `State` token. */
  function ParseEventParam(s: Stream, i: nat, span: Span): (r: Result<Parsed<(string, Span)>>)
    requires i <= |s.tokens|
    ensures r.Ok? <==> ParamAt(s.tokens, i)
    ensures r.Ok? ==> ParamAt(s.tokens, i) && r.value == Parsed((s.tokens[i].name, SpanAt(s, i + 4)), i + 5)
  {
    if i == |s.tokens| then Err(Error("Expected identifier", span))
    else if !s.tokens[i].Ident? then Err(Error("Expected identifier", SpanAt(s, i)))
    else
      var colon :- Expect(s, i + 1, SpanAt(s, i), Punct(':'), "Expected colon ':'");
      var amp :- Expect(s, i + 2, colon, Punct('&'), "Expected mutable reference '&mut'");
      var mutKw :- Expect(s, i + 3, amp, Ident("mut"), "Expected &mut reference");
      var ty :- Expect(s, i + 4, mutKw, Ident("State"), "Expected 'State' type");
      Ok(Parsed((s.tokens[i].name, ty), i + 5))
  }

  /** The first token that deviates from `name: &mut State` decides the error: its own
      message at its own span, or, when the stream ends before it, at the span of the
      last token read (the caller's span if none was read). */
  lemma ParamFirstDeviation(s: Stream, i: nat, span: Span, k: nat)
    requires k < 5 && ParamPrefix(s.tokens, i, k)
    requires i + k < |s.tokens| ==> !ParamAccepts(k, s.tokens[i + k])
    ensures ParseEventParam(s, i, span)
         == Err(Error(ParamMessage(k),
                      if i + k < |s.tokens| then SpanAt(s, i + k)
                      else if k == 0 then span
                      else SpanAt(s, i + k - 1)))
  {
  }

  // ---------------------------------------------------------------------------
  // is_comma
  // ---------------------------------------------------------------------------

  /** `is_comma` applied to the token `next()` yields at `i`: `None` when it is a `,`,
      otherwise the span to report, that of the token read or `span` at end of input. */
  function IsComma(s: Stream, i: nat, span: Span): (r: Option<Span>)
    requires i <= |s.tokens|
    ensures r.None? <==> i < |s.tokens| && s.tokens[i] == Punct(',')
    ensures r.Some? && i < |s.tokens| ==> r.value == SpanAt(s, i)
    ensures r.Some? && i == |s.tokens| ==> r.value == span
  {
    if i < |s.tokens| then
      if s.tokens[i] == Punct(',') then None else Some(SpanAt(s, i))
    else Some(span)
  }

  // ---------------------------------------------------------------------------
  // parse_event
  // ---------------------------------------------------------------------------

  /** A parsed `event` block: its name, the names of its two state parameters, and the
      contents of its body, passed on unparsed. */
  datatype EventDef = EventDef(name: string, oldState: string, newState: string, body: seq<Token>)

  /** The contents of a signature group that `parse_event` accepts: two parameters
      separated by a comma, then nothing, or a punctuation token after which the rest
      is ignored. */
  predicate SignatureShape(g: seq<Token>)
  {
    ParamAt(g, 0) && |g| > 5 && g[5] == Punct(',') && ParamAt(g, 6) && (|g| == 11 || g[11].Punct?)
  }

  /** The tokens from `i` on are `Name ( <signature> ) { ... }`. */
  predicate EventShape(s: seq<Token>, i: nat)
  {
    i + 3 <= |s| && s[i].Ident?
    && s[i + 1].Group? && s[i + 1].delim == Parenthesis && SignatureShape(s[i + 1].stream)
    && s[i + 2].Group? && s[i + 2].delim == Brace
  }

  /** `parse_event`: reads the event name, the signature group and the body group. */
  function ParseEvent(s: Stream, i: nat, span: Span): (r: Result<Parsed<EventDef>>)
    requires i <= |s.tokens|
    ensures r.Ok? <==> EventShape(s.tokens, i)
    ensures r.Ok? ==> r.value.rest == i + 3
    ensures r.Ok? ==> EventShape(s.tokens, i) && r.value.value
                      == EventDef(s.tokens[i].name, s.tokens[i + 1].stream[0].name,
                                  s.tokens[i + 1].stream[6].name, s.tokens[i + 2].stream)
  {
    if i == |s.tokens| then Err(Error("Expected event name", span))
    else if !s.tokens[i].Ident? then Err(Error("Expected event name", SpanAt(s, i)))
    else if i + 1 == |s.tokens| then Err(Error("Missing event signature", SpanAt(s, i)))
    else if !(s.tokens[i + 1].Group? && s.tokens[i + 1].delim == Parenthesis) then
      Err(Error("Expected event signature '(old: &mut State, new: &mut State)'", SpanAt(s, i + 1)))
    else
      var ps := Inner(s, i + 1);
      var first :- ParseEventParam(ps, 0, SpanAt(s, i + 1));
      match IsComma(ps, first.rest, first.value.1)
      case Some(sp) => Err(Error("Expected second parameter", sp))
      case None =>
        var second :- ParseEventParam(ps, first.rest + 1, first.value.1);
        // The body token is taken from the outer cursor before the rest of the
        // signature is looked at.
        var result: Result<Token> :=
          if i + 2 < |s.tokens| then Ok(s.tokens[i + 2])
          else Err(Error("Missing event body", second.value.1));
        var m := second.rest;
        if m < |ps.tokens| && !ps.tokens[m].Punct? then
          Err(Error("Only two arguments expected", SpanAt(ps, m)))
        else
          var body :- result;
          if body.Group? && body.delim == Brace then
            Ok(Parsed(EventDef(s.tokens[i].name, first.value.0, second.value.0, body.stream), i + 3))
          else Err(Error("Expected event body", SpanAt(s, i + 2)))
  }

  /** A signature that is not a parenthesised group is rejected at that token. */
  lemma SignatureRejected(s: Stream, i: nat, span: Span)
    requires i + 1 < |s.tokens| && s.tokens[i].Ident?
    requires !(s.tokens[i + 1].Group? && s.tokens[i + 1].delim == Parenthesis)
    ensures ParseEvent(s, i, span)
         == Err(Error("Expected event signature '(old: &mut State, new: &mut State)'", SpanAt(s, i + 1)))
  {
  }

  /** A second parameter without a comma before it is reported where the comma should be. */
  lemma MissingComma(s: Stream, i: nat, span: Span)
    requires i + 1 < |s.tokens| && s.tokens[i].Ident?
    requires s.tokens[i + 1].Group? && s.tokens[i + 1].delim == Parenthesis
    requires ParamAt(s.tokens[i + 1].stream, 0)
    requires |s.tokens[i + 1].stream| == 5 || s.tokens[i + 1].stream[5] != Punct(',')
    ensures ParseEvent(s, i, span)
         == Err(Error("Expected second parameter",
                      if |s.tokens[i + 1].stream| == 5 then SpanAt(Inner(s, i + 1), 4)
                      else SpanAt(Inner(s, i + 1), 5)))
  {
  }

  /** After two well-formed parameters, a token that is not punctuation is rejected with
      "Only two arguments expected", even when the event body is missing too. */
  lemma OnlyTwoArgumentsWins(s: Stream, i: nat, span: Span)
    requires i + 1 < |s.tokens| && s.tokens[i].Ident?
    requires s.tokens[i + 1].Group? && s.tokens[i + 1].delim == Parenthesis
    requires var g := s.tokens[i + 1].stream;
      ParamAt(g, 0) && |g| > 5 && g[5] == Punct(',') && ParamAt(g, 6) && |g| > 11 && !g[11].Punct?
    ensures ParseEvent(s, i, span) == Err(Error("Only two arguments expected", SpanAt(Inner(s, i + 1), 11)))
  {
  }

  /** Input that ends after a complete signature is reported at the `State` token of the
      second parameter, the last token read. */
  lemma MissingBody(s: Stream, i: nat, span: Span)
    requires i + 2 == |s.tokens| && s.tokens[i].Ident?
    requires s.tokens[i + 1].Group? && s.tokens[i + 1].delim == Parenthesis
    requires SignatureShape(s.tokens[i + 1].stream)
    ensures ParseEvent(s, i, span) == Err(Error("Missing event body", SpanAt(Inner(s, i + 1), 10)))
  {
  }

  /** A body that is not a brace group is rejected at that token. */
  lemma BodyRejected(s: Stream, i: nat, span: Span)
    requires i + 2 < |s.tokens| && s.tokens[i].Ident?
    requires s.tokens[i + 1].Group? && s.tokens[i + 1].delim == Parenthesis
    requires SignatureShape(s.tokens[i + 1].stream)
    requires !(s.tokens[i + 2].Group? && s.tokens[i + 2].delim == Brace)
    ensures ParseEvent(s, i, span) == Err(Error("Expected event body", SpanAt(s, i + 2)))
  {
  }

  // ---------------------------------------------------------------------------
  // parse_states / parse_transitions: stubs that consume one token
  // ---------------------------------------------------------------------------

  /** What a `states` block yields: the initial state, the state names, their default
      expressions and the variant definitions (code kept as text). */
  datatype StatesBlock = StatesBlock(
    initial: Option<string>, names: seq<string>, defaults: seq<string>, definition: Option<string>)

  /** What a `transitions` block yields: three index-aligned vectors. */
  datatype TransitionsBlock = TransitionsBlock(from: seq<string>, event: seq<string>, to: seq<string>)

  const StubStates := StatesBlock(
    Some("stopped"),
    ["stopped", "running", "paused"],
    ["State::Stopped()", "State::Running(String::default())", "State::Paused()"],
    Some("Stopped(), Running(String), Paused(),"))

  const StubTransitions := TransitionsBlock(
    ["stopped", "paused", "running", "running", "paused"],
    ["transitions_run", "transitions_run", "transitions_pause", "transitions_stop", "transitions_stop"],
    ["running", "running", "paused", "stopped", "stopped"])

  /** `parse_states`: consumes one token and returns the fixed states table. */
  function ParseStates(s: Stream, i: nat): (r: Parsed<StatesBlock>)
    requires i <= |s.tokens|
    ensures r.value == StubStates && r.rest == Next(s, i)
  {
    Parsed(StubStates, Next(s, i))
  }

  /** `parse_transitions`: consumes one token and returns the fixed transition vectors. */
  function ParseTransitions(s: Stream, i: nat): (r: Parsed<TransitionsBlock>)
    requires i <= |s.tokens|
    ensures r.value == StubTransitions && r.rest == Next(s, i)
  {
    Parsed(StubTransitions, Next(s, i))
  }

  // ---------------------------------------------------------------------------
  // state_machine: the header and block loop
  // ---------------------------------------------------------------------------

  /** The local variables that `state_machine` fills while it reads the input. */
  datatype Collected = Collected(
    name: Option<string>,
    initial: Option<string>,
    stateNames: seq<string>,
    stateDefaults: seq<string>,
    states: Option<string>,
    eventNames: seq<string>,
    eventOlds: seq<string>,
    eventNews: seq<string>,
    eventHandlers: seq<seq<Token>>,
    transitions: TransitionsBlock)

  const Initial := Collected(None, None, [], [], None, [], [], [], [], TransitionsBlock([], [], []))

  /** The four event vectors have one entry per parsed `event` block. */
  predicate EventsAligned(c: Collected)
  {
    |c.eventNames| == |c.eventOlds| == |c.eventNews| == |c.eventHandlers|
  }

  /** Appends one parsed event to the four event vectors. */
  function PushEvent(c: Collected, e: EventDef): (d: Collected)
  {
    c.(eventNames := c.eventNames + [e.name], eventOlds := c.eventOlds + [e.oldState],
       eventNews := c.eventNews + [e.newState], eventHandlers := c.eventHandlers + [e.body])
  }

  /** Replaces the four results of a `states` block. */
  function SetStates(c: Collected, b: StatesBlock): (d: Collected)
  {
    c.(initial := b.initial, stateNames := b.names, stateDefaults := b.defaults, states := b.definition)
  }

  /** The header `machine <name> { ... }` at position `i`: the name and the stream
      inside the braces, or the error for the first token that deviates. */
  function Header(top: Stream, i: nat): (r: Result<(string, Stream)>)
    requires i < |top.tokens|
    ensures r.Ok? <==> i + 3 <= |top.tokens| && top.tokens[i] == Ident("machine")
                       && top.tokens[i + 1].Ident?
                       && top.tokens[i + 2].Group? && top.tokens[i + 2].delim == Brace
    ensures r.Ok? ==> r.value == (top.tokens[i + 1].name, Inner(top, i + 2))
  {
    var t := top.tokens[i];
    if !t.Ident? then Err(Error("Unexpected token, expected 'machine'", SpanAt(top, i)))
    else if t.name != "machine" then Err(Error("Invalid identifier, expected 'machine'", SpanAt(top, i)))
    else if i + 1 == |top.tokens| then Err(Error("Missing machine name", SpanAt(top, i)))
    else if !top.tokens[i + 1].Ident? then Err(Error("Invalid machine name", SpanAt(top, i + 1)))
    else if i + 2 == |top.tokens| then Err(Error("Missing machine definition", SpanAt(top, i + 1)))
    else if !top.tokens[i + 2].Group? then Err(Error("Expected state machine definition", SpanAt(top, i + 2)))
    else if top.tokens[i + 2].delim != Brace then Err(Error("Expected braces '{ ... }'", SpanAt(top, i + 2)))
    else Ok((top.tokens[i + 1].name, Inner(top, i + 2)))
  }

  /** The blocks of one definition from position `j` on, applied to `acc`. */
  function Blocks(g: Stream, j: nat, acc: Collected): Result<Collected>
    requires j <= |g.tokens|
    decreases |g.tokens| - j
  {
    if j == |g.tokens| then Ok(acc)
    else
      var sp := SpanAt(g, j);
      match g.tokens[j]
      case Ident(kw) =>
        if kw == "event" then
          match ParseEvent(g, j + 1, sp)
          case Err(e) => Err(e)
          case Ok(p) => Blocks(g, p.rest, PushEvent(acc, p.value))
        else if kw == "states" then
          var p := ParseStates(g, j + 1);
          Blocks(g, p.rest, SetStates(acc, p.value))
        else if kw == "transitions" then
          var p := ParseTransitions(g, j + 1);
          Blocks(g, p.rest, acc.(transitions := p.value))
        else Err(Error("Expected 'event', 'states', or 'transitions'", sp))
      case _ => Err(Error("Expected definition of machine", sp))
  }

  /** The machine definitions from position `i` on, applied to `acc`; running out of
      tokens where a new definition could start ends the input normally. */
  function Definitions(top: Stream, i: nat, acc: Collected): Result<Collected>
    requires i <= |top.tokens|
    decreases |top.tokens| - i
  {
    if i == |top.tokens| then Ok(acc)
    else
      match Header(top, i)
      case Err(e) => Err(e)
      case Ok((name, body)) =>
        match Blocks(body, 0, acc.(name := Some(name)))
        case Err(e) => Err(e)
        case Ok(next) => Definitions(top, i + 3, next)
  }

  /** `state_machine` up to the code it emits: reads every definition of the input
      and returns what it collected, or the first syntax error. */
  method StateMachine(input: seq<Token>) returns (r: Result<Collected>)
    ensures r == Definitions(Stream(input, []), 0, Initial)
  {
    var top := Stream(input, []);
    var acc := Initial;
    var i := 0;
    while true
      invariant i <= |input|
      invariant Definitions(top, i, acc) == Definitions(top, 0, Initial)
      decreases |input| - i
    {
      if i == |input| {
        return Ok(acc);
      }
      var header := Header(top, i);
      if header.Err? {
        return Err(header.error);
      }
      acc := acc.(name := Some(header.value.0));
      var g := header.value.1;
      ghost var start := acc;
      var j := 0;
      while j < |g.tokens|
        invariant j <= |g.tokens|
        invariant Blocks(g, j, acc) == Blocks(g, 0, start)
        decreases |g.tokens| - j
      {
        var sp := SpanAt(g, j);
        var next := g.tokens[j];
        if !next.Ident? {
          return Err(Error("Expected definition of machine", sp));
        }
        if next.name == "event" {
          var e := ParseEvent(g, j + 1, sp);
          if e.Err? {
            return Err(e.error);
          }
          acc := acc.(eventNames := acc.eventNames + [e.value.value.name]);
          acc := acc.(eventOlds := acc.eventOlds + [e.value.value.oldState]);
          acc := acc.(eventNews := acc.eventNews + [e.value.value.newState]);
          acc := acc.(eventHandlers := acc.eventHandlers + [e.value.value.body]);
          j := e.value.rest;
        } else if next.name == "states" {
          var p := ParseStates(g, j + 1);
          acc := acc.(initial := p.value.initial, stateNames := p.value.names);
          acc := acc.(stateDefaults := p.value.defaults, states := p.value.definition);
          j := p.rest;
        } else if next.name == "transitions" {
          var p := ParseTransitions(g, j + 1);
          acc := acc.(transitions := p.value);
          j := p.rest;
        } else {
          return Err(Error("Expected 'event', 'states', or 'transitions'", sp));
        }
      }
      i := i + 3;
    }
  }

  // ---------------------------------------------------------------------------
  // Properties of the block loop
  // ---------------------------------------------------------------------------

  /** An empty input is read without error and collects nothing. */
  lemma EmptyInput()
    ensures Definitions(Stream([], []), 0, Initial) == Ok(Initial)
  {
  }

  /** Parsing blocks keeps the four event vectors aligned and only ever appends to them. */
  lemma {:induction false} BlocksKeepEvents(g: Stream, j: nat, acc: Collected)
    requires j <= |g.tokens| && EventsAligned(acc)
    ensures var r := Blocks(g, j, acc);
      r.Ok? ==> EventsAligned(r.value)
                && acc.eventNames <= r.value.eventNames
                && acc.eventOlds <= r.value.eventOlds
                && acc.eventNews <= r.value.eventNews
                && acc.eventHandlers <= r.value.eventHandlers
    decreases |g.tokens| - j
  {
    if j < |g.tokens| && g.tokens[j].Ident? {
      var kw := g.tokens[j].name;
      if kw == "event" {
        var p := ParseEvent(g, j + 1, SpanAt(g, j));
        if p.Ok? {
          BlocksKeepEvents(g, p.value.rest, PushEvent(acc, p.value.value));
        }
      } else if kw == "states" {
        var p := ParseStates(g, j + 1);
        BlocksKeepEvents(g, p.rest, SetStates(acc, p.value));
      } else if kw == "transitions" {
        var p := ParseTransitions(g, j + 1);
        BlocksKeepEvents(g, p.rest, acc.(transitions := p.value));
      }
    }
  }

  /** An `event` block appends exactly the event it parsed: whatever blocks follow, the
      result holds that event's name, parameters and body at the position just after
      the entries collected before it. */
  lemma EventBlockAppends(g: Stream, j: nat, acc: Collected)
    requires j < |g.tokens| && g.tokens[j] == Ident("event") && EventsAligned(acc)
    requires ParseEvent(g, j + 1, SpanAt(g, j)).Ok? && Blocks(g, j, acc).Ok?
    ensures var e := ParseEvent(g, j + 1, SpanAt(g, j)).value.value;
      var r := Blocks(g, j, acc).value;
      var n := |acc.eventNames|;
      n < |r.eventNames| && EventsAligned(r)
      && r.eventNames[n] == e.name && r.eventOlds[n] == e.oldState
      && r.eventNews[n] == e.newState && r.eventHandlers[n] == e.body
  {
    var p := ParseEvent(g, j + 1, SpanAt(g, j)).value;
    var pushed := PushEvent(acc, p.value);
    assert Blocks(g, j, acc) == Blocks(g, p.rest, pushed);
    BlocksKeepEvents(g, p.rest, pushed);
    var r := Blocks(g, j, acc).value;
    var n := |acc.eventNames|;
    assert pushed.eventNames[n] == r.eventNames[n];
    assert pushed.eventOlds[n] == r.eventOlds[n];
    assert pushed.eventNews[n] == r.eventNews[n];
    assert pushed.eventHandlers[n] == r.eventHandlers[n];
  }

  /** Over a whole input, the four event vectors come out aligned and only grow: the
      entries collected before are kept, in order, at the front of each. */
  lemma {:induction false} DefinitionsKeepEvents(top: Stream, i: nat, acc: Collected)
    requires i <= |top.tokens| && EventsAligned(acc)
    ensures var r := Definitions(top, i, acc);
      r.Ok? ==> EventsAligned(r.value)
                && acc.eventNames <= r.value.eventNames
                && acc.eventOlds <= r.value.eventOlds
                && acc.eventNews <= r.value.eventNews
                && acc.eventHandlers <= r.value.eventHandlers
    decreases |top.tokens| - i
  {
    if i < |top.tokens| {
      var h := Header(top, i);
      if h.Ok? {
        var start := acc.(name := Some(h.value.0));
        BlocksKeepEvents(h.value.1, 0, start);
        var b := Blocks(h.value.1, 0, start);
        if b.Ok? {
          DefinitionsKeepEvents(top, i + 3, b.value);
        }
      }
    }
  }

  /** The results of a `states` block are replaced together: after any number of blocks
      the four state results are either all untouched or all the ones the last `states`
      block produced. */
  lemma {:induction false} StatesReplacedTogether(g: Stream, j: nat, acc: Collected)
    requires j <= |g.tokens|
    ensures var r := Blocks(g, j, acc);
      r.Ok? ==> ((r.value.initial, r.value.stateNames, r.value.stateDefaults, r.value.states)
                    == (acc.initial, acc.stateNames, acc.stateDefaults, acc.states)
                 || (r.value.initial, r.value.stateNames, r.value.stateDefaults, r.value.states)
                    == (StubStates.initial, StubStates.names, StubStates.defaults, StubStates.definition))
    decreases |g.tokens| - j
  {
    if j < |g.tokens| && g.tokens[j].Ident? {
      var kw := g.tokens[j].name;
      if kw == "event" {
        var p := ParseEvent(g, j + 1, SpanAt(g, j));
        if p.Ok? {
          StatesReplacedTogether(g, p.value.rest, PushEvent(acc, p.value.value));
        }
      } else if kw == "states" {
        var p := ParseStates(g, j + 1);
        StatesReplacedTogether(g, p.rest, SetStates(acc, p.value));
      } else if kw == "transitions" {
        var p := ParseTransitions(g, j + 1);
        StatesReplacedTogether(g, p.rest, acc.(transitions := p.value));
      }
    }
  }

  /** The transition vectors are replaced only by a `transitions` block: after any number
      of blocks they are either untouched or the ones the last such block produced. */
  lemma {:induction false} TransitionsReplaced(g: Stream, j: nat, acc: Collected)
    requires j <= |g.tokens|
    ensures var r := Blocks(g, j, acc);
      r.Ok? ==> r.value.transitions == acc.transitions || r.value.transitions == StubTransitions
    decreases |g.tokens| - j
  {
    if j < |g.tokens| && g.tokens[j].Ident? {
      var kw := g.tokens[j].name;
      if kw == "event" {
        var p := ParseEvent(g, j + 1, SpanAt(g, j));
        if p.Ok? {
          TransitionsReplaced(g, p.value.rest, PushEvent(acc, p.value.value));
        }
      } else if kw == "states" {
        var p := ParseStates(g, j + 1);
        TransitionsReplaced(g, p.rest, SetStates(acc, p.value));
      } else if kw == "transitions" {
        var p := ParseTransitions(g, j + 1);
        TransitionsReplaced(g, p.rest, acc.(transitions := p.value));
      }
    }
  }

  /** Once a `states` block is read, the four states locals hold what a `states` block
      returns, whatever was collected before it and whatever blocks follow. */
  lemma StatesBlockWins(g: Stream, j: nat, acc: Collected)
    requires j < |g.tokens| && g.tokens[j] == Ident("states")
    ensures var r := Blocks(g, j, acc);
      r.Ok? ==> (r.value.initial, r.value.stateNames, r.value.stateDefaults, r.value.states)
                == (StubStates.initial, StubStates.names, StubStates.defaults, StubStates.definition)
  {
    var p := ParseStates(g, j + 1);
    StatesReplacedTogether(g, p.rest, SetStates(acc, p.value));
  }

  /** Once a `transitions` block is read, the transition vectors hold what a
      `transitions` block returns, whatever was collected before it and whatever blocks
      follow. */
  lemma TransitionsBlockWins(g: Stream, j: nat, acc: Collected)
    requires j < |g.tokens| && g.tokens[j] == Ident("transitions")
    ensures var r := Blocks(g, j, acc);
      r.Ok? ==> r.value.transitions == StubTransitions
  {
    var p := ParseTransitions(g, j + 1);
    TransitionsReplaced(g, p.rest, acc.(transitions := p.value));
  }

  /** A definition that is a single `states` block installs exactly the states table
      that block returned, whatever was collected before. */
  lemma StatesBlockOverwrites(g: Stream, acc: Collected)
    requires |g.tokens| == 2 && g.tokens[0] == Ident("states")
    ensures Blocks(g, 0, acc) == Ok(SetStates(acc, StubStates))
  {
  }

  /** Any identifier other than the three block keywords aborts the definition at that
      identifier, and so does a token that is not an identifier. */
  lemma UnknownBlockRejected(g: Stream, j: nat, acc: Collected)
    requires j < |g.tokens|
    requires g.tokens[j] !in {Ident("event"), Ident("states"), Ident("transitions")}
    ensures Blocks(g, j, acc)
         == Err(Error(if g.tokens[j].Ident? then "Expected 'event', 'states', or 'transitions'"
                      else "Expected definition of machine", SpanAt(g, j)))
  {
  }
}
