# A verified model of a state-machine procedural macro

The repository is a Rust procedural macro. It reads a description of a finite state
machine written inside `machine <Name> { ... }` and emits a Rust `Machine` type. Each
event of the description becomes a method on that type. The model follows the macro
through its stages.

- **Tokens** (`tokens.dfy`): token trees (identifiers, punctuation, literals,
  delimited groups), a cursor over a token stream, and error values that carry a
  message and a span. A span is the path of indices from the outer stream down to the
  token.
- **Legacy** (`legacy.dfy`): the original entry point `state_machine` of `src/lib.rs`.
  It covers `parse_event_param`, `is_comma` and `parse_event`, the placeholder
  `parse_states` / `parse_transitions`, and the loop over `machine` definitions and
  their `event` / `states` / `transitions` blocks. The loop is a `method` with nested
  `while` loops. It is proved equal to a recursive specification (`Definitions` over
  `Blocks`), and lemmas about that specification state what the loop keeps, replaces
  and rejects.
- **Model** (`model.dfy`): the machine description of `src/machine.rs`, with its
  `Default`. This is the record the generator consumes. The newer parser fills its
  own, simpler record (`Syntax.Machine`).
- **Syntax** (`syntax.rs` → `syntax.dfy`): the newer parser `parse_syntax`. It is again
  a loop proved against a recursive specification. Its `states` and `transitions`
  sub-parsers are the placeholder versions in `src/states.rs` and
  `src/transitions.rs`. Its event sub-parser is a parameter, as explained below. That
  parameter may also report `NoFurtherTokens`, which ends the input with the machine
  read so far.
- **Semantic** (`semantic.dfy`): `parse_semantic`. As written it returns its input
  unchanged, and the model keeps that identity. The checks in the function's
  commented-out body are modelled separately as `Validate`, a function that is not on
  the live path. Those checks are: undefined states, undefined events, events without
  transitions and states without transitions.
- **Generate** (`generate.dfy`): `as_name`, the `handle_` prefix, and `prepare`.
  `prepare` builds the parallel state, handler and event vectors. It also compiles
  each event's transitions into dispatch arms: from-state, pattern, parameter
  bindings, guard, destination and handler call.
- **Runtime** (`runtime.dfy`): the meaning of the code that `generate` emits. The
  generated `Machine` is a `class` with the current state identifier and one field
  (slot) per state. `Machine.new()` is its constructor. Each event method is
  `Machine.Trigger`, which runs over the event's arms in order with a `while` loop.
  Trigger is proved equal to the function `Dispatch`. Lemmas cover:
  - that `Dispatch` on a compiled event body does what the description's transitions
    say (`DispatchFollowsTable`);
  - that the first enabled arm fires;
  - that nothing changes when no arm fires;
  - which slots a handler can touch, and what it receives: the event's parameter
    patterns, read in the arm's scope after the transition's `let` bindings and the
    from-pattern (`Scenarios.SwappedParameters` shows the shadowing);
  - what holds over a whole run of events.
- **Scenarios** (`scenarios.dfy`): a small bottle-filling machine taken through the
  whole pipeline: prepare, construct, fire twice.

Hash-map iteration order is unspecified in Rust. Wherever the source iterates a
`HashMap`, the model takes that order as a parameter (`order`, `keys`), required to
list each key exactly once (`Model.Enumerates`). Results are proved not to depend on
it where the source's result does not (`Semantic.ValidateIgnoresOrder`,
`Generate.StateVectorsPaired`).

## Model

| member | source | states |
|---|---|---|
| Legacy.ParseEventParam | src/lib.rs:35-105 | succeeds exactly when the next five tokens are `name : & mut State`; then it returns the name, the span of `State`, and the position after it |
| Legacy.ParamFirstDeviation | src/lib.rs:35-105 | the error is the message of the first of the five positions that is missing or of the wrong kind, reported at that token or, at the end of input, at the previous span |
| Legacy.IsComma | src/lib.rs:107-118 | `None` exactly when the next token is `,`; otherwise the span of the offending token, or the span passed in at end of input |
| Legacy.ParseEvent | src/lib.rs:120-190 | succeeds exactly on `Name ( old: &mut State , new: &mut State [punct ...] ) { body }`; then it returns the name, both parameter names and the body, and advances three tokens |
| Legacy.SignatureRejected | src/lib.rs:133-175 | a signature that is not a parenthesised group fails with the "Expected event signature" message at that token |
| Legacy.MissingComma | src/lib.rs:140-146 | a first parameter not followed by `,` fails with "Expected second parameter" |
| Legacy.OnlyTwoArgumentsWins | src/lib.rs:148-165 | a non-punctuation token after the second parameter fails with "Only two arguments expected", even when the body is missing too |
| Legacy.MissingBody | src/lib.rs:150-152 | input ending after a well-formed signature fails with "Missing event body" at the second `State` token |
| Legacy.BodyRejected | src/lib.rs:177-189 | a body that is not a brace group fails with "Expected event body" at that token |
| Legacy.ParseStates | src/lib.rs:192-213 | consumes one token and returns the fixed stopped / running / paused states result |
| Legacy.ParseTransitions | src/lib.rs:215-241 | consumes one token and returns the fixed three index-aligned transition vectors |
| Legacy.Header | src/lib.rs:261-297 | accepts exactly `machine <ident> { ... }` and yields the name and the stream inside the braces |
| Legacy.StateMachine | src/lib.rs:244-353 | the parsing loop returns exactly the recursive specification `Definitions` applied to the initial locals |
| Legacy.EmptyInput | src/lib.rs:260-262 | empty input leaves every local at its initial value |
| Legacy.BlocksKeepEvents | src/lib.rs:298-340 | within a definition the four event vectors stay aligned and only grow, keeping earlier entries as a prefix |
| Legacy.EventBlockAppends | src/lib.rs:303-310 | an `event` block puts its event's name, old and new parameter names and body at the next index of the four vectors, whatever blocks follow |
| Legacy.DefinitionsKeepEvents | src/lib.rs:260-353 | across all definitions the four event vectors stay aligned, and each keeps the entries collected before as a prefix |
| Legacy.StatesReplacedTogether | src/lib.rs:311-318 | the four states locals are either all unchanged or all the result of a `states` block |
| Legacy.StatesBlockOverwrites | src/lib.rs:311-318 | a `states` block overwrites the four states locals |
| Legacy.TransitionsReplaced | src/lib.rs:319-325 | the three transition vectors are either unchanged or all the result of a `transitions` block |
| Legacy.StatesBlockWins | src/lib.rs:311-318 | once a `states` block is read, the four states locals end up holding what a `states` block returns, whatever came before it and whatever blocks follow |
| Legacy.TransitionsBlockWins | src/lib.rs:319-325 | once a `transitions` block is read, the transition vectors end up holding what a `transitions` block returns, whatever came before it and whatever blocks follow |
| Legacy.UnknownBlockRejected | src/lib.rs:326-336 | an unknown keyword, or a token that is not an identifier, aborts with its own message at that token |
| Model.DefaultStates | src/states.rs:13-21 | the default states table has initial `__invalid__`, an empty definition and no defaults |
| Model.DefaultMachine | src/machine.rs:17-27 | the default machine is named `__invalid__` and has no events, handlers or transitions |
| Model.EventNames | src/generate.rs:54-56 | one name per event, in declaration order |
| Model.TransitionsFrom | src/generate.rs:63-66 | the table's transitions for that event and from-state when both are present, and none otherwise |
| Model.EnumeratesCount | src/generate.rs:34-42 | a listing of a hash map's keys is exactly as long as the map |
| Syntax.DefaultMachine | src/syntax.rs:19-28 | the default record is named `__invalid__` and has no events, no transitions and the default states |
| Syntax.ParseStates | src/states.rs:23-52 | consumes one token and returns the fixed `Stopped` / `Running(String)` / `Paused` table |
| Syntax.ParseTransitions | src/transitions.rs:11-52 | consumes one token and returns the fixed run / pause / stop table |
| Syntax.Header | src/syntax.rs:35-73 | accepts exactly `machine <ident> { ... }` and yields the name and the inner stream |
| Syntax.HeaderFirstDeviation | src/syntax.rs:35-73 | the error is the message for the first header token that is missing or of the wrong kind |
| Syntax.ParseSyntax | src/syntax.rs:30-117 | the parsing loop returns exactly the recursive specification `Definitions` from the default machine, including the `NoFurtherTokens` exit from an event block |
| Syntax.EmptyInputIsDefault | src/syntax.rs:105-108 | empty input yields `Machine::default()` |
| Syntax.BlocksEffect | src/syntax.rs:74-103 | blocks only append events, never change the name, and either keep the states and transitions or replace them by the sub-parsers' result |
| Syntax.EventBlockAppends | src/syntax.rs:79-81 | an `event` block puts the event its sub-parser read at the next index of the events, whatever blocks follow |
| Syntax.DefinitionsEffect | src/syntax.rs:30-117 | events accumulate over all definitions, and the name is that of some `machine <name>` header read |
| Syntax.LastDefinitionNames | src/syntax.rs:54-56 | when the event sub-parser never reports `NoFurtherTokens`, the machine is named after the last definition of the input |
| Syntax.ExhaustionEndsInput | src/syntax.rs:105-108 | when the event sub-parser reports `NoFurtherTokens` inside a definition, the result is the machine filled so far, named after that definition, and the rest of the input is not read |
| Syntax.ExhaustedFirstDefinition | src/syntax.rs:105-108 | an `event` keyword ending the first definition ends the input: the result has the first name and none of the second definition's events |
| Syntax.StatesBlockWins | src/syntax.rs:82-84 | once a `states` block is read, the record ends up holding the table a `states` block returns, whatever came before it and whatever blocks follow |
| Syntax.TransitionsBlockWins | src/syntax.rs:85-90 | once a `transitions` block is read, the record ends up holding the table a `transitions` block returns, whatever came before it and whatever blocks follow |
| Syntax.UnknownBlockRejected | src/syntax.rs:91-99 | an unknown keyword, or a non-identifier, aborts with its own message |
| Syntax.TwoDefinitions | src/syntax.rs:30-117 | two definitions read in sequence merge their events, and the machine takes the second name |
| Semantic.ParseSemantic | src/semantic.rs:4-90 | the live semantic pass accepts every machine unchanged |
| Semantic.SortCorrect | src/semantic.rs:16-17 | sorting yields a sorted permutation of its input |
| Semantic.DedupCorrect | src/semantic.rs:16-17 | deduplication keeps exactly the same elements and keeps a sorted list sorted |
| Semantic.LeastUndefined | src/semantic.rs:19-28 | the reported name is undefined and is the least undefined candidate; `None` exactly when all candidates are defined |
| Semantic.LeastUndefinedIgnoresOrder | src/semantic.rs:9-17 | the reported name depends only on the set of candidates, not on their order |
| Semantic.UndefinedStateReported | src/semantic.rs:6-28 | the validator fails with an undefined state exactly when a transition names a state with no default, and it reports the least such state |
| Semantic.UndefinedEventReported | src/semantic.rs:30-49 | with all states defined, the validator fails exactly when a transition key is not a declared event, and it reports the least such key |
| Semantic.AcceptedExactly | src/semantic.rs:6-85 | the validator accepts exactly when states and events are defined; then it returns the machine unchanged, with warnings for silent events and idle states |
| Semantic.WarningsNeverFatal | src/semantic.rs:51-67 | a declared event without transitions is only a warning, never a rejection |
| Semantic.Validate | src/semantic.rs:6-85 | a rejection for an undefined state names a state some transition mentions that has no default; one for an undefined event names a table key that is not a declared event; an acceptance returns the machine unchanged, with idle states among the declared ones and silent events declared and absent from the table |
| Semantic.ValidateIgnoresOrder | src/semantic.rs:34-38 | the validator's verdict does not depend on the hash map's key order |
| Generate.Lower | src/generate.rs:25-27 | ASCII upper-case letters map to lower case (+32); every other character is unchanged |
| Generate.AsName | src/generate.rs:25-27 | for the ASCII lower-casing of `Lower`: same length, no upper-case letters left, and a character changes exactly when it was upper case (see "Left out" for other Unicode letters) |
| Generate.AsNameKeepsLower | src/generate.rs:25-27 | a name without upper-case letters is its own field name |
| Generate.AsNameIdempotent | src/generate.rs:25-27 | converting twice is converting once |
| Generate.AsNameIgnoresCase | src/generate.rs:25-27 | distinct state identifiers can share a field name (`Idle`, `IDLE`) |
| Generate.HandlerName | src/generate.rs:44-46 | the method name is `handle_` followed by the handler name |
| Generate.HandlerNameInjective | src/generate.rs:44-46 | distinct handlers get distinct method names |
| Generate.ArgExprs | src/generate.rs:81-94 | one argument per event parameter: its pattern, or `__invalid__` for any parameter that is not a captured `pattern: Type` |
| Generate.Bindings | src/generate.rs:132-154 | the `let` bindings pair transition parameter names with event arguments, truncated to the shorter list |
| Generate.HandlerCall | src/generate.rs:95-118 | a call exists exactly when the transition has a handler; it targets `handle_<h>`, passes no old slot exactly for a self-transition, and passes the destination slot and the event's arguments |
| Generate.CompileArm | src/generate.rs:60-170 | an arm keeps the transition's pattern, guard and destination, and carries the event's parameter patterns, its bindings and its handler call |
| Generate.EventBody | src/generate.rs:60-183 | an event with no table entry has no arms; otherwise one arm list per from-state, each arm compiled from the matching transition in order |
| Generate.Prepare | src/generate.rs:29-199 | the state, handler and event vectors are parallel; each state is paired with its default and field name, handler names carry the prefix, and the event vectors follow the declaration order |
| Generate.StateVectorsPaired | src/generate.rs:34-42 | zipping the state identifiers with the defaults gives back the defaults map, whatever the iteration order |
| Generate.CallTargetDeclared | src/generate.rs:95-118 | `handle_<h>` is among the methods `prepare` declares exactly when `h` is a declared handler; a transition naming an undeclared handler still gets a call, since nothing checks handler names |
| Generate.ClosedTableFits | src/generate.rs:60-183 | when the table only names declared states, every compiled arm reads and writes existing fields and moves to a declared state |
| Runtime.Apply | src/generate.rs:95-169 | firing an arm sets the current state to its destination; slots the handler does not touch are unchanged; the handler receives the call's argument expressions evaluated in the arm's scope (the event's parameter patterns bound to the call's arguments, then the `let` bindings, then the from-pattern's names), all of which the evaluator receives; the destination slot holds the handler's second output, and a distinct from-slot its first |
| Runtime.Select | src/generate.rs:156-169 | the chosen arm is enabled and every earlier arm is not; `None` exactly when no arm is enabled |
| Runtime.Dispatch | src/generate.rs:174-181 | an event call keeps the set of fields |
| Runtime.RejectedExactly | src/generate.rs:174-181 | the call returns `false` exactly when no arm of the current state is enabled, and then nothing changes |
| Runtime.FirstMatchWins | src/generate.rs:156-169 | the first enabled arm in order is the one that fires |
| Runtime.FiredFrame | src/generate.rs:156-169 | a call that returns `true` fired some enabled arm of the current state, with all earlier arms disabled |
| Runtime.HandlerOldArgument | src/generate.rs:102-107 | a self-transition passes `None` as the old state, and any other transition passes the from-state's field |
| Runtime.Take | src/generate.rs:81-169 | taking a transition moves to its destination and runs `handle_<h>` on the from-state's field (none for a self-transition), the destination's field and the event's parameter patterns evaluated after the transition's `let`s and from-pattern; the two fields receive what the handler leaves, and other fields are unchanged |
| Runtime.CompiledArmAgrees | src/generate.rs:60-169 | the arm compiled for a transition fires exactly when the transition does, and firing it is taking the transition |
| Runtime.DispatchFollowsTable | src/generate.rs:60-183 | an event method compiled from the description returns `true` exactly when some transition listed for the event and the current state fires; it then takes the first such transition, and otherwise changes nothing |
| Runtime.InitialSlots | src/generate.rs:236-241 | `new()` fills one field per state name with that state's default |
| Runtime.NewSlotsHoldDefaults | src/generate.rs:236-241 | after `prepare`, the field of every state holds that state's default expression |
| Runtime.Run | src/generate.rs:245-250 | a sequence of event calls keeps the set of fields |
| Runtime.UntouchedSlotPersists | src/generate.rs:245-250 | a field that no handler writes keeps its value through any sequence of calls |
| Runtime.RunStaysDeclared | src/generate.rs:245-250 | if every arm moves to a declared state, the current state stays declared through any sequence of calls |
| Runtime.Machine.constructor | src/generate.rs:236-241 | starts in the initial state with every field at its default |
| Runtime.Machine.Trigger | src/generate.rs:245-250 | an event method returns and updates exactly what `Dispatch` says, and keeps the machine valid |
| Scenarios.BottlePrepared | src/generate.rs:29-199 | `prepare` of the bottle machine gives the expected vectors and dispatch arms |
| Scenarios.CompiledBottleArms | src/generate.rs:60-170 | the two `fill` transitions from `Idle` compile to the guarded fill arm and the unguarded spill arm |
| Scenarios.FillFits | src/generate.rs:156-169 | with enough room, `fill` moves to `Filling` and the handler moves the volume from the idle field to the filling field |
| Scenarios.FillOverflows | src/generate.rs:156-169 | with too little room, the guard fails and the second arm moves to `Empty`, leaving the fields alone |
| Scenarios.FillWhileFilling | src/generate.rs:174-181 | a state with no arms for the event returns `false` and changes nothing |
| Scenarios.NewBottle | src/generate.rs:236-241 | a new bottle starts `Idle` with 20 units in its idle field |
| Scenarios.FillTwice | src/generate.rs:245-250 | filling 10 succeeds and a second fill is refused, leaving 10 in each field |
| Scenarios.SwappedParameters | src/generate.rs:81-152 | for `swap(a, b)` and a transition binding `swap(b, a)`, the lets `b = a; a = b` hand the handler the first argument twice |
| Scenarios.InOrderParameters | src/generate.rs:81-152 | binding the parameters in their declared order hands the handler the arguments as passed |
| Scenarios.OwnParameters | src/generate.rs:81-160 | events `e1(a, x)` and `e2(x, a)` with a guard `x > 0`, called with `(0, 5)`: only `e1` fires, and each hands its handler its own arguments in order |
| Scenarios.PatternShadowsArgument | src/generate.rs:81-160 | `fill(volume)` out of `Idle { volume }` hands the handler the idle field's payload, which shadows the argument |

## Left out

- The text of the emitted code is not modelled, only its meaning. This covers the
  `quote!` output, the `State` / `StateIdentifier` enums and the generated
  `impl` layout (`src/generate.rs:201-254`). The obsolete generator at the end of
  `state_machine` (`src/lib.rs:355-418`) is left out too.
- Spans and diagnostics are index paths, not `proc_macro` spans. The compiler's
  rendering of errors and warnings is not modelled (`src/error.rs`).
- Hash-map iteration order is a parameter. It is not derived from Rust's hashing.
- `src/events.rs`: `events::parse_event` is commented out in the source, so the newer
  parser's event sub-parser is a parameter. Its commented-out signature returns a
  `StateMachineResult`, so the parameter reports one of three outcomes: an event, a
  syntax error, or `NoFurtherTokens`. It is required never to move the cursor
  backwards or past the end. What it accepts is not modelled. `get_events` is not part
  of this model.
- `src/handlers.rs` (handler parsing) and `src/main.rs` are not part of this model.
  Handlers enter only through `Model.Machine.handlers`.
- User code is uninterpreted. Types, default expressions, patterns, guards, handler
  argument expressions and handler bodies are token streams. At run time their meaning
  is the functions of a `UserCode` record. Guards and argument expressions receive
  everything their scope is built from: the event method's parameter patterns and the
  call's arguments they bind, the `let` bindings, the arm's pattern and the
  from-field's payload. The examples in `scenarios.dfy` read
  plain names in that scope; general Rust expressions are not interpreted.
- Payload types are a type parameter. Rust borrowing (`&mut self.field`) is modelled
  as a handler that returns the new old-slot and new-slot values.
- Generate.AsName: the field name lowers ASCII letters only, so its contract (same
  length, a character changes exactly when it is ASCII upper case) is narrower than
  Rust's `to_lowercase`. That also lowers other Unicode letters (`Σ` to `σ`) and can
  lengthen a name (`İ` becomes two characters). Unicode's case tables are not part of
  this model; for identifiers written in ASCII the two agree.
- Generate.Lower: only ASCII upper case is mapped. `to_lowercase` in the source also
  lowers other Unicode letters.
- Runtime.Machine.constructor: it has three requirements, and each holds only when the
  emitted code compiles. The model does not describe the output when they fail.
  - Distinct field names: when two state identifiers collide under `as_name` (see
    `Generate.AsNameIgnoresCase`), the emitted struct would have a duplicate field.
  - The initial state is among the state identifiers: otherwise
    `StateIdentifier::<initial>` names no variant.
  - Every compiled arm fits (`Generate.BodyFits`): otherwise an arm names a field or
    variant that does not exist. `Generate.ClosedTableFits` proves it when the table
    only names declared states.
- Syntax: the newer parser fills the single-level transition record of
  `src/syntax.rs` (from/to edges keyed by event), not the richer `Model.Machine`
  table. The conversion between the two is not part of the source and not modelled.
- Semantic.Validate: the checks are commented out in `src/semantic.rs`, so the live
  pass is the identity (`Semantic.ParseSemantic`). `Validate` models the disabled
  checks as they would run. Warnings are returned as values instead of being emitted.
