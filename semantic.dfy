/** The semantic pass of `src/semantic.rs`.

    The live `parse_semantic` returns the machine unchanged. Its disabled body describes
    the referential-integrity check; it is modelled here as `Validate`, over the table
    shape that body was written against (events, `event -> [(from, to)]`, and the keys of
    the state defaults). Names to check are sorted and deduplicated first, so the name
    reported is the least offending one in Rust's string order. */
module Semantic {
  import opened Wrappers
  import Model
  import Syntax

  // ---------------------------------------------------------------------------
  // The live pass
  // ---------------------------------------------------------------------------

  /** The fatal errors of the pass. */
  datatype Fatal = UndefinedState(state: string) | UndefinedEvent(event: string)

  /** Outcome of a pass: the machine it accepted, or its first fatal error. */
  datatype Outcome<+T> = Accepted(value: T) | Rejected(error: Fatal)

  /** `parse_semantic` as it is: it hands its argument on and never fails. */
  function ParseSemantic(m: Model.Machine): (r: Outcome<Model.Machine>)
    ensures r == Accepted(m)
  {
    Accepted(m)
  }

  // ---------------------------------------------------------------------------
  // Rust's order on strings, sorting and deduplication
  // ---------------------------------------------------------------------------

  /** `a <= b` in lexicographic order of characters. */
  predicate Below(a: string, b: string)
  {
    a == [] || (b != [] && (a[0] < b[0] || (a[0] == b[0] && Below(a[1..], b[1..]))))
  }

  lemma {:induction false} BelowTotal(a: string, b: string)
    ensures Below(a, b) || Below(b, a)
  {
    if a != [] && b != [] && a[0] == b[0] {
      BelowTotal(a[1..], b[1..]);
    }
  }

  lemma {:induction false} BelowAntisymmetric(a: string, b: string)
    requires Below(a, b) && Below(b, a)
    ensures a == b
  {
    if a != [] {
      BelowAntisymmetric(a[1..], b[1..]);
      assert a == [a[0]] + a[1..];
      assert b == [b[0]] + b[1..];
    }
  }

  lemma {:induction false} BelowTransitive(a: string, b: string, c: string)
    requires Below(a, b) && Below(b, c)
    ensures Below(a, c)
  {
    if a != [] && a[0] == b[0] && b[0] == c[0] {
      BelowTransitive(a[1..], b[1..], c[1..]);
    }
  }

  /** Every pair of elements is in order. */
  predicate Sorted(s: seq<string>)
  {
    forall i, j :: 0 <= i < j < |s| ==> Below(s[i], s[j])
  }

  /** Inserts `x` before the first element it is below. */
  function Insert(x: string, s: seq<string>): seq<string>
  {
    if s == [] then [x]
    else if Below(x, s[0]) then [x] + s
    else [s[0]] + Insert(x, s[1..])
  }

  /** Sorting, as `Vec::sort` does it (for strings, any sort has the same result). */
  function Sort(s: seq<string>): seq<string>
  {
    if s == [] then [] else Insert(s[0], Sort(s[1..]))
  }

  lemma {:induction false} InsertSorted(x: string, s: seq<string>)
    requires Sorted(s)
    ensures Sorted(Insert(x, s))
    ensures multiset(Insert(x, s)) == multiset(s) + multiset{x}
  {
    if s == [] {
    } else if Below(x, s[0]) {
      forall j | 0 < j < |s| ensures Below(x, s[j]) {
        BelowTransitive(x, s[0], s[j]);
      }
    } else {
      BelowTotal(x, s[0]);
      InsertSorted(x, s[1..]);
      var t := Insert(x, s[1..]);
      assert s == [s[0]] + s[1..];
      forall j | 0 <= j < |t| ensures Below(s[0], t[j]) {
        assert t[j] in multiset(t);
        if t[j] != x {
          assert t[j] in multiset(s[1..]);
          var k :| 0 <= k < |s[1..]| && s[1..][k] == t[j];
          assert s[k + 1] == t[j];
        }
      }
    }
  }

  /** `Sort` orders its input and keeps every element with its multiplicity. */
  lemma {:induction false} SortCorrect(s: seq<string>)
    ensures Sorted(Sort(s))
    ensures multiset(Sort(s)) == multiset(s)
  {
    if s != [] {
      SortCorrect(s[1..]);
      InsertSorted(s[0], Sort(s[1..]));
      assert s == [s[0]] + s[1..];
    }
  }

  /** `Vec::dedup`: removes consecutive repeats. */
  function Dedup(s: seq<string>): seq<string>
  {
    if |s| <= 1 then s
    else if s[0] == s[1] then Dedup(s[1..])
    else [s[0]] + Dedup(s[1..])
  }

  /** Removing consecutive repeats keeps the same names and keeps a sorted list sorted. */
  lemma {:induction false} DedupCorrect(s: seq<string>)
    ensures forall x :: x in Dedup(s) <==> x in s
    ensures Sorted(s) ==> Sorted(Dedup(s))
  {
    if |s| > 1 {
      DedupCorrect(s[1..]);
      assert s == [s[0]] + s[1..];
      if Sorted(s) {
        assert Sorted(s[1..]) by {
          forall i, j | 0 <= i < j < |s[1..]| ensures Below(s[1..][i], s[1..][j]) {
            assert s[1..][i] == s[i + 1] && s[1..][j] == s[j + 1];
          }
        }
        if s[0] != s[1] {
          var d := Dedup(s[1..]);
          forall j | 0 <= j < |d| ensures Below(s[0], d[j]) {
            assert d[j] in s[1..];
            var k :| 0 <= k < |s[1..]| && s[1..][k] == d[j];
            assert s[k + 1] == d[j];
          }
        }
      }
    }
  }

  /** The first name of `s` that is not in `known`, as the checking loops find it. */
  function FirstUndefined(s: seq<string>, known: set<string>): (r: Option<string>)
  {
    if s == [] then None
    else if s[0] !in known then Some(s[0])
    else FirstUndefined(s[1..], known)
  }

  /** In a sorted list, the first undefined name is the least undefined name. */
  lemma {:induction false} FirstUndefinedIsLeast(s: seq<string>, known: set<string>)
    requires Sorted(s)
    ensures var r := FirstUndefined(s, known);
      && (r.None? <==> forall x :: x in s ==> x in known)
      && (r.Some? ==> r.value in s && r.value !in known
                      && forall x :: x in s && x !in known ==> Below(r.value, x))
  {
    if s != [] {
      assert s == [s[0]] + s[1..];
      assert Sorted(s[1..]) by {
        forall i, j | 0 <= i < j < |s[1..]| ensures Below(s[1..][i], s[1..][j]) {
          assert s[1..][i] == s[i + 1] && s[1..][j] == s[j + 1];
        }
      }
      FirstUndefinedIsLeast(s[1..], known);
      if s[0] !in known {
        forall x | x in s && x !in known ensures Below(s[0], x) {
          var k :| 0 <= k < |s| && s[k] == x;
          if k == 0 {
            BelowTotal(x, x);
          }
        }
      }
    }
  }

  /** Sort, deduplicate, then report the first name not in `known`: the least name of
      `candidates` that is not in `known`, or none when every candidate is known. */
  function LeastUndefined(candidates: seq<string>, known: set<string>): (r: Option<string>)
    ensures r.None? <==> forall x :: x in candidates ==> x in known
    ensures r.Some? ==> r.value in candidates && r.value !in known
    ensures r.Some? ==> forall x :: x in candidates && x !in known ==> Below(r.value, x)
  {
    var sorted := Sort(candidates);
    SortCorrect(candidates);
    assert forall x :: x in sorted <==> x in candidates by {
      forall x ensures x in sorted <==> x in candidates {
        assert x in sorted <==> x in multiset(sorted);
        assert x in candidates <==> x in multiset(candidates);
      }
    }
    DedupCorrect(sorted);
    FirstUndefinedIsLeast(Dedup(sorted), known);
    FirstUndefined(Dedup(sorted), known)
  }

  /** The least undefined name depends only on the set of candidates, not on their order. */
  lemma LeastUndefinedIgnoresOrder(c1: seq<string>, c2: seq<string>, known: set<string>)
    requires forall x :: x in c1 <==> x in c2
    ensures LeastUndefined(c1, known) == LeastUndefined(c2, known)
  {
    var r1, r2 := LeastUndefined(c1, known), LeastUndefined(c2, known);
    if r1.Some? && r2.Some? {
      BelowAntisymmetric(r1.value, r2.value);
    }
  }

  // ---------------------------------------------------------------------------
  // The disabled referential-integrity check
  // ---------------------------------------------------------------------------

  /** From- and to-state of every edge, in order. */
  function EdgeStates(edges: seq<Syntax.Edge>): (r: seq<string>)
    ensures forall x :: x in r <==> exists e :: e in edges && (x == e.from || x == e.to)
  {
    if edges == [] then []
    else [edges[0].from, edges[0].to] + EdgeStates(edges[1..])
  }

  /** The states named by the transitions of the events in `keys`, in that order. */
  function TableStates(t: Syntax.EdgeTable, keys: seq<string>): (r: seq<string>)
    requires forall k :: k in keys ==> k in t
    ensures forall x :: x in r <==> exists k :: k in keys && x in EdgeStates(t[k])
  {
    if keys == [] then []
    else EdgeStates(t[keys[0]]) + TableStates(t, keys[1..])
  }

  /** A state that some transition of the table names as its from- or to-state. */
  ghost predicate Mentioned(t: Syntax.EdgeTable, x: string)
  {
    exists k, e :: k in t && e in t[k] && (x == e.from || x == e.to)
  }

  /** The declared events that no entry of the table is keyed by, in declaration order. */
  function SilentEvents(events: seq<Model.Event>, t: Syntax.EdgeTable): (r: seq<string>)
    ensures forall x :: x in r <==> exists e :: e in events && e.name == x && x !in t
  {
    if events == [] then []
    else (if events[0].name in t then [] else [events[0].name]) + SilentEvents(events[1..], t)
  }

  /** The names of the declared events. */
  function DeclaredEvents(m: Syntax.Machine): set<string>
  {
    set e | e in m.events :: e.name
  }

  /** Warnings of an accepted machine: events that always fail (in declaration order) and
      states in no transition (emitted in hash-map order, so kept as a set). */
  datatype Warnings = Warnings(silentEvents: seq<string>, idleStates: set<string>)

  /** The check as the disabled body of `parse_semantic` describes it: undefined states
      first, then undefined events, each the least offending name; if neither, the machine
      is accepted with its warnings. `keys` is the iteration order of the table. */
  function Validate(m: Syntax.Machine, keys: seq<string>): (r: Outcome<(Syntax.Machine, Warnings)>)
    requires Model.Enumerates(keys, m.transitions.Keys)
    ensures r.Rejected? && r.error.UndefinedState? ==>
      Mentioned(m.transitions, r.error.state) && r.error.state !in m.states.defaults
    ensures r.Rejected? && r.error.UndefinedEvent? ==>
      r.error.event in m.transitions && r.error.event !in DeclaredEvents(m)
    ensures r.Accepted? ==> r.value.0 == m
    ensures r.Accepted? ==> r.value.1.idleStates <= m.states.defaults.Keys
    ensures r.Accepted? ==> forall x :: x in r.value.1.silentEvents ==> x in DeclaredEvents(m) && x !in m.transitions
  {
    var stateIdents := m.states.defaults.Keys;
    var transitionStates := TableStates(m.transitions, keys);
    match LeastUndefined(transitionStates, stateIdents)
    case Some(s) => Rejected(UndefinedState(s))
    case None =>
      var eventIdents := DeclaredEvents(m);
      match LeastUndefined(keys, eventIdents)
      case Some(e) => Rejected(UndefinedEvent(e))
      case None =>
        Accepted((m, Warnings(SilentEvents(m.events, m.transitions),
                              set x | x in stateIdents && x !in transitionStates)))
  }

  /** Every state a transition names is a key of the state defaults. */
  ghost predicate StatesDefined(m: Syntax.Machine)
  {
    forall x :: Mentioned(m.transitions, x) ==> x in m.states.defaults
  }

  /** Every event the table is keyed by is a declared event. */
  ghost predicate EventsDefined(m: Syntax.Machine)
  {
    forall k :: k in m.transitions ==> k in DeclaredEvents(m)
  }

  /** The check fails with "undefined state" exactly when a transition names an undeclared
      state, and then reports the least such name. */
  lemma UndefinedStateReported(m: Syntax.Machine, keys: seq<string>)
    requires Model.Enumerates(keys, m.transitions.Keys)
    ensures Validate(m, keys).Rejected? && Validate(m, keys).error.UndefinedState?
        <==> !StatesDefined(m)
    ensures Validate(m, keys).Rejected? && Validate(m, keys).error.UndefinedState? ==>
      var s := Validate(m, keys).error.state;
      Mentioned(m.transitions, s) && s !in m.states.defaults
      && forall x :: Mentioned(m.transitions, x) && x !in m.states.defaults ==> Below(s, x)
  {
    var ts := TableStates(m.transitions, keys);
    forall x ensures x in ts <==> Mentioned(m.transitions, x) {
      if x in ts {
        var k :| k in keys && x in EdgeStates(m.transitions[k]);
        var e :| e in m.transitions[k] && (x == e.from || x == e.to);
      }
      if Mentioned(m.transitions, x) {
        var k, e :| k in m.transitions && e in m.transitions[k] && (x == e.from || x == e.to);
        assert x in EdgeStates(m.transitions[k]);
      }
    }
  }

  /** With every state defined, the check fails with "undefined event" exactly when the
      table is keyed by an undeclared event, and then reports the least such key. */
  lemma UndefinedEventReported(m: Syntax.Machine, keys: seq<string>)
    requires Model.Enumerates(keys, m.transitions.Keys) && StatesDefined(m)
    ensures Validate(m, keys).Rejected? <==> !EventsDefined(m)
    ensures Validate(m, keys).Rejected? ==>
      var e := Validate(m, keys).error;
      e.UndefinedEvent? && e.event in m.transitions && e.event !in DeclaredEvents(m)
      && forall k :: k in m.transitions && k !in DeclaredEvents(m) ==> Below(e.event, k)
  {
    UndefinedStateReported(m, keys);
  }

  /** The check accepts exactly the machines whose transitions name only declared states
      and declared events; it then hands the machine on unchanged, warning about every
      declared event without an entry (in declaration order) and about every declared
      state no transition names. */
  lemma AcceptedExactly(m: Syntax.Machine, keys: seq<string>)
    requires Model.Enumerates(keys, m.transitions.Keys)
    ensures Validate(m, keys).Accepted? <==> StatesDefined(m) && EventsDefined(m)
    ensures Validate(m, keys).Accepted? ==>
      var (n, w) := Validate(m, keys).value;
      && n == m
      && w.silentEvents == SilentEvents(m.events, m.transitions)
      && (forall x :: x in w.idleStates <==> x in m.states.defaults && !Mentioned(m.transitions, x))
  {
    UndefinedStateReported(m, keys);
    if StatesDefined(m) {
      UndefinedEventReported(m, keys);
    }
  }

  /** A declared event with no transitions, or a state in none, never makes the check fail. */
  lemma WarningsNeverFatal(m: Syntax.Machine, keys: seq<string>, event: string)
    requires Model.Enumerates(keys, m.transitions.Keys) && StatesDefined(m) && EventsDefined(m)
    requires event in DeclaredEvents(m) && event !in m.transitions
    ensures Validate(m, keys).Accepted?
    ensures event in Validate(m, keys).value.1.silentEvents
  {
    AcceptedExactly(m, keys);
  }

  /** The iteration order of the table does not change the outcome. */
  lemma ValidateIgnoresOrder(m: Syntax.Machine, keys1: seq<string>, keys2: seq<string>)
    requires Model.Enumerates(keys1, m.transitions.Keys) && Model.Enumerates(keys2, m.transitions.Keys)
    ensures Validate(m, keys1) == Validate(m, keys2)
  {
    var t1, t2 := TableStates(m.transitions, keys1), TableStates(m.transitions, keys2);
    LeastUndefinedIgnoresOrder(t1, t2, m.states.defaults.Keys);
    LeastUndefinedIgnoresOrder(keys1, keys2, DeclaredEvents(m));
    assert (set x | x in m.states.defaults.Keys && x !in t1) == (set x | x in m.states.defaults.Keys && x !in t2);
  }
}
