/** When method bodies are instrumented and when they are put back. */
module Instrumenter {
  /** A method: module and token. */
  type Key = (nat, nat)

  /** The parts of a method body that the instrumenter saves and writes. */
  datatype Body = Body(code: seq<int>, ehs: seq<int>, maxStack: nat)

  /** What comes back for a method body sent out, and whether it could be set. */
  datatype Reply = NoReply | Rejected(body: Body) | Accepted(body: Body)

  /** Fields of the instrumenter, and the bodies the runtime has. */
  datatype State = State(mainReached: bool, mainLeft: bool, reJitInstrumentedStarted: bool,
                         instrumented: map<Key, Body>, skippedBeforeMain: set<Key>,
                         requests: seq<set<Key>>, bodies: map<Key, Body>)

  datatype Event =
    | Jit(key: Key, isMain: bool, reply: Reply)      // instrument
    | ReJit(key: Key, isMain: bool, reply: Reply, taken: bool)    // reInstrument; taken: a body put back could be set
    | LeaveMain

  function Initial(bodies: map<Key, Body>): State {
    State(false, false, false, map[], {}, [], bodies)
  }

  // ----- the steps -----

  function TrackMethod(s: State, key: Key, reply: Reply): State
    requires key in s.bodies
  {
    if key in s.instrumented then s
    else if s.mainLeft then
      if s.reJitInstrumentedStarted then s
      else s.(reJitInstrumentedStarted := true, requests := s.requests + [s.instrumented.Keys])
    else
      var saved := s.(instrumented := s.instrumented[key := s.bodies[key]]);
      if reply.Accepted? then saved.(bodies := s.bodies[key := reply.body]) else saved
  }

  function OnJit(s: State, key: Key, isMain: bool, reply: Reply): State
    requires key in s.bodies
  {
    var t := if !s.mainReached && isMain then s.(mainReached := true, requests := s.requests + [s.skippedBeforeMain]) else s;
    if t.mainReached then TrackMethod(t, key, reply)
    else t.(skippedBeforeMain := t.skippedBeforeMain + {key})
  }

  /** Puts the saved body back and forgets it, unless the runtime does not take it. */
  function Undo(s: State, key: Key, taken: bool): State {
    if key in s.instrumented && taken then s.(bodies := s.bodies[key := s.instrumented[key]], instrumented := s.instrumented - {key})
    else s
  }

  function Step(s: State, e: Event): State
    requires e.LeaveMain? || e.key in s.bodies
  {
    match e
    case Jit(key, isMain, reply) => OnJit(s, key, isMain, reply)
    case ReJit(key, isMain, reply, taken) => if s.mainLeft then Undo(s, key, taken) else OnJit(s, key, isMain, reply)
    case LeaveMain => s.(mainLeft := true)
  }

  // ----- what holds in every run -----

  /** Untracked methods have their original body, tracked ones have it saved, and
      before main nothing has changed. */
  ghost predicate Inv(original: map<Key, Body>, s: State) {
    && s.bodies.Keys == original.Keys
    && s.instrumented.Keys <= original.Keys
    && (forall k :: k in original && k !in s.instrumented ==> s.bodies[k] == original[k])
    && (forall k :: k in s.instrumented ==> s.instrumented[k] == original[k])
    && (!s.mainReached ==> s.instrumented == map[])
  }

  lemma {:induction false} TrackInv(original: map<Key, Body>, s: State, key: Key, reply: Reply)
    requires Inv(original, s) && key in original && s.mainReached
    ensures Inv(original, TrackMethod(s, key, reply))
  {
    var t := TrackMethod(s, key, reply);
    assert t.bodies.Keys == s.bodies.Keys;
  }

  lemma {:induction false} UndoInv(original: map<Key, Body>, s: State, key: Key, taken: bool)
    requires Inv(original, s) && key in original
    ensures Inv(original, Undo(s, key, taken))
  {
    var t := Undo(s, key, taken);
    assert t.bodies.Keys == s.bodies.Keys;
  }

  lemma {:induction false} StepInv(original: map<Key, Body>, s: State, e: Event)
    requires Inv(original, s) && (e.LeaveMain? || e.key in original)
    ensures Inv(original, Step(s, e))
  {
    hide TrackMethod, Undo;
    if !e.LeaveMain? {
      if e.ReJit? && s.mainLeft {
        UndoInv(original, s, e.key, e.taken);
      } else {
        var t := if !s.mainReached && e.isMain then s.(mainReached := true, requests := s.requests + [s.skippedBeforeMain]) else s;
        assert Inv(original, t);
        if t.mainReached {
          TrackInv(original, t, e.key, e.reply);
        }
      }
    }
  }

  lemma {:induction false} SameMethods(s: State, e: Event)
    requires e.LeaveMain? || e.key in s.bodies
    ensures Step(s, e).bodies.Keys == s.bodies.Keys
  {
    assert !e.LeaveMain? ==> s.bodies.Keys + {e.key} == s.bodies.Keys;
  }

  function RunAll(s: State, es: seq<Event>): (t: State)
    requires forall e :: e in es ==> e.LeaveMain? || e.key in s.bodies
    ensures t.bodies.Keys == s.bodies.Keys
  {
    if es == [] then s
    else
      var u := RunAll(s, es[..|es| - 1]);
      assert es[|es| - 1] in es;
      SameMethods(u, es[|es| - 1]);
      Step(u, es[|es| - 1])
  }

  /** Over every run of compilation events: no body changes before main is
      reached, untracked methods run their original body, and what is saved is
      the original code, clauses and stack size. */
  lemma {:induction false} EveryRunKeepsOriginals(original: map<Key, Body>, es: seq<Event>)
    requires forall e :: e in es ==> e.LeaveMain? || e.key in original
    ensures Inv(original, RunAll(Initial(original), es))
    ensures !RunAll(Initial(original), es).mainReached ==> RunAll(Initial(original), es).bodies == original
  {
    hide Step;
    if es != [] {
      EveryRunKeepsOriginals(original, es[..|es| - 1]);
      assert es[|es| - 1] in es;
      StepInv(original, RunAll(Initial(original), es[..|es| - 1]), es[|es| - 1]);
    }
  }

  /** Recompiling every tracked method once main is left, in any order, restores all of them. */
  lemma {:induction false} UndoAllRestores(original: map<Key, Body>, s: State, keys: seq<Key>)
    requires Inv(original, s) && s.mainLeft && (forall k :: k in s.instrumented ==> k in keys)
    requires forall k :: k in keys ==> k in original
    ensures UndoAll(s, keys).bodies == original && UndoAll(s, keys).instrumented == map[]
    decreases |keys|
  {
    if keys != [] {
      assert keys[0] in keys;
      var t := Step(s, ReJit(keys[0], false, NoReply, true));
      StepInv(original, s, ReJit(keys[0], false, NoReply, true));
      forall k | k in t.instrumented ensures k in keys[1..] {
      }
      UndoAllRestores(original, t, keys[1..]);
    }
  }

  function UndoAll(s: State, keys: seq<Key>): State
    requires forall k :: k in keys ==> k in s.bodies
    decreases |keys|
  {
    if keys == [] then s
    else
      assert keys[0] in keys;
      UndoAll(Step(s, ReJit(keys[0], false, NoReply, true)), keys[1..])
  }

  // ----- after main: the request to recompile what is tracked -----

  /** Once the request is out: main is over, and whatever is still tracked was
      named by the request, which is the last one made. */
  ghost predicate Requested(s: State) {
    && s.reJitInstrumentedStarted && s.mainReached && s.mainLeft
    && s.requests != [] && s.instrumented.Keys <= s.requests[|s.requests| - 1]
  }

  ghost predicate RequestInv(s: State) {
    s.reJitInstrumentedStarted ==> Requested(s)
  }

  /** After the request nothing is tracked any more that was not, nothing is
      requested, and a method recompiled successfully is not tracked. */
  lemma {:induction false} RequestedStep(s: State, e: Event)
    requires Requested(s) && (e.LeaveMain? || e.key in s.bodies)
    ensures var t := Step(s, e);
            && Requested(t) && t.requests == s.requests && t.instrumented.Keys <= s.instrumented.Keys
            && (e.ReJit? && e.taken ==> e.key !in t.instrumented)
  {
  }

  lemma {:induction false} RequestInvStep(s: State, e: Event)
    requires RequestInv(s) && (e.LeaveMain? || e.key in s.bodies)
    ensures RequestInv(Step(s, e))
  {
    if s.reJitInstrumentedStarted {
      RequestedStep(s, e);
    } else {
      var t := Step(s, e);
      if t.reJitInstrumentedStarted {
        assert t.requests[|t.requests| - 1] == s.instrumented.Keys == t.instrumented.Keys;
      }
    }
  }

  lemma {:induction false} RequestInvRun(original: map<Key, Body>, es: seq<Event>)
    requires forall e :: e in es ==> e.LeaveMain? || e.key in original
    ensures RequestInv(RunAll(Initial(original), es))
  {
    hide Step;
    if es != [] {
      RequestInvRun(original, es[..|es| - 1]);
      assert es[|es| - 1] in es;
      RequestInvStep(RunAll(Initial(original), es[..|es| - 1]), es[|es| - 1]);
    }
  }

  predicate Serves(e: Event, k: Key) {
    e.ReJit? && e.key == k && e.taken
  }

  /** Method k has been recompiled. */
  ghost predicate Served(es: seq<Event>, k: Key) {
    exists e :: e in es && Serves(e, k)
  }

  ghost predicate AllServed(asked: set<Key>, es: seq<Event>) {
    forall k :: k in asked ==> Served(es, k)
  }

  lemma {:induction false} RequestedRun(s: State, es: seq<Event>)
    requires Requested(s) && forall e :: e in es ==> e.LeaveMain? || e.key in s.bodies
    ensures var t := RunAll(s, es);
            && Requested(t) && t.requests == s.requests && t.instrumented.Keys <= s.instrumented.Keys
            && forall k, e :: k in t.instrumented && e in es ==> !Serves(e, k)
  {
    hide Step, Requested;
    if es != [] {
      var n := |es| - 1;
      RequestedRun(s, es[..n]);
      assert es[n] in es && es == es[..n] + [es[n]];
      RequestedStep(RunAll(s, es[..n]), es[n]);
    }
  }

  lemma {:induction false} RunAppend(s: State, a: seq<Event>, b: seq<Event>)
    requires forall e :: e in a + b ==> e.LeaveMain? || e.key in s.bodies
    ensures forall e :: e in a ==> e in a + b
    ensures forall e :: e in b ==> e in a + b
    ensures RunAll(s, a + b) == RunAll(RunAll(s, a), b)
    decreases |b|
  {
    hide Step;
    forall e | e in a ensures e in a + b { }
    forall e | e in b ensures e in a + b { }
    if b == [] {
      assert a + b == a;
    } else {
      var n := |b| - 1;
      assert (a + b)[..|a + b| - 1] == a + b[..n] && (a + b)[|a + b| - 1] == b[n];
      RunAppend(s, a, b[..n]);
    }
  }

  /** In every run in which the request was made, once every method it names has been
      recompiled, in any order and with any other events in between, all methods have
      their original body again and none is tracked. */
  lemma {:induction false} RequestRestoresAll(original: map<Key, Body>, before: seq<Event>, after: seq<Event>)
    requires forall e :: e in before ==> e.LeaveMain? || e.key in original
    requires forall e :: e in after ==> e.LeaveMain? || e.key in original
    requires RunAll(Initial(original), before).reJitInstrumentedStarted
    ensures var s, t := RunAll(Initial(original), before), RunAll(Initial(original), before + after);
            && s.requests != [] && t.requests == s.requests && t.instrumented.Keys <= s.instrumented.Keys <= s.requests[|s.requests| - 1]
            && (AllServed(s.requests[|s.requests| - 1], after) ==> t.instrumented == map[] && t.bodies == original)
  {
    hide Step, Serves;
    var s, t := RunAll(Initial(original), before), RunAll(Initial(original), before + after);
    RunAppend(Initial(original), before, after);
    RequestInvRun(original, before);
    RequestedRun(s, after);
    EveryRunKeepsOriginals(original, before + after);
    var asked := s.requests[|s.requests| - 1];
    if AllServed(asked, after) {
      assert forall k :: k in asked ==> Served(after, k);
      assert t.instrumented.Keys == {};
      assert t.bodies == original;
    }
  }

  // ----- the class -----

  class Instrumenter {
    var mainReached: bool
    var mainLeft: bool
    var reJitInstrumentedStarted: bool
    var instrumentedFunctions: map<Key, Body>
    var skippedBeforeMain: set<Key>
    var requests: seq<set<Key>>
    /** What the runtime would compile. */
    var bodies: map<Key, Body>

    ghost function Contents(): State
      reads this
    {
      State(mainReached, mainLeft, reJitInstrumentedStarted, instrumentedFunctions, skippedBeforeMain, requests, bodies)
    }

    constructor (bodies: map<Key, Body>)
      ensures Contents() == Initial(bodies)
    {
      mainReached, mainLeft, reJitInstrumentedStarted := false, false, false;
      instrumentedFunctions, skippedBeforeMain, requests := map[], {}, [];
      this.bodies := bodies;
    }

    /** Sets the body, if the runtime takes it. */
    method ExportIL(key: Key, body: Body, taken: bool) returns (ok: bool)
      modifies this`bodies
      ensures ok == taken && bodies == if taken then old(bodies)[key := body] else old(bodies)
    {
      if taken {
        bodies := bodies[key := body];
      }
      ok := taken;
    }

    method DoInstrumentation(key: Key, reply: Reply)
      requires key in bodies
      modifies this
      ensures Contents() == TrackMethod(old(Contents()), key, reply)
    {
      if key in instrumentedFunctions {
        return;
      }
      if mainLeft {
        if !reJitInstrumentedStarted {
          reJitInstrumentedStarted := true;
          requests := requests + [instrumentedFunctions.Keys];
        }
        return;
      }
      instrumentedFunctions := instrumentedFunctions[key := bodies[key]];
      if reply.NoReply? {
        return;
      }
      var _ := ExportIL(key, reply.body, reply.Accepted?);
    }

    method Instrument(key: Key, isMain: bool, reply: Reply)
      requires key in bodies
      modifies this
      ensures Contents() == Step(old(Contents()), Jit(key, isMain, reply))
    {
      if !mainReached {
        if isMain {
          mainReached := true;
          requests := requests + [skippedBeforeMain];
        }
      }
      if mainReached {
        DoInstrumentation(key, reply);
      } else {
        skippedBeforeMain := skippedBeforeMain + {key};
      }
    }

    /** Puts back exactly the saved code, clauses and stack size; a body the runtime
        does not take stays tracked. */
    method UndoInstrumentation(key: Key, taken: bool)
      requires key in bodies
      modifies this
      ensures Contents() == Undo(old(Contents()), key, taken)
    {
      if key in instrumentedFunctions {
        var ok := ExportIL(key, instrumentedFunctions[key], taken);
        if !ok { return; }
        instrumentedFunctions := instrumentedFunctions - {key};
      }
    }

    method ReInstrument(key: Key, isMain: bool, reply: Reply, taken: bool)
      requires key in bodies
      modifies this
      ensures Contents() == Step(old(Contents()), ReJit(key, isMain, reply, taken))
    {
      if mainLeft {
        UndoInstrumentation(key, taken);
      } else {
        Instrument(key, isMain, reply);
      }
    }
  }
}
