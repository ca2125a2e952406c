/** The state of the instrumenter read off the events so far: which methods are
    tracked, which body each one has and which recompilations were requested. */
module History {
  import opened Instrumenter

  // Each predicate speaks of the first n events of a run, or of event number i.

  ghost predicate Left(es: seq<Event>, n: nat)
    requires n <= |es|
  {
    exists i :: 0 <= i < n && es[i].LeaveMain?
  }

  /** Event i compiles a method with a view to instrumenting it. */
  ghost predicate Compiles(es: seq<Event>, i: nat)
    requires i < |es|
  {
    es[i].Jit? || (es[i].ReJit? && !Left(es, i))
  }

  ghost predicate ReachesMain(es: seq<Event>, i: nat)
    requires i < |es|
  {
    Compiles(es, i) && es[i].isMain
  }

  ghost predicate Reached(es: seq<Event>, n: nat)
    requires n <= |es|
  {
    exists i: nat :: i < n && ReachesMain(es, i)
  }

  /** Event i compiles k while main is running. */
  ghost predicate Instruments(es: seq<Event>, i: nat, k: Key)
    requires i < |es|
  {
    Compiles(es, i) && es[i].key == k && Reached(es, i + 1) && !Left(es, i)
  }

  ghost predicate Instrumented(es: seq<Event>, n: nat, k: Key)
    requires n <= |es|
  {
    exists i: nat :: i < n && Instruments(es, i, k)
  }

  /** Event i recompiles k after main, and the runtime takes the body. */
  ghost predicate Undoes(es: seq<Event>, i: nat, k: Key)
    requires i < |es|
  {
    es[i].ReJit? && es[i].key == k && es[i].taken && Left(es, i)
  }

  ghost predicate Undone(es: seq<Event>, n: nat, k: Key)
    requires n <= |es|
  {
    exists i: nat :: i < n && Undoes(es, i, k)
  }

  ghost predicate IsTracked(es: seq<Event>, n: nat, k: Key)
    requires n <= |es|
  {
    Instrumented(es, n, k) && !Undone(es, n, k)
  }

  /** Event i compiles k before main is reached. */
  ghost predicate Skips(es: seq<Event>, i: nat, k: Key)
    requires i < |es|
  {
    Compiles(es, i) && es[i].key == k && !Reached(es, i + 1)
  }

  ghost predicate Skipped(es: seq<Event>, n: nat, k: Key)
    requires n <= |es|
  {
    exists i: nat :: i < n && Skips(es, i, k)
  }

  /** Event i compiles, after main, a method that is not tracked. */
  ghost predicate Asks(es: seq<Event>, i: nat)
    requires i < |es|
  {
    es[i].Jit? && Reached(es, i + 1) && Left(es, i) && !IsTracked(es, i, es[i].key)
  }

  ghost predicate Asked(es: seq<Event>, n: nat)
    requires n <= |es|
  {
    exists i: nat :: i < n && Asks(es, i)
  }

  ghost predicate Known(original: map<Key, Body>, es: seq<Event>) {
    forall i :: 0 <= i < |es| ==> es[i].LeaveMain? || es[i].key in original
  }

  /** The state after n events. */
  ghost function After(original: map<Key, Body>, es: seq<Event>, n: nat): State
    requires Known(original, es) && n <= |es|
  {
    RunAll(Initial(original), es[..n])
  }

  lemma {:induction false} NextState(original: map<Key, Body>, es: seq<Event>, n: nat)
    requires Known(original, es) && n < |es|
    ensures es[n].LeaveMain? || es[n].key in After(original, es, n).bodies
    ensures After(original, es, n + 1) == Step(After(original, es, n), es[n])
  {
    hide Step;
    assert es[..n + 1][..n] == es[..n] && es[..n + 1][n] == es[n];
  }

  lemma {:induction false} FirstState(original: map<Key, Body>, es: seq<Event>)
    requires Known(original, es)
    ensures After(original, es, 0) == Initial(original)
  {
  }

  // ----- main -----

  lemma {:induction false} MainNext(es: seq<Event>, n: nat)
    requires n < |es|
    ensures Left(es, n + 1) <==> Left(es, n) || es[n].LeaveMain?
    ensures Reached(es, n + 1) <==> Reached(es, n) || ReachesMain(es, n)
  {
    hide ReachesMain;
    if Left(es, n) {
      var i :| 0 <= i < n && es[i].LeaveMain?;
      assert es[i].LeaveMain?;
    }
  }

  lemma {:induction false} MainIs(original: map<Key, Body>, es: seq<Event>, n: nat)
    requires Known(original, es) && n <= |es|
    ensures var s := After(original, es, n); (s.mainLeft <==> Left(es, n)) && (s.mainReached <==> Reached(es, n))
  {
    hide After, Left, Reached;
    if n == 0 {
      FirstState(original, es);
      NothingYet(es);
    } else {
      MainIs(original, es, n - 1);
      NextState(original, es, n - 1);
      MainNext(es, n - 1);
    }
  }

  lemma {:induction false} NothingYet(es: seq<Event>)
    ensures !Left(es, 0) && !Reached(es, 0)
  {
  }

  // ----- tracked methods and their bodies -----

  lemma {:induction false} TrackedNext(es: seq<Event>, n: nat, k: Key)
    requires n < |es|
    ensures Instrumented(es, n + 1, k) <==> Instrumented(es, n, k) || Instruments(es, n, k)
    ensures Undone(es, n + 1, k) <==> Undone(es, n, k) || Undoes(es, n, k)
  {
    hide Instruments, Undoes;
  }

  /** Nothing is instrumented any more once something could have been undone. */
  lemma {:induction false} UndoneIsLeft(es: seq<Event>, n: nat, k: Key)
    requires n <= |es| && Undone(es, n, k)
    ensures Left(es, n)
  {
    var i: nat :| i < n && Undoes(es, i, k);
    var j :| 0 <= j < i && es[j].LeaveMain?;
    assert es[j].LeaveMain?;
  }

  /** What one event does to method k. */
  lemma {:induction false} OneMethod(s: State, e: Event, k: Key)
    requires e.LeaveMain? || e.key in s.bodies
    ensures var t := Step(s, e);
      var reached := s.mainReached || (!e.LeaveMain? && e.isMain);
      if !e.LeaveMain? && e.key == k && (e.Jit? || !s.mainLeft) && reached && !s.mainLeft && k !in s.instrumented then
        k in t.instrumented && k in t.bodies && k in s.bodies
        && t.bodies[k] == if e.reply.Accepted? then e.reply.body else s.bodies[k]
      else if e.ReJit? && e.key == k && e.taken && s.mainLeft then
        k !in t.instrumented
      else (k in t.instrumented <==> k in s.instrumented) && (k in t.bodies <==> k in s.bodies) && (k in s.bodies ==> t.bodies[k] == s.bodies[k])
  {
  }

  /** A method is tracked exactly if it was compiled between reaching and leaving main
      and has not been recompiled successfully since. */
  lemma {:induction false} TrackedIs(original: map<Key, Body>, es: seq<Event>, n: nat, k: Key)
    requires Known(original, es) && n <= |es|
    ensures k in After(original, es, n).instrumented <==> IsTracked(es, n, k)
  {
    hide After, Step, Left, Reached, Instrumented, Undone;
    if n == 0 {
      FirstState(original, es);
      NoneYet(es, k);
    } else {
      var m := n - 1;
      TrackedIs(original, es, m, k);
      NextState(original, es, m);
      MainIs(original, es, m);
      MainNext(es, m);
      TrackedNext(es, m, k);
      OneMethod(After(original, es, m), es[m], k);
      if Undone(es, m, k) {
        UndoneIsLeft(es, m, k);
      }
    }
  }

  lemma {:induction false} NoneYet(es: seq<Event>, k: Key)
    ensures !Instrumented(es, 0, k) && !Undone(es, 0, k) && !Skipped(es, 0, k) && !Asked(es, 0)
  {
  }

  /** Event i is the first to instrument k. */
  ghost predicate FirstFor(es: seq<Event>, i: nat, k: Key)
    requires i < |es|
  {
    Instruments(es, i, k) && !Instrumented(es, i, k)
  }

  /** A method has the body accepted when it was first instrumented, and in all other
      cases its original one: not instrumented, no body accepted, or undone. */
  lemma {:induction false} BodyIs(original: map<Key, Body>, es: seq<Event>, n: nat, k: Key)
    requires Known(original, es) && n <= |es| && k in original
    ensures k in After(original, es, n).bodies
    ensures !Instrumented(es, n, k) || Undone(es, n, k) ==> After(original, es, n).bodies[k] == original[k]
    ensures forall i: nat :: i < n && FirstFor(es, i, k) && !Undone(es, n, k) ==>
              After(original, es, n).bodies[k] == if es[i].reply.Accepted? then es[i].reply.body else original[k]
  {
    hide After, Step, Left, Reached, Instrumented, Undone, Undoes;
    BodyKept(original, es, n, k);
    TrackedIs(original, es, n, k);
    forall i: nat | i < n && FirstFor(es, i, k) && !Undone(es, n, k)
      ensures After(original, es, n).bodies[k] == if es[i].reply.Accepted? then es[i].reply.body else original[k]
    {
      BodyAccepted(original, es, i, n, k);
    }
  }

  lemma {:induction false} BodyKept(original: map<Key, Body>, es: seq<Event>, n: nat, k: Key)
    requires Known(original, es) && n <= |es| && k in original
    ensures var s := After(original, es, n); k in s.bodies && (k !in s.instrumented ==> s.bodies[k] == original[k])
  {
    hide Step;
    forall e | e in es[..n] ensures e.LeaveMain? || e.key in original { }
    EveryRunKeepsOriginals(original, es[..n]);
  }

  /** The body stays from the event that sets it until it is undone. */
  lemma {:induction false} BodyAccepted(original: map<Key, Body>, es: seq<Event>, i: nat, n: nat, k: Key)
    requires Known(original, es) && i < n <= |es| && k in original && FirstFor(es, i, k) && !Undone(es, n, k)
    ensures var s := After(original, es, n);
      k in s.bodies && s.bodies[k] == if es[i].reply.Accepted? then es[i].reply.body else original[k]
    decreases n
  {
    hide After, Step, Left, Reached, Instrumented, Undone;
    var m := n - 1;
    BodyKept(original, es, m, k);
    NextState(original, es, m);
    MainIs(original, es, m);
    MainNext(es, m);
    TrackedIs(original, es, m, k);
    TrackedNext(es, m, k);
    OneMethod(After(original, es, m), es[m], k);
    if i < m {
      BodyAccepted(original, es, i, m, k);
      StaysInstrumented(es, i, m, k);
    }
  }

  lemma {:induction false} StaysInstrumented(es: seq<Event>, i: nat, n: nat, k: Key)
    requires i < n <= |es| && Instruments(es, i, k)
    ensures Instrumented(es, n, k)
  {
  }

  /** In particular, a body accepted for a method that was not yet tracked, after main
      was reached and before it was left, is installed, and stays so with the method
      tracked until a recompilation after main is taken. */
  lemma {:induction false} AcceptedIsInstalled(original: map<Key, Body>, es: seq<Event>, i: nat, n: nat)
    requires Known(original, es) && i < n <= |es|
    requires Compiles(es, i) && es[i].reply.Accepted? && Reached(es, i + 1) && !Left(es, i)
    requires es[i].key !in After(original, es, i).instrumented
    requires forall j :: i < j < n && es[j].ReJit? && es[j].key == es[i].key && es[j].taken ==> !Left(es, j)
    ensures var s, k := After(original, es, n), es[i].key; k in s.instrumented && k in s.bodies && s.bodies[k] == es[i].reply.body
  {
    hide After, Left, Reached, Instrumented, Undone;
    var k := es[i].key;
    TrackedIs(original, es, i, k);
    if Undone(es, i, k) {
      UndoneIsLeft(es, i, k);
    }
    NotUndone(es, i, n, k);
    StaysInstrumented(es, i, n, k);
    TrackedIs(original, es, n, k);
    BodyAccepted(original, es, i, n, k);
  }

  lemma {:induction false} NotUndone(es: seq<Event>, i: nat, n: nat, k: Key)
    requires i < n <= |es| && !Undone(es, i, k) && !Left(es, i)
    requires forall j :: i < j < n && es[j].ReJit? && es[j].key == k && es[j].taken ==> !Left(es, j)
    ensures !Undone(es, n, k)
  {
    hide Left;
    if Undone(es, n, k) {
      var j: nat :| j < n && Undoes(es, j, k);
    }
  }

  // ----- requests -----

  lemma {:induction false} RequestsNext(es: seq<Event>, n: nat)
    requires n < |es|
    ensures forall k :: Skipped(es, n + 1, k) <==> Skipped(es, n, k) || Skips(es, n, k)
    ensures Asked(es, n + 1) <==> Asked(es, n) || Asks(es, n)
  {
    hide Skips, Asks;
  }

  /** Exactly the methods compiled before main was reached are remembered. */
  lemma {:induction false} SkippedIs(original: map<Key, Body>, es: seq<Event>, n: nat, k: Key)
    requires Known(original, es) && n <= |es|
    ensures k in After(original, es, n).skippedBeforeMain <==> Skipped(es, n, k)
  {
    hide After, Left, Reached, Skipped, Asked;
    if n == 0 {
      FirstState(original, es);
      NoneYet(es, k);
    } else {
      SkippedIs(original, es, n - 1, k);
      NextState(original, es, n - 1);
      MainIs(original, es, n - 1);
      MainNext(es, n - 1);
      RequestsNext(es, n - 1);
    }
  }

  /** What one event requests. */
  lemma {:induction false} OneRequest(s: State, e: Event)
    requires e.LeaveMain? || e.key in s.bodies
    ensures var t := Step(s, e);
      var reaches := !s.mainReached && !e.LeaveMain? && (e.Jit? || !s.mainLeft) && e.isMain;
      var asks := e.Jit? && (s.mainReached || e.isMain) && s.mainLeft && e.key !in s.instrumented && !s.reJitInstrumentedStarted;
      && t.requests == s.requests + (if reaches then [s.skippedBeforeMain] else []) + (if asks then [s.instrumented.Keys] else [])
      && (t.reJitInstrumentedStarted <==> s.reJitInstrumentedStarted || asks)
  {
  }

  ghost predicate SkippedAre(es: seq<Event>, n: nat, r: set<Key>)
    requires n <= |es|
  {
    forall k :: k in r <==> Skipped(es, n, k)
  }

  ghost predicate TrackedAre(es: seq<Event>, n: nat, r: set<Key>)
    requires n <= |es|
  {
    forall k :: k in r <==> IsTracked(es, n, k)
  }

  ghost predicate RequestsOk(es: seq<Event>, n: nat, requests: seq<set<Key>>)
    requires n <= |es|
  {
    && |requests| == (if Reached(es, n) then 1 else 0) + (if Asked(es, n) then 1 else 0)
    && (Asked(es, n) ==> Reached(es, n))
    && (Reached(es, n) ==> SkippedAre(es, n, requests[0]))
    && (forall i: nat :: i < n && Asks(es, i) && !Asked(es, i) ==> Asked(es, n) && TrackedAre(es, i, requests[1]))
  }

  /** Reaching main requests the methods compiled before; the first compilation of an
      untracked method after main requests those tracked at that moment. Nothing else
      is ever requested. */
  lemma {:induction false} RequestsAre(original: map<Key, Body>, es: seq<Event>, n: nat)
    requires Known(original, es) && n <= |es|
    ensures var s := After(original, es, n); RequestsOk(es, n, s.requests) && (s.reJitInstrumentedStarted <==> Asked(es, n))
  {
    hide After, Left, Reached, Skipped, Asked, IsTracked, Asks, Step, SkippedAre, TrackedAre;
    if n == 0 {
      FirstState(original, es);
      NothingYet(es);
      NoneYet(es, (0, 0));
    } else {
      var m := n - 1;
      var s := After(original, es, m);
      RequestsAre(original, es, m);
      NextState(original, es, m);
      MainIs(original, es, m);
      MainNext(es, m);
      RequestsNext(es, m);
      if Reached(es, n) {
        SkippedStay(es, m);
      }
      OneRequest(s, es[m]);
      AsksIs(original, es, m);
      assert SkippedAre(es, m, s.skippedBeforeMain) by { AllSkipped(original, es, m); }
      assert TrackedAre(es, m, s.instrumented.Keys) by { AllTracked(original, es, m); }
    }
  }

  lemma {:induction false} AsksIs(original: map<Key, Body>, es: seq<Event>, n: nat)
    requires Known(original, es) && n < |es|
    ensures var s, e := After(original, es, n), es[n];
      Asks(es, n) <==> e.Jit? && (s.mainReached || e.isMain) && s.mainLeft && e.key !in s.instrumented
  {
    hide After, Left, Reached, IsTracked, Step;
    MainIs(original, es, n);
    MainNext(es, n);
    if !es[n].LeaveMain? {
      TrackedIs(original, es, n, es[n].key);
    }
  }

  lemma {:induction false} AllSkipped(original: map<Key, Body>, es: seq<Event>, n: nat)
    requires Known(original, es) && n <= |es|
    ensures SkippedAre(es, n, After(original, es, n).skippedBeforeMain)
  {
    hide After, Skipped;
    forall k ensures k in After(original, es, n).skippedBeforeMain <==> Skipped(es, n, k) {
      SkippedIs(original, es, n, k);
    }
  }

  lemma {:induction false} AllTracked(original: map<Key, Body>, es: seq<Event>, n: nat)
    requires Known(original, es) && n <= |es|
    ensures TrackedAre(es, n, After(original, es, n).instrumented.Keys)
  {
    hide After, IsTracked;
    forall k ensures k in After(original, es, n).instrumented <==> IsTracked(es, n, k) {
      TrackedIs(original, es, n, k);
    }
  }

  /** Nothing more is skipped from the event on that reaches main. */
  lemma {:induction false} SkippedStay(es: seq<Event>, n: nat)
    requires n < |es| && Reached(es, n + 1)
    ensures forall r :: SkippedAre(es, n, r) <==> SkippedAre(es, n + 1, r)
  {
    hide Skipped, Reached;
    RequestsNext(es, n);
    forall k ensures Skipped(es, n + 1, k) <==> Skipped(es, n, k) {
      assert Skipped(es, n + 1, k) <==> Skipped(es, n, k) || Skips(es, n, k);
    }
  }
}
