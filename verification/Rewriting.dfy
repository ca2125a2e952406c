/** Which probes RewriteIL inserts, where and in which order. */
module Rewriting {
  import opened Opcodes
  import opened Layout
  import opened Splice

  datatype Probes = Probes(coverage: ProbeCall, stsfld: ProbeCall, branch: ProbeCall, enter: ProbeCall,
                           enterMain: ProbeCall, leave: ProbeCall, leaveMain: ProbeCall, call: ProbeCall,
                           tailcall: ProbeCall, throw: ProbeCall)

  datatype Setup = Setup(probes: Probes, methodId: int, isMain: bool)
  {
    function Enter(): ProbeCall { if isMain then probes.enterMain else probes.enter }
    function Leave(): ProbeCall { if isMain then probes.leaveMain else probes.leave }
  }

  datatype Insertion = Insertion(id: nat, probe: ProbeCall, before: bool, offset: nat)

  function EditOf(u: Setup, n: Insertion): Edit {
    var body := CoverageBody(n.offset, u.methodId, n.probe);
    if n.before then Before(n.id, body) else After(n.id, body)
  }

  /** Offset recorded for an original node: a tail. prefix takes that of its ret. */
  function NodeOffset(orig: Code, i: nat): nat
    requires i < |orig|
  {
    if orig[i].op == TAILCALL && i + 2 <= |orig| then Offset(orig, i + 2) else Offset(orig, i)
  }

  /** The new nodes for the tail. prefixes, in list order. */
  function Splits(orig: Code, i: nat): seq<Edit>
    requires i <= |orig|
    decreases |orig| - i
  {
    if i == |orig| then []
    else if orig[i].op == TAILCALL then [Split(i)] + Splits(orig, i + 1)
    else Splits(orig, i + 1)
  }

  /** The probes one instruction asks for. After a tail. its call and ret get none of their own. */
  function Wanted(orig: Code, u: Setup, i: nat, tail: bool, next: nat): seq<Insertion>
    requires i < |orig|
  {
    var op, o := orig[i].op, Offset(orig, i);
    if IsBranch(op) then [Insertion(i, u.probes.branch, true, o)]
    else if op == STSFLD then
      (if i > 0 && IsPrefix(orig[i - 1].op) then [Insertion(i - 1, u.probes.stsfld, true, NodeOffset(orig, i - 1))]
       else [Insertion(i, u.probes.stsfld, true, o)])
    else if op == TAILCALL then
      [Insertion(next, u.probes.tailcall, true, Offset(orig, i + 1)),
       Insertion(i, u.probes.coverage, true, NodeOffset(orig, i))]
    else if IsCall(op) then (if tail then [] else [Insertion(i, u.probes.call, false, o)])
    else if op == RET then (if tail then [] else [Insertion(i, u.Leave(), true, o)])
    else if op == ENDFINALLY || op == ENDFILTER then [Insertion(i, u.probes.coverage, true, o)]
    else if op == THROW || op == RETHROW then [Insertion(i, u.probes.throw, true, o)]
    else []
  }

  function TailAfter(op: nat, tail: bool): bool {
    if op == TAILCALL then true else if op == RET then false else tail
  }

  /** The first loop of RewriteIL from instruction i on. */
  function Priority(orig: Code, u: Setup, i: nat, tail: bool, next: nat): seq<Insertion>
    requires i <= |orig|
    decreases |orig| - i
  {
    if i == |orig| then []
    else
      Wanted(orig, u, i, tail, next)
      + Priority(orig, u, i + 1, TailAfter(orig[i].op, tail), if orig[i].op == TAILCALL then next + 1 else next)
  }

  function Handlers(orig: Code, u: Setup, eh: seq<Clause>): (r: seq<Insertion>)
    ensures |r| == |eh|
  {
    seq(|eh|, k requires 0 <= k < |eh| =>
      Insertion(eh[k].handlerBegin, u.probes.throw, true,
                if eh[k].handlerBegin < |orig| then NodeOffset(orig, eh[k].handlerBegin) else 0))
  }

  function TableLength(orig: Code, i: nat): (n: nat)
    requires i < |orig|
    ensures i + n < |orig|
  {
    if 0 <= orig[i].arg < |orig| - i then orig[i].arg else 0
  }

  /** Branch targets in the order they are collected. */
  function TargetsAt(orig: Code, i: nat): (r: seq<nat>)
    requires i < |orig|
  {
    if orig[i].op == SWITCH then
      seq<nat>(TableLength(orig, i), k requires 0 <= k < TableLength(orig, i) => orig[i + 1 + k].target)
    else if IsBranch(orig[i].op) then [orig[i].target]
    else []
  }

  function Targets(orig: Code, i: nat): seq<nat>
    requires i <= |orig|
    decreases |orig| - i
  {
    if i == |orig| then [] else TargetsAt(orig, i) + Targets(orig, i + 1)
  }

  /** Probes at the ends of the blocks in front of branch targets, one per offset not yet covered. */
  function Cover(orig: Code, u: Setup, ts: seq<nat>, covered: set<nat>): seq<Insertion> {
    if ts == [] then []
    else if ts[0] == 0 || ts[0] > |orig| || NodeOffset(orig, ts[0] - 1) in covered then Cover(orig, u, ts[1..], covered)
    else
      var o := NodeOffset(orig, ts[0] - 1);
      [Insertion(ts[0] - 1, u.probes.coverage, false, o)] + Cover(orig, u, ts[1..], covered + {o})
  }

  function First(orig: Code, u: Setup, eh: seq<Clause>): seq<Insertion> {
    Priority(orig, u, 0, false, |orig| + 1) + Handlers(orig, u, eh)
  }

  function OffsetsOf(ns: seq<Insertion>): set<nat> {
    set n | n in ns :: n.offset
  }

  function Insertions(orig: Code, u: Setup, eh: seq<Clause>): seq<Insertion> {
    var first := First(orig, u, eh);
    first + Cover(orig, u, Targets(orig, 0), OffsetsOf(first))
  }

  function EditsOf(u: Setup, ns: seq<Insertion>): (es: seq<Edit>)
    ensures |es| == |ns|
  {
    seq(|ns|, k requires 0 <= k < |ns| => EditOf(u, ns[k]))
  }

  function ApplyAll(orig: Code, b: Body, es: seq<Edit>): Body
    decreases |es|
  {
    if es == [] then b
    else if Where(b.items, es[0].id) >= |b.items| then ApplyAll(orig, b, es[1..])
    else ApplyAll(orig, Apply(orig, b, es[0]), es[1..])
  }

  /** The list that RewriteIL hands to Export. */
  function Rewrite(orig: Code, eh: seq<Clause>, maxStack: nat, u: Setup): Body
    requires |orig| > 0
  {
    var b := ApplyAll(orig, Imported(orig, eh, maxStack), Splits(orig, 0) + EditsOf(u, Insertions(orig, u, eh)));
    Enter(b, EnterBody(NodeOffset(orig, 0), u.methodId, u.Enter()))
  }

  lemma {:induction false} SplitsOnly(orig: Code, i: nat)
    requires i <= |orig|
    ensures forall e :: e in Splits(orig, i) ==> e.Split?
    decreases |orig| - i
  {
    if i < |orig| {
      SplitsOnly(orig, i + 1);
    }
  }

  // ----- the bodies RewriteIL is meant for -----

  /** Opcodes that get a probe in front of them. */
  predicate ProbedBefore(op: nat) {
    IsBranch(op) || op == TAILCALL || op == RET || op == ENDFINALLY || op == ENDFILTER || op == THROW || op == RETHROW
  }

  /** A prefix stands directly before an instruction it may modify, and tail.
      is followed by its call and a ret. */
  predicate PrefixOk(orig: Code, i: nat)
    requires i < |orig|
  {
    && (IsPrefix(orig[i].op) ==> i + 1 < |orig| && !ProbedBefore(orig[i + 1].op)
                                 && (orig[i + 1].op == STSFLD ==> !Glued(orig, i)))
    && (orig[i].op == TAILCALL ==> i + 2 < |orig| && !Glued(orig, i) && IsCall(orig[i + 1].op) && orig[i + 2].op == RET)
  }

  /** Branches lead to instructions, not into a switch table or behind a prefix. */
  predicate TargetOk(orig: Code, t: nat) {
    t <= |orig| && (t < |orig| ==> orig[t].op != SWITCH_ARG) && (0 < t ==> !IsPrefix(orig[t - 1].op))
  }

  predicate TableOk(orig: Code, i: nat)
    requires i < |orig|
  {
    && (orig[i].op == SWITCH_ARG ==> i > 0 && (orig[i - 1].op == SWITCH || orig[i - 1].op == SWITCH_ARG))
    && (orig[i].op == SWITCH ==> 0 <= orig[i].arg < |orig| - i
                                 && (forall j :: i < j <= i + orig[i].arg ==> orig[j].op == SWITCH_ARG))
  }

  predicate ClauseOk(orig: Code, k: Clause) {
    && ClauseInRange(|orig|, k)
    && !Glued(orig, k.handlerBegin)
    && orig[k.handlerEnd].op != TAILCALL
  }

  ghost predicate Instrumentable(orig: Code, eh: seq<Clause>) {
    && |orig| > 0 && WellFormed(orig)
    && (forall i :: 0 <= i < |orig| ==> PrefixOk(orig, i) && TableOk(orig, i))
    && (forall i :: 0 <= i < |orig| && HasTarget(orig[i].op) ==> TargetOk(orig, orig[i].target))
    && (forall k :: 0 <= k < |eh| ==> ClauseOk(orig, eh[k]))
  }

  // ----- every edit of the plan is allowed -----

  /** Ids an edit may name: original nodes, and the nodes added for tail. prefixes. */
  predicate Planned(orig: Code, eh: seq<Clause>, tails: nat, e: Edit) {
    match e
    case Split(id) => id < |orig| && !Glued(orig, id) && forall k :: 0 <= k < |eh| ==> eh[k].handlerEnd != id
    case Before(id, _) => (id < |orig| && !Glued(orig, id)) || |orig| < id <= |orig| + tails
    case After(id, _) => id < |orig| && !Glued(orig, id + 1)
  }

  ghost predicate Present(items: seq<Item>, n: nat, tails: nat) {
    forall id :: n < id <= n + tails ==> Where(items, id) < |items|
  }

  lemma {:induction false} PlannedIsAllowed(orig: Code, eh: seq<Clause>, b: Body, tails: nat, e: Edit)
    requires Inv(orig, eh, b) && Present(b.items, |orig|, tails) && Planned(orig, eh, tails, e)
    requires e.Split? ==> b.eh == eh
    ensures Where(b.items, e.id) < |b.items| && Allowed(orig, b, e)
  {
    hide Where, Rank, ClauseKept, Glued;
    if e.id < |orig| {
      assert AnchoredAt(b.items, e.id);
    }
    var a := Where(b.items, e.id);
    if b.items[a].Keep? {
      KeepsInRange(orig, b.items, a);
    }
  }

  lemma {:induction false} StaysPresent(orig: Code, eh: seq<Clause>, b: Body, e: Edit, tails: nat)
    requires Inv(orig, eh, b) && Where(b.items, e.id) < |b.items| && Present(b.items, |orig|, tails)
    ensures Present(Apply(orig, b, e).items, |orig|, tails)
    ensures b.next == |orig| + 1 + tails ==> Present(Apply(orig, b, e).items, |orig|, tails + 1)
  {
    hide Where, Rank, ClauseKept, Replacement;
    var a := Where(b.items, e.id);
    var r := Replacement(b.items[a], e, b.next);
    var t := Apply(orig, b, e).items;
    ReplacementShape(b.items[a], e, b.next);
    assert Edited(orig, b, e, a, r, t);
    forall id | |orig| < id <= |orig| + tails ensures Where(t, id) < |t| {
      OldId(orig, b, e, a, r, t, id);
    }
    NewId(orig, b, e, a, r, t);
  }

  lemma {:induction false} ApplyAllInv(orig: Code, eh: seq<Clause>, b: Body, es: seq<Edit>, tails: nat)
    requires Inv(orig, eh, b) && Present(b.items, |orig|, tails)
    requires forall e :: e in es ==> Planned(orig, eh, tails, e) && !e.Split?
    ensures Inv(orig, eh, ApplyAll(orig, b, es))
    decreases |es|
  {
    hide Inv, Where, Present, Planned, Allowed, Apply;
    if es != [] {
      PlannedIsAllowed(orig, eh, b, tails, es[0]);
      EditKeepsInv(orig, eh, b, es[0]);
      StaysPresent(orig, eh, b, es[0], tails);
      ApplyAllInv(orig, eh, Apply(orig, b, es[0]), es[1..], tails);
    }
  }

  function Tails(orig: Code, i: nat): nat
    requires i <= |orig|
  {
    if i == 0 then 0 else Tails(orig, i - 1) + if orig[i - 1].op == TAILCALL then 1 else 0
  }

  /** The id of the node that a tail. prefix moves to. */
  function TailNode(orig: Code, j: nat): nat
    requires j <= |orig|
  {
    |orig| + 1 + Tails(orig, j)
  }

  /** The node a tail. prefix moved to stands behind the emptied one, with nothing
      but inserted nodes in between. */
  ghost predicate TailAnchored(orig: Code, items: seq<Item>, j: nat)
    requires j < |orig|
  {
    var w := Where(items, TailNode(orig, j));
    Where(items, j) < w < |items| && Rank(items, w) == j
  }

  ghost predicate TailsAnchored(orig: Code, items: seq<Item>, i: nat)
    requires i <= |orig|
  {
    forall j :: 0 <= j < i && orig[j].op == TAILCALL ==> TailAnchored(orig, items, j)
  }

  lemma {:induction false} TailStaysAnchored(orig: Code, eh: seq<Clause>, b: Body, e: Edit, j: nat)
    requires Inv(orig, eh, b) && Where(b.items, e.id) < |b.items| && j < |orig| && TailAnchored(orig, b.items, j)
    ensures TailAnchored(orig, Apply(orig, b, e).items, j)
  {
    hide Where, Rank, ClauseKept, Replacement, ErasesTo, Unbroken, Anchored, TailNode;
    var a := Where(b.items, e.id);
    var r := Replacement(b.items[a], e, b.next);
    var t := Apply(orig, b, e).items;
    ReplacementShape(b.items[a], e, b.next);
    assert Edited(orig, b, e, a, r, t);
    OldId(orig, b, e, a, r, t, j);
    OldId(orig, b, e, a, r, t, TailNode(orig, j));
  }

  lemma {:induction false} SplitAnchors(orig: Code, eh: seq<Clause>, b: Body, i: nat)
    requires Inv(orig, eh, b) && i < |orig| && Where(b.items, i) < |b.items| && b.next == TailNode(orig, i)
    ensures TailAnchored(orig, Apply(orig, b, Split(i)).items, i)
  {
    hide Where, Rank, ClauseKept, ErasesTo, Unbroken, TailNode;
    var e := Split(i);
    var a := Where(b.items, i);
    var r := Replacement(b.items[a], e, b.next);
    var t := Apply(orig, b, e).items;
    ReplacementShape(b.items[a], e, b.next);
    assert Edited(orig, b, e, a, r, t);
    assert AnchoredAt(b.items, i);
    OldId(orig, b, e, a, r, t, i);
    NewId(orig, b, e, a, r, t);
    RankInside(b.items, a, r, t, 1);
    assert Rank(r, 1) == 0 by { SplitRank(b.items[a], i, b.next); }
  }

  lemma {:induction false} SplitRank(x: Item, i: nat, n: nat)
    requires !x.Probe?
    ensures Rank(Replacement(x, Split(i), n), 1) == 0
  {
    var r := Replacement(x, Split(i), n);
    assert Rank(r, 0) == 0;
  }

  lemma {:induction false} SplitsInv(orig: Code, eh: seq<Clause>, b: Body, i: nat)
    requires Instrumentable(orig, eh) && i <= |orig|
    requires Inv(orig, eh, b) && b.eh == eh && b.next == |orig| + 1 + Tails(orig, i) && Present(b.items, |orig|, Tails(orig, i))
    requires TailsAnchored(orig, b.items, i)
    ensures var c := ApplyAll(orig, b, Splits(orig, i));
            && Inv(orig, eh, c) && Present(c.items, |orig|, Tails(orig, |orig|)) && TailsAnchored(orig, c.items, |orig|)
            && forall j :: 0 <= j < |orig| && orig[j].op != TAILCALL && Unmoved(b.items, j) ==> Unmoved(c.items, j)
    decreases |orig| - i
  {
    hide Inv, Where, Present, Allowed, Replacement, Glued, Unmoved, TailAnchored;
    if i < |orig| {
      if orig[i].op == TAILCALL {
        SplitStep(orig, eh, b, i);
        var b' := Apply(orig, b, Split(i));
        assert Splits(orig, i)[1..] == Splits(orig, i + 1);
        SplitsInv(orig, eh, b', i + 1);
      } else {
        SplitsInv(orig, eh, b, i + 1);
      }
    }
  }

  /** Splitting off one more prefix. */
  lemma {:induction false} SplitStep(orig: Code, eh: seq<Clause>, b: Body, i: nat)
    requires Instrumentable(orig, eh) && i < |orig| && orig[i].op == TAILCALL
    requires Inv(orig, eh, b) && b.eh == eh && b.next == |orig| + 1 + Tails(orig, i) && Present(b.items, |orig|, Tails(orig, i))
    requires TailsAnchored(orig, b.items, i)
    ensures Where(b.items, i) < |b.items|
    ensures var b' := Apply(orig, b, Split(i));
            && Inv(orig, eh, b') && b'.eh == eh && b'.next == |orig| + 1 + Tails(orig, i + 1) && Present(b'.items, |orig|, Tails(orig, i + 1))
            && TailsAnchored(orig, b'.items, i + 1)
            && forall j :: 0 <= j < |orig| && orig[j].op != TAILCALL && Unmoved(b.items, j) ==> Unmoved(b'.items, j)
  {
    hide Inv, Where, Present, Allowed, Replacement, Glued, Unmoved, TailAnchored;
    assert PrefixOk(orig, i);
    forall k | 0 <= k < |eh| ensures eh[k].handlerEnd != i {
      assert ClauseOk(orig, eh[k]);
    }
    var e := Split(i);
    PlannedIsAllowed(orig, eh, b, Tails(orig, i), e);
    EditKeepsInv(orig, eh, b, e);
    StaysPresent(orig, eh, b, e, Tails(orig, i));
    var b' := Apply(orig, b, e);
    assert b'.eh == eh;
    forall j | 0 <= j < |orig| && orig[j].op != TAILCALL && Unmoved(b.items, j) ensures Unmoved(b'.items, j) {
      StaysUnmoved(orig, eh, b, e, j);
    }
    forall j | 0 <= j < i && orig[j].op == TAILCALL ensures TailAnchored(orig, b'.items, j) {
      TailStaysAnchored(orig, eh, b, e, j);
    }
    SplitAnchors(orig, eh, b, i);
  }

  lemma {:induction false} ApplyAllAppend(orig: Code, b: Body, es: seq<Edit>, fs: seq<Edit>)
    ensures ApplyAll(orig, b, es + fs) == ApplyAll(orig, ApplyAll(orig, b, es), fs)
    decreases |es|
  {
    hide Apply, Where;
    if es == [] {
      assert es + fs == fs;
    } else {
      assert (es + fs)[1..] == es[1..] + fs;
      if Where(b.items, es[0].id) >= |b.items| {
        ApplyAllAppend(orig, b, es[1..], fs);
      } else {
        ApplyAllAppend(orig, Apply(orig, b, es[0]), es[1..], fs);
      }
    }
  }

  // ----- the plan itself -----

  /** Inside RewriteIL's first loop the tail flag is set exactly behind a tail. prefix. */
  predicate TailFlag(orig: Code, i: nat, tail: bool)
    requires i <= |orig|
  {
    tail == ((i > 0 && orig[i - 1].op == TAILCALL) || (i > 1 && orig[i - 2].op == TAILCALL))
  }

  lemma {:induction false} TailFlagStep(orig: Code, eh: seq<Clause>, i: nat, tail: bool)
    requires Instrumentable(orig, eh) && i < |orig| && TailFlag(orig, i, tail)
    ensures TailFlag(orig, i + 1, TailAfter(orig[i].op, tail))
  {
    hide WellFormed, ClauseOk, TargetOk;
    assert PrefixOk(orig, i);
    if i > 0 {
      assert PrefixOk(orig, i - 1);
    }
    if i > 1 {
      assert PrefixOk(orig, i - 2);
    }
  }

  lemma {:induction false} WantedPlanned(orig: Code, eh: seq<Clause>, u: Setup, i: nat, tail: bool)
    requires Instrumentable(orig, eh) && i < |orig| && TailFlag(orig, i, tail)
    ensures forall n :: n in Wanted(orig, u, i, tail, |orig| + 1 + Tails(orig, i)) ==>
              Planned(orig, eh, Tails(orig, i + 1), EditOf(u, n))
  {
    hide WellFormed, ClauseOk, TargetOk, Offset, CoverageBody;
    assert PrefixOk(orig, i) && TableOk(orig, i);
    if i > 0 {
      assert PrefixOk(orig, i - 1);
    }
    if i > 1 {
      assert PrefixOk(orig, i - 2);
    }
    if i + 1 < |orig| {
      assert TableOk(orig, i + 1);
    }
  }

  lemma {:induction false} TailsGrow(orig: Code, i: nat, j: nat)
    requires i <= j <= |orig|
    ensures Tails(orig, i) <= Tails(orig, j)
  {
    if i < j {
      TailsGrow(orig, i, j - 1);
    }
  }

  lemma {:induction false} PriorityPlanned(orig: Code, eh: seq<Clause>, u: Setup, i: nat, tail: bool)
    requires Instrumentable(orig, eh) && i <= |orig| && TailFlag(orig, i, tail)
    ensures forall n :: n in Priority(orig, u, i, tail, |orig| + 1 + Tails(orig, i)) ==>
              Planned(orig, eh, Tails(orig, |orig|), EditOf(u, n))
    decreases |orig| - i
  {
    hide Instrumentable, Wanted, EditOf, TailFlag, TailAfter, Glued;
    if i < |orig| {
      WantedPlanned(orig, eh, u, i, tail);
      TailsGrow(orig, i + 1, |orig|);
      TailFlagStep(orig, eh, i, tail);
      PriorityPlanned(orig, eh, u, i + 1, TailAfter(orig[i].op, tail));
    }
  }

  /** Every tail. prefix leaves the offsets of its call and its ret covered. */
  lemma {:induction false} TailCovered(orig: Code, u: Setup, i: nat, tail: bool, next: nat, j: nat)
    requires i <= j < |orig| && orig[j].op == TAILCALL
    ensures Offset(orig, j + 1) in OffsetsOf(Priority(orig, u, i, tail, next))
    decreases |orig| - i
  {
    hide Offset;
    var rest := Priority(orig, u, i + 1, TailAfter(orig[i].op, tail), if orig[i].op == TAILCALL then next + 1 else next);
    var all := Priority(orig, u, i, tail, next);
    if i < j {
      TailCovered(orig, u, i + 1, TailAfter(orig[i].op, tail), if orig[i].op == TAILCALL then next + 1 else next, j);
      var n :| n in rest && n.offset == Offset(orig, j + 1);
      assert n in all;
    } else {
      assert all[0].offset == Offset(orig, j + 1) && all[0] in all;
    }
  }

  lemma {:induction false} TargetsOk(orig: Code, eh: seq<Clause>, i: nat)
    requires Instrumentable(orig, eh) && i <= |orig|
    ensures forall t :: t in Targets(orig, i) ==> TargetOk(orig, t)
    decreases |orig| - i
  {
    hide TargetOk;
    if i < |orig| {
      TargetsOk(orig, eh, i + 1);
      assert TableOk(orig, i);
      forall t | t in TargetsAt(orig, i) ensures TargetOk(orig, t) {
      }
    }
  }

  lemma {:induction false} CoverPlanned(orig: Code, eh: seq<Clause>, u: Setup, tails: nat, ts: seq<nat>, covered: set<nat>)
    requires Instrumentable(orig, eh)
    requires forall t :: t in ts ==> TargetOk(orig, t)
    requires forall j :: 0 <= j < |orig| && orig[j].op == TAILCALL ==> Offset(orig, j + 1) in covered
    ensures forall n :: n in Cover(orig, u, ts, covered) ==> Planned(orig, eh, tails, EditOf(u, n))
    decreases |ts|
  {
    hide Offset, CoverageBody, WellFormed, ClauseOk;
    if ts != [] {
      var t := ts[0];
      assert TargetOk(orig, t);
      if t == 0 || NodeOffset(orig, t - 1) in covered {
        CoverPlanned(orig, eh, u, tails, ts[1..], covered);
      } else {
        var o := NodeOffset(orig, t - 1);
        CoverPlanned(orig, eh, u, tails, ts[1..], covered + {o});
        assert orig[t - 1].op != TAILCALL;
        assert t > 1 ==> orig[t - 2].op != TAILCALL;
        assert Planned(orig, eh, tails, EditOf(u, Insertion(t - 1, u.probes.coverage, false, o)));
      }
    }
  }

  lemma {:induction false} InsertionsPlanned(orig: Code, eh: seq<Clause>, u: Setup)
    requires Instrumentable(orig, eh)
    ensures forall n :: n in Insertions(orig, u, eh) ==> Planned(orig, eh, Tails(orig, |orig|), EditOf(u, n))
  {
    hide Priority, Cover, Planned, EditOf, WellFormed, PrefixOk, TargetOk, TableOk, Offset;
    var tails := Tails(orig, |orig|);
    PriorityPlanned(orig, eh, u, 0, false);
    var p, h := Priority(orig, u, 0, false, |orig| + 1), Handlers(orig, u, eh);
    forall n | n in h ensures Planned(orig, eh, tails, EditOf(u, n)) {
      var k :| 0 <= k < |h| && h[k] == n;
      assert ClauseOk(orig, eh[k]);
      HandlerPlanned(orig, eh, u, tails, n);
    }
    var first := First(orig, u, eh);
    forall j | 0 <= j < |orig| && orig[j].op == TAILCALL ensures Offset(orig, j + 1) in OffsetsOf(first) {
      TailCovered(orig, u, 0, false, |orig| + 1, j);
      var n :| n in p && n.offset == Offset(orig, j + 1);
      assert n in first;
    }
    TargetsOk(orig, eh, 0);
    CoverPlanned(orig, eh, u, tails, Targets(orig, 0), OffsetsOf(first));
  }

  lemma {:induction false} HandlerPlanned(orig: Code, eh: seq<Clause>, u: Setup, tails: nat, n: Insertion)
    requires n.before && n.id < |orig| && !Glued(orig, n.id)
    ensures Planned(orig, eh, tails, EditOf(u, n))
  {
  }

  /** The list once the nodes for tail. prefixes are in. */
  function Prepared(orig: Code, eh: seq<Clause>, maxStack: nat): Body {
    ApplyAll(orig, Imported(orig, eh, maxStack), Splits(orig, 0))
  }

  lemma {:induction false} PreparedInv(orig: Code, eh: seq<Clause>, maxStack: nat)
    requires Instrumentable(orig, eh)
    ensures var b := Prepared(orig, eh, maxStack);
            && Inv(orig, eh, b) && Present(b.items, |orig|, Tails(orig, |orig|)) && TailsAnchored(orig, b.items, |orig|)
            && forall j :: 0 <= j < |orig| && orig[j].op != TAILCALL ==> Unmoved(b.items, j)
  {
    hide Inv, Splits, WellFormed, PrefixOk, TargetOk, TableOk;
    var b0 := Imported(orig, eh, maxStack);
    assert !Glued(orig, 0) by { assert TableOk(orig, 0); FirstNotGlued(orig); }
    assert forall k :: 0 <= k < |eh| ==> ClauseInRange(|orig|, eh[k]) by {
      forall k | 0 <= k < |eh| ensures ClauseInRange(|orig|, eh[k]) { assert ClauseOk(orig, eh[k]); }
    }
    ImportedInv(orig, eh, maxStack);
    forall j | 0 <= j < |orig| ensures Unmoved(b0.items, j) {
      assert b0.items[j] == Keep(j, j);
    }
    SplitsInv(orig, eh, b0, 0);
  }

  lemma {:induction false} PlanPlanned(orig: Code, eh: seq<Clause>, u: Setup)
    requires Instrumentable(orig, eh)
    ensures forall e :: e in EditsOf(u, Insertions(orig, u, eh)) ==> Planned(orig, eh, Tails(orig, |orig|), e) && !e.Split?
  {
    hide Instrumentable, Planned, Insertions, EditOf;
    var es := EditsOf(u, Insertions(orig, u, eh));
    InsertionsPlanned(orig, eh, u);
    forall e | e in es ensures Planned(orig, eh, Tails(orig, |orig|), e) && !e.Split? {
      var k :| 0 <= k < |es| && es[k] == e;
      assert Insertions(orig, u, eh)[k] in Insertions(orig, u, eh);
      NoSplit(u, Insertions(orig, u, eh)[k]);
    }
  }

  lemma {:induction false} RewriteIs(orig: Code, eh: seq<Clause>, maxStack: nat, u: Setup)
    requires |orig| > 0
    ensures Rewrite(orig, eh, maxStack, u)
            == Enter(ApplyAll(orig, Prepared(orig, eh, maxStack), EditsOf(u, Insertions(orig, u, eh))),
                     EnterBody(NodeOffset(orig, 0), u.methodId, u.Enter()))
  {
    hide ApplyAll, Insertions, Splits;
    ApplyAllAppend(orig, Imported(orig, eh, maxStack), Splits(orig, 0), EditsOf(u, Insertions(orig, u, eh)));
  }

  /** The rewritten list: the original instructions in order, every branch and
      clause bound still leading to its instruction, prefixes and tables unbroken. */
  lemma {:induction false} RewriteInv(orig: Code, eh: seq<Clause>, maxStack: nat, u: Setup)
    requires Instrumentable(orig, eh)
    ensures Inv(orig, eh, Rewrite(orig, eh, maxStack, u))
  {
    hide Inv, Planned, Insertions, Splits, EditOf, WellFormed, PrefixOk, TargetOk, TableOk, Unmoved, Prepared;
    PreparedInv(orig, eh, maxStack);
    PlanPlanned(orig, eh, u);
    var b1, es := Prepared(orig, eh, maxStack), EditsOf(u, Insertions(orig, u, eh));
    ApplyAllInv(orig, eh, b1, es, Tails(orig, |orig|));
    assert !Glued(orig, 0) by { assert TableOk(orig, 0); FirstNotGlued(orig); }
    EnterKeepsInv(orig, eh, ApplyAll(orig, b1, es), EnterBody(NodeOffset(orig, 0), u.methodId, u.Enter()));
    RewriteIs(orig, eh, maxStack, u);
  }

  lemma {:induction false} FirstNotGlued(orig: Code)
    requires |orig| > 0 && TableOk(orig, 0)
    ensures !Glued(orig, 0)
  {
  }

  lemma {:induction false} NoSplit(u: Setup, n: Insertion)
    ensures !EditOf(u, n).Split?
  {
  }

  // ----- the offsets the probes report -----

  /** The insertion reports the offset of the node it names. */
  ghost predicate Sourced(orig: Code, n: Insertion) {
    if n.id < |orig| then n.offset == NodeOffset(orig, n.id)
    else exists j :: 0 <= j < |orig| && orig[j].op == TAILCALL && n.id == TailNode(orig, j) && n.offset == Offset(orig, j + 1)
  }

  // ----- every planned probe is on the paths it is meant for -----

  /** A probe that control entering at original node i runs before instruction i. If
      that is a tail. prefix, the probe stands in front of the node it moved to. */
  ghost predicate RunsBefore(orig: Code, items: seq<Item>, body: seq<Instr>, i: nat)
    requires i < |orig|
  {
    exists a :: Where(items, i) < a < |items| && items[a] == Probe(body) && Rank(items, a) == i
                && (orig[i].op == TAILCALL ==> a < Where(items, TailNode(orig, i)) < |items|)
  }

  /** A probe on the node that tail. prefix j moved to: control entering at j runs it
      before the prefix, behind the probes of node j itself. */
  ghost predicate RunsLast(orig: Code, items: seq<Item>, body: seq<Instr>, j: nat)
    requires j < |orig|
  {
    var w := Where(items, TailNode(orig, j));
    Where(items, j) < w && exists a :: w < a < |items| && items[a] == Probe(body) && Rank(items, a) == j
  }

  /** A probe between instruction i and the node of the next one: control falling
      through from i runs it, control branching to i + 1 does not. */
  ghost predicate RunsAfter(n: nat, items: seq<Item>, body: seq<Instr>, i: nat) {
    exists a :: 0 <= a < |items| && items[a] == Probe(body) && Rank(items, a) == i + 1
                && (i + 1 < n ==> a < Where(items, i + 1))
  }

  ghost predicate Placed(orig: Code, items: seq<Item>, e: Edit) {
    && (e.Before? && e.id < |orig| ==> RunsBefore(orig, items, e.body, e.id))
    && (e.Before? && e.id >= |orig| ==>
          exists j :: 0 <= j < |orig| && orig[j].op == TAILCALL && e.id == TailNode(orig, j) && RunsLast(orig, items, e.body, j))
    && (e.After? ==> RunsAfter(|orig|, items, e.body, e.id))
  }

  /** An edit in terms of the place it is made at. */
  lemma {:induction false} EditAt(orig: Code, eh: seq<Clause>, b: Body, e: Edit) returns (a: nat, r: seq<Item>, t: seq<Item>)
    requires Inv(orig, eh, b) && Where(b.items, e.id) < |b.items|
    ensures a == Where(b.items, e.id) && t == Apply(orig, b, e).items && Edited(orig, b, e, a, r, t) && 2 <= |r| <= 3
    ensures !e.Split? ==> |r| == 3 && a + 1 < |t| && t[a + 1] == Probe(e.body) && Rank(t, a + 1) == Rank(b.items, a) + if e.After? && b.items[a].Keep? then 1 else 0
    ensures Anchored(orig, b.items)
  {
    hide Where, Rank, ClauseKept, Replacement, ErasesTo, Unbroken, UniqueIds, CorrectHandlers, EditPushes, Anchored;
    a := Where(b.items, e.id);
    r := Replacement(b.items[a], e, b.next);
    t := Apply(orig, b, e).items;
    ReplacementShape(b.items[a], e, b.next);
    assert Edited(orig, b, e, a, r, t);
    if !e.Split? {
      ProbeInside(b.items[a], e, b.next);
      assert t[a + 1] == r[1];
      RankInside(b.items, a, r, t, 1);
    }
  }

  /** A probe in front of an original node. */
  lemma {:induction false} PlacesBefore(orig: Code, eh: seq<Clause>, b: Body, e: Edit)
    requires Inv(orig, eh, b) && e.Before? && e.id < |orig| && (orig[e.id].op == TAILCALL ==> TailAnchored(orig, b.items, e.id))
    requires Where(b.items, e.id) < |b.items|
    ensures RunsBefore(orig, Apply(orig, b, e).items, e.body, e.id)
  {
    hide Inv, Where, Rank, Apply, Edited, Replacement, TailNode;
    var a, r, t := EditAt(orig, eh, b, e);
    assert AnchoredAt(b.items, e.id);
    assert t[a + 1] == Probe(e.body);
    OldId(orig, b, e, a, r, t, e.id);
    if orig[e.id].op == TAILCALL {
      OldId(orig, b, e, a, r, t, TailNode(orig, e.id));
    }
  }

  /** A probe in front of the node a tail. prefix moved to. */
  lemma {:induction false} PlacesLast(orig: Code, eh: seq<Clause>, b: Body, e: Edit, j: nat)
    requires Inv(orig, eh, b) && e.Before? && j < |orig| && TailAnchored(orig, b.items, j) && e.id == TailNode(orig, j)
    ensures RunsLast(orig, Apply(orig, b, e).items, e.body, j)
  {
    hide Inv, Where, Rank, Apply, Edited, Replacement, TailNode;
    var a, r, t := EditAt(orig, eh, b, e);
    assert t[a + 1] == Probe(e.body);
    OldId(orig, b, e, a, r, t, e.id);
    OldId(orig, b, e, a, r, t, j);
  }

  /** A probe behind an original instruction. */
  lemma {:induction false} PlacesAfter(orig: Code, eh: seq<Clause>, b: Body, e: Edit)
    requires Inv(orig, eh, b) && e.After? && e.id < |orig| && Where(b.items, e.id) < |b.items| && b.items[Where(b.items, e.id)].Keep?
    ensures RunsAfter(|orig|, Apply(orig, b, e).items, e.body, e.id)
  {
    hide Inv, Where, Rank, Apply, Edited, Replacement;
    var a, r, t := EditAt(orig, eh, b, e);
    assert AnchoredAt(b.items, e.id);
    assert t[a + 1] == Probe(e.body);
    if e.id + 1 < |orig| {
      assert AnchoredAt(b.items, e.id + 1);
      OldId(orig, b, e, a, r, t, e.id + 1);
      var c := Where(b.items, e.id + 1);
      if c <= a {
        RankMonotone(b.items, c, a);
      }
    }
  }

  /** What an edit is for: an original node, or the new node of a tail. prefix. */
  ghost predicate Meant(orig: Code, e: Edit) {
    e.Before? && e.id >= |orig| ==> exists j :: 0 <= j < |orig| && orig[j].op == TAILCALL && e.id == TailNode(orig, j)
  }

  lemma {:induction false} EditPlaces(orig: Code, eh: seq<Clause>, b: Body, e: Edit)
    requires Inv(orig, eh, b) && Allowed(orig, b, e) && TailsAnchored(orig, b.items, |orig|) && Meant(orig, e)
    requires e.Before? || (e.After? && e.id < |orig| && b.items[Where(b.items, e.id)].Keep?)
    ensures Placed(orig, Apply(orig, b, e).items, e)
  {
    hide Inv, Where, Apply, RunsBefore, RunsLast, RunsAfter, TailAnchored, TailNode;
    if e.After? {
      PlacesAfter(orig, eh, b, e);
    } else if e.id < |orig| {
      PlacesBefore(orig, eh, b, e);
    } else {
      var j :| 0 <= j < |orig| && orig[j].op == TAILCALL && e.id == TailNode(orig, j);
      PlacesLast(orig, eh, b, e, j);
    }
  }

  lemma {:induction false} ProbeInside(x: Item, e: Edit, n: nat)
    requires !x.Probe? && !e.Split?
    ensures var r := Replacement(x, e, n); |r| == 3 && r[1] == Probe(e.body)
    ensures Rank(Replacement(x, e, n), 1) == if e.After? && x.Keep? then 1 else 0
  {
    var r := Replacement(x, e, n);
    assert Rank(r, 1) == Rank(r, 0) + if r[0].Keep? then 1 else 0;
  }

  lemma {:induction false} StaysBefore(orig: Code, eh: seq<Clause>, b: Body, e: Edit, body: seq<Instr>, i: nat)
    requires Inv(orig, eh, b) && Where(b.items, e.id) < |b.items| && i < |orig| && RunsBefore(orig, b.items, body, i)
    ensures RunsBefore(orig, Apply(orig, b, e).items, body, i)
  {
    hide Inv, Where, Rank, Replacement, UniqueIds, Apply, TailNode;
    var a, r, t := EditAt(orig, eh, b, e);
    var c :| Where(b.items, i) < c < |b.items| && b.items[c] == Probe(body) && Rank(b.items, c) == i
             && (orig[i].op == TAILCALL ==> c < Where(b.items, TailNode(orig, i)) < |b.items|);
    RankKept(b.items, a, r, t, c);
    OldId(orig, b, e, a, r, t, i);
    if orig[i].op == TAILCALL {
      OldId(orig, b, e, a, r, t, TailNode(orig, i));
    }
    assert t[NewPlace(a, |r| - 1, c)] == Probe(body);
  }

  lemma {:induction false} StaysLast(orig: Code, eh: seq<Clause>, b: Body, e: Edit, body: seq<Instr>, j: nat)
    requires Inv(orig, eh, b) && Where(b.items, e.id) < |b.items| && j < |orig| && RunsLast(orig, b.items, body, j)
    ensures RunsLast(orig, Apply(orig, b, e).items, body, j)
  {
    hide Inv, Where, Rank, Replacement, UniqueIds, Apply, TailNode;
    var a, r, t := EditAt(orig, eh, b, e);
    var c :| Where(b.items, TailNode(orig, j)) < c < |b.items| && b.items[c] == Probe(body) && Rank(b.items, c) == j;
    RankKept(b.items, a, r, t, c);
    OldId(orig, b, e, a, r, t, j);
    OldId(orig, b, e, a, r, t, TailNode(orig, j));
    assert t[NewPlace(a, |r| - 1, c)] == Probe(body);
  }

  lemma {:induction false} StaysAfter(orig: Code, eh: seq<Clause>, b: Body, e: Edit, body: seq<Instr>, i: nat)
    requires Inv(orig, eh, b) && Where(b.items, e.id) < |b.items| && RunsAfter(|orig|, b.items, body, i)
    ensures RunsAfter(|orig|, Apply(orig, b, e).items, body, i)
  {
    hide Inv, Where, Rank, Replacement, UniqueIds, Apply;
    var a, r, t := EditAt(orig, eh, b, e);
    var c :| 0 <= c < |b.items| && b.items[c] == Probe(body) && Rank(b.items, c) == i + 1
             && (i + 1 < |orig| ==> c < Where(b.items, i + 1));
    RankKept(b.items, a, r, t, c);
    if i + 1 < |orig| {
      assert AnchoredAt(b.items, i + 1);
      OldId(orig, b, e, a, r, t, i + 1);
    }
    assert t[NewPlace(a, |r| - 1, c)] == Probe(body);
  }

  lemma {:induction false} StaysPlaced(orig: Code, eh: seq<Clause>, b: Body, e: Edit, f: Edit)
    requires Inv(orig, eh, b) && Where(b.items, e.id) < |b.items| && Placed(orig, b.items, f)
    ensures Placed(orig, Apply(orig, b, e).items, f)
  {
    hide Inv, Where, Apply, RunsBefore, RunsLast, RunsAfter, TailNode;
    if f.After? {
      StaysAfter(orig, eh, b, e, f.body, f.id);
    } else if f.Before? {
      if f.id < |orig| {
        StaysBefore(orig, eh, b, e, f.body, f.id);
      } else {
        var j :| 0 <= j < |orig| && orig[j].op == TAILCALL && f.id == TailNode(orig, j) && RunsLast(orig, b.items, f.body, j);
        StaysLast(orig, eh, b, e, f.body, j);
      }
    }
  }

  /** Instructions whose own node never gets a probe in front of it keep their node. */
  ghost predicate Unmoved(items: seq<Item>, i: nat) {
    exists a :: 0 <= a < |items| && items[a] == Keep(i, i)
  }

  lemma {:induction false} StaysUnmoved(orig: Code, eh: seq<Clause>, b: Body, e: Edit, i: nat)
    requires Inv(orig, eh, b) && Where(b.items, e.id) < |b.items| && Unmoved(b.items, i)
    requires e.id != i || e.After?
    ensures Unmoved(Apply(orig, b, e).items, i)
  {
    hide Where, Rank, ClauseKept, Replacement;
    var a := Where(b.items, e.id);
    var r := Replacement(b.items[a], e, b.next);
    var t := Apply(orig, b, e).items;
    ReplacementShape(b.items[a], e, b.next);
    var c :| 0 <= c < |b.items| && b.items[c] == Keep(i, i);
    if c == a {
      assert t[a] == r[0] == b.items[a];
    } else {
      RankKept(b.items, a, r, t, c);
    }
  }

  lemma {:induction false} ApplyAllPlaced(orig: Code, eh: seq<Clause>, b: Body, es: seq<Edit>, tails: nat, f: Edit)
    requires Inv(orig, eh, b) && Present(b.items, |orig|, tails) && Placed(orig, b.items, f)
    requires forall e :: e in es ==> Planned(orig, eh, tails, e) && !e.Split?
    ensures Placed(orig, ApplyAll(orig, b, es).items, f)
    decreases |es|
  {
    hide Inv, Where, Present, Planned, Allowed, Apply, Placed;
    if es != [] {
      PlannedIsAllowed(orig, eh, b, tails, es[0]);
      EditKeepsInv(orig, eh, b, es[0]);
      StaysPresent(orig, eh, b, es[0], tails);
      StaysPlaced(orig, eh, b, es[0], f);
      ApplyAllPlaced(orig, eh, Apply(orig, b, es[0]), es[1..], tails, f);
    }
  }

  lemma {:induction false} ApplyAllUnmoved(orig: Code, eh: seq<Clause>, b: Body, es: seq<Edit>, tails: nat, i: nat)
    requires Inv(orig, eh, b) && Present(b.items, |orig|, tails) && Unmoved(b.items, i)
    requires forall e :: e in es ==> Planned(orig, eh, tails, e) && !e.Split? && (e.id != i || e.After?)
    ensures var c := ApplyAll(orig, b, es);
            Inv(orig, eh, c) && Present(c.items, |orig|, tails) && Unmoved(c.items, i)
    decreases |es|
  {
    hide Inv, Where, Present, Planned, Allowed, Apply, Unmoved;
    if es != [] {
      PlannedIsAllowed(orig, eh, b, tails, es[0]);
      EditKeepsInv(orig, eh, b, es[0]);
      StaysPresent(orig, eh, b, es[0], tails);
      StaysUnmoved(orig, eh, b, es[0], i);
      ApplyAllUnmoved(orig, eh, Apply(orig, b, es[0]), es[1..], tails, i);
    }
  }

  lemma {:induction false} ApplyAllPresent(orig: Code, eh: seq<Clause>, b: Body, es: seq<Edit>, tails: nat)
    requires Inv(orig, eh, b) && Present(b.items, |orig|, tails) && TailsAnchored(orig, b.items, |orig|)
    requires forall e :: e in es ==> Planned(orig, eh, tails, e) && !e.Split?
    ensures Present(ApplyAll(orig, b, es).items, |orig|, tails) && TailsAnchored(orig, ApplyAll(orig, b, es).items, |orig|)
    decreases |es|
  {
    hide Inv, Where, Present, Planned, Allowed, Apply, TailAnchored;
    if es != [] {
      PlannedIsAllowed(orig, eh, b, tails, es[0]);
      EditKeepsInv(orig, eh, b, es[0]);
      StaysPresent(orig, eh, b, es[0], tails);
      var b' := Apply(orig, b, es[0]);
      forall j | 0 <= j < |orig| && orig[j].op == TAILCALL ensures TailAnchored(orig, b'.items, j) {
        TailStaysAnchored(orig, eh, b, es[0], j);
      }
      ApplyAllPresent(orig, eh, b', es[1..], tails);
    }
  }

  /** What the first loop asks for on an original node carries that node's offset,
      and only calls get their probe behind them. */
  predicate WellAimed(orig: Code, n: Insertion) {
    && (n.id < |orig| ==> n.offset == NodeOffset(orig, n.id))
    && (n.id < |orig| && n.before ==> !IsCall(orig[n.id].op))
    && (!n.before ==> n.id < |orig| && IsCall(orig[n.id].op))
  }

  lemma {:induction false} PriorityAimed(orig: Code, eh: seq<Clause>, u: Setup, i: nat, tail: bool, next: nat)
    requires Instrumentable(orig, eh) && i <= |orig| < next
    ensures forall n :: n in Priority(orig, u, i, tail, next) ==> WellAimed(orig, n)
    decreases |orig| - i
  {
    hide WellFormed, ClauseOk, TargetOk, Offset;
    if i < |orig| {
      assert PrefixOk(orig, i);
      PriorityAimed(orig, eh, u, i + 1, TailAfter(orig[i].op, tail), if orig[i].op == TAILCALL then next + 1 else next);
      assert forall n :: n in Wanted(orig, u, i, tail, next) ==> WellAimed(orig, n);
    }
  }

  lemma {:induction false} CoverAimed(orig: Code, u: Setup, ts: seq<nat>, covered: set<nat>)
    ensures forall n :: n in Cover(orig, u, ts, covered) ==>
              !n.before && n.id < |orig| && n.offset == NodeOffset(orig, n.id) && n.offset !in covered
    decreases |ts|
  {
    hide NodeOffset;
    if ts != [] {
      if !(ts[0] == 0 || ts[0] > |orig| || NodeOffset(orig, ts[0] - 1) in covered) {
        CoverAimed(orig, u, ts[1..], covered + {NodeOffset(orig, ts[0] - 1)});
      } else {
        CoverAimed(orig, u, ts[1..], covered);
      }
    }
  }

  /** When a probe goes behind an instruction, nothing was put in front of it before. */
  lemma {:induction false} AfterFirst(orig: Code, eh: seq<Clause>, u: Setup, k: nat, j: nat)
    requires Instrumentable(orig, eh) && j < k < |Insertions(orig, u, eh)| && !Insertions(orig, u, eh)[k].before
    ensures var ns := Insertions(orig, u, eh); ns[j].id != ns[k].id || !ns[j].before
  {
    hide Priority, Cover, Targets, NodeOffset, WellFormed, PrefixOk, TargetOk, TableOk;
    var p, h, first := Priority(orig, u, 0, false, |orig| + 1), Handlers(orig, u, eh), First(orig, u, eh);
    var cov := Cover(orig, u, Targets(orig, 0), OffsetsOf(first));
    var ns := Insertions(orig, u, eh);
    PriorityAimed(orig, eh, u, 0, false, |orig| + 1);
    FirstAimed(orig, eh, u);
    CoverAimed(orig, u, Targets(orig, 0), OffsetsOf(first));
    assert forall i :: |p| <= i < |first| ==> first[i].before;
    assert forall i :: 0 <= i < |first| ==> ns[i] == first[i];
    assert j < |first| ==> ns[j] == first[j] && first[j] in first && ns[j].offset in OffsetsOf(first);
    assert k >= |first| ==> ns[k] == cov[k - |first|];
    if k < |p| {
      assert ns[k] == p[k] && ns[j] == p[j];
      assert WellAimed(orig, p[k]) && WellAimed(orig, p[j]);
    } else if j >= |first| {
      assert ns[j] == cov[j - |first|];
    }
  }

  lemma {:induction false} FirstAimed(orig: Code, eh: seq<Clause>, u: Setup)
    requires Instrumentable(orig, eh)
    ensures forall n :: n in First(orig, u, eh) && n.id < |orig| ==> n.offset == NodeOffset(orig, n.id)
  {
    hide NodeOffset, Priority;
    PriorityAimed(orig, eh, u, 0, false, |orig| + 1);
  }

  lemma {:induction false} TailSourced(orig: Code, u: Setup, i: nat, tail: bool)
    requires i <= |orig|
    ensures forall n :: n in Priority(orig, u, i, tail, TailNode(orig, i)) && n.id >= |orig| ==> Sourced(orig, n)
    decreases |orig| - i
  {
    hide NodeOffset, Offset, Wanted, Sourced, TailAfter;
    if i < |orig| {
      TailSourced(orig, u, i + 1, TailAfter(orig[i].op, tail));
      assert TailNode(orig, i + 1) == TailNode(orig, i) + if orig[i].op == TAILCALL then 1 else 0;
      WantedSourced(orig, u, i, tail);
    }
  }

  lemma {:induction false} WantedSourced(orig: Code, u: Setup, i: nat, tail: bool)
    requires i < |orig|
    ensures forall n :: n in Wanted(orig, u, i, tail, TailNode(orig, i)) && n.id >= |orig| ==> Sourced(orig, n)
  {
    hide NodeOffset, Offset, Tails;
    if orig[i].op == TAILCALL {
      assert Sourced(orig, Wanted(orig, u, i, tail, TailNode(orig, i))[0]);
    }
  }

  lemma {:induction false} InsertionsSourced(orig: Code, eh: seq<Clause>, u: Setup)
    requires Instrumentable(orig, eh)
    ensures forall n :: n in Insertions(orig, u, eh) ==> Sourced(orig, n)
  {
    hide NodeOffset, Offset, Priority, Cover, Targets, Instrumentable;
    FirstAimed(orig, eh, u);
    assert TailNode(orig, 0) == |orig| + 1;
    TailSourced(orig, u, 0, false);
    CoverAimed(orig, u, Targets(orig, 0), OffsetsOf(First(orig, u, eh)));
    HandlersInside(orig, eh, u);
  }

  lemma {:induction false} HandlersInside(orig: Code, eh: seq<Clause>, u: Setup)
    requires Instrumentable(orig, eh)
    ensures forall n :: n in Handlers(orig, u, eh) ==> n.id < |orig|
  {
    hide NodeOffset;
    forall k | 0 <= k < |eh| ensures eh[k].handlerBegin < |orig| {
      assert ClauseOk(orig, eh[k]);
    }
  }

  lemma {:induction false} EnterPlaced(orig: Code, b: Body, body: seq<Instr>, f: Edit)
    requires Placed(orig, b.items, f)
    ensures Placed(orig, Enter(b, body).items, f)
  {
    hide Where, Rank, TailNode, RunsLast;
    var t := Enter(b, body).items;
    if f.Before? && f.id < |orig| {
      var c :| Where(b.items, f.id) < c < |b.items| && b.items[c] == Probe(f.body) && Rank(b.items, c) == f.id
               && (orig[f.id].op == TAILCALL ==> c < Where(b.items, TailNode(orig, f.id)) < |b.items|);
      EnterRank(b.items, body, c);
      EnterWhere(b.items, body, f.id);
      EnterWhere(b.items, body, TailNode(orig, f.id));
      assert t[c + 1] == Probe(f.body);
    } else if f.Before? {
      var j :| 0 <= j < |orig| && orig[j].op == TAILCALL && f.id == TailNode(orig, j) && RunsLast(orig, b.items, f.body, j);
      EnterLast(orig, b, body, f.body, j);
    } else if f.After? {
      var c :| 0 <= c < |b.items| && b.items[c] == Probe(f.body) && Rank(b.items, c) == f.id + 1
               && (f.id + 1 < |orig| ==> c < Where(b.items, f.id + 1));
      EnterRank(b.items, body, c);
      EnterWhere(b.items, body, f.id + 1);
      assert t[c + 1] == Probe(f.body);
    }
  }

  lemma {:induction false} EnterLast(orig: Code, b: Body, enter: seq<Instr>, body: seq<Instr>, j: nat)
    requires j < |orig| && RunsLast(orig, b.items, body, j)
    ensures RunsLast(orig, Enter(b, enter).items, body, j)
  {
    hide Where, Rank, TailNode;
    var c :| Where(b.items, TailNode(orig, j)) < c < |b.items| && b.items[c] == Probe(body) && Rank(b.items, c) == j;
    EnterRank(b.items, enter, c);
    EnterWhere(b.items, enter, j);
    EnterWhere(b.items, enter, TailNode(orig, j));
    assert Enter(b, enter).items[c + 1] == Probe(body);
  }

  /** The tail of the plan from edit k on puts its first probe in place and leaves it there. */
  lemma {:induction false} SuffixPlaces(orig: Code, eh: seq<Clause>, b: Body, e: Edit, rest: seq<Edit>, tails: nat)
    requires Inv(orig, eh, b) && Present(b.items, |orig|, tails) && TailsAnchored(orig, b.items, |orig|) && Meant(orig, e)
    requires forall f :: f in [e] + rest ==> Planned(orig, eh, tails, f) && !f.Split?
    requires e.After? ==> Unmoved(b.items, e.id)
    ensures Placed(orig, ApplyAll(orig, b, [e] + rest).items, e)
  {
    hide Inv, Present, Planned, Allowed, Apply, Placed, TailsAnchored, Meant;
    assert e in [e] + rest && ([e] + rest)[1..] == rest;
    PlannedIsAllowed(orig, eh, b, tails, e);
    if e.After? {
      UnmovedItem(orig, eh, b, tails, e);
    }
    EditPlaces(orig, eh, b, e);
    EditKeepsInv(orig, eh, b, e);
    StaysPresent(orig, eh, b, e, tails);
    ApplyAllPlaced(orig, eh, Apply(orig, b, e), rest, tails, e);
  }

  lemma {:induction false} SourcedMeant(orig: Code, u: Setup, n: Insertion)
    requires Sourced(orig, n)
    ensures Meant(orig, EditOf(u, n))
  {
  }

  lemma {:induction false} UnmovedItem(orig: Code, eh: seq<Clause>, b: Body, tails: nat, e: Edit)
    requires Inv(orig, eh, b) && Unmoved(b.items, e.id) && e.After? && Planned(orig, eh, tails, e)
    ensures e.id < |orig| && Where(b.items, e.id) < |b.items| && b.items[Where(b.items, e.id)].Keep?
  {
    var c :| 0 <= c < |b.items| && b.items[c] == Keep(e.id, e.id);
    WhereIs(b.items, |orig|, b.next, c);
  }

  /** Every probe of the plan ends up where it was meant to be: in front of its
      instruction for all control that enters there, or behind it for all control
      that falls through. In front of a tail. prefix the probe for the call comes last. */
  lemma {:induction false} ProbesPlaced(orig: Code, eh: seq<Clause>, maxStack: nat, u: Setup, k: nat)
    requires Instrumentable(orig, eh) && k < |Insertions(orig, u, eh)|
    ensures Placed(orig, Rewrite(orig, eh, maxStack, u).items, EditOf(u, Insertions(orig, u, eh)[k]))
  {
    hide Instrumentable, Insertions, Inv, Present, Planned, Unmoved, Placed, ApplyAll, Prepared, IsCall, TailsAnchored, Meant;
    var ns := Insertions(orig, u, eh);
    var es := EditsOf(u, ns);
    var e := es[k];
    var tails := Tails(orig, |orig|);
    var b := Prepared(orig, eh, maxStack);
    PreparedInv(orig, eh, maxStack);
    PlanPlanned(orig, eh, u);
    var c := ApplyAll(orig, b, es[..k]);
    ApplyAllInv(orig, eh, b, es[..k], tails);
    ApplyAllPresent(orig, eh, b, es[..k], tails);
    if e.After? {
      forall f | f in es[..k] ensures f.id != e.id || f.After? {
        var j :| 0 <= j < k && es[j] == f;
        AfterFirst(orig, eh, u, k, j);
      }
      assert e in es;
      AfterNotTail(orig, eh, tails, e);
      ApplyAllUnmoved(orig, eh, b, es[..k], tails, e.id);
    }
    assert es == es[..k] + ([e] + es[k + 1..]);
    forall f | f in [e] + es[k + 1..] ensures f in es {
    }
    InsertionsSourced(orig, eh, u);
    assert ns[k] in ns;
    assert Meant(orig, e) by { SourcedMeant(orig, u, ns[k]); }
    SuffixPlaces(orig, eh, c, e, es[k + 1..], tails);
    ApplyAllAppend(orig, b, es[..k], [e] + es[k + 1..]);
    assert |orig| > 0 by { NonEmpty(orig, eh); }
    EnterPlaced(orig, ApplyAll(orig, b, es), EnterBody(NodeOffset(orig, 0), u.methodId, u.Enter()), e);
    RewriteIs(orig, eh, maxStack, u);
  }

  lemma {:induction false} NonEmpty(orig: Code, eh: seq<Clause>)
    requires Instrumentable(orig, eh)
    ensures |orig| > 0
  {
  }

  lemma {:induction false} AfterNotTail(orig: Code, eh: seq<Clause>, tails: nat, e: Edit)
    requires Instrumentable(orig, eh) && e.After? && Planned(orig, eh, tails, e)
    ensures e.id < |orig| && orig[e.id].op != TAILCALL
  {
    assert PrefixOk(orig, e.id);
  }
}
