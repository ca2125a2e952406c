/** Which probes the rewritten list holds, by opcode: all that are due, and no others. */
module Coverage {
  import opened Opcodes
  import opened Layout
  import opened Splice
  import opened Rewriting

  // ----- what is due, read off the opcodes -----

  /** A probe call: offset and method number pushed by ldc.i4, address by ldc.i8, then calli. */
  function Report(o: int, id: int, p: ProbeCall): seq<Instr> {
    [Instr(0x20, o, 0), Instr(0x20, id, 0), Instr(0x21, p.addr, 0), Instr(0x29, p.sig, 0)]
  }

  ghost predicate IsReport(x: Item, o: int, id: int) {
    exists p :: x == Probe(Report(o, id, p))
  }

  /** The enter probe has ldc.i4.0 as a third argument. */
  function EnterReport(o: int, id: int, p: ProbeCall): seq<Instr> {
    [Instr(0x20, o, 0), Instr(0x20, id, 0), Instr(0x16, 0, 0), Instr(0x21, p.addr, 0), Instr(0x29, p.sig, 0)]
  }

  /** br.s to switch, leave and leave.s. */
  predicate BranchOp(op: nat) { 0x2B <= op <= 0x45 || op == 0xDD || op == 0xDE }

  /** call, calli, callvirt and newobj. */
  predicate CallOp(op: nat) { op == 0x28 || op == 0x29 || op == 0x6F || op == 0x73 }

  /** unaligned., volatile., tail., constrained. and readonly. */
  predicate PrefixOp(op: nat) { op == 0x112 || op == 0x113 || op == 0x114 || op == 0x116 || op == 0x11E }

  /** One or two instructions behind a tail. prefix: its call and its ret. */
  predicate BehindTail(orig: Code, i: nat) {
    (0 < i <= |orig| && orig[i - 1].op == 0x114) || (1 < i <= |orig| && orig[i - 2].op == 0x114)
  }

  /** The offset a probe on node i reports: for a tail. prefix that of its ret. */
  function Reported(orig: Code, i: nat): nat
    requires i < |orig|
  {
    if orig[i].op == 0x114 && i + 2 <= |orig| then Offset(orig, i + 2) else Offset(orig, i)
  }

  /** Probes due in front of instruction i on its own account. */
  predicate DueHere(orig: Code, u: Setup, i: nat, o: nat, p: ProbeCall)
    requires i < |orig|
  {
    var op := orig[i].op;
    || (BranchOp(op) && o == Offset(orig, i) && p == u.probes.branch)
    || (op == 0x2A && !BehindTail(orig, i) && o == Offset(orig, i) && p == if u.isMain then u.probes.leaveMain else u.probes.leave)
    || ((op == 0x7A || op == 0x11A) && o == Offset(orig, i) && p == u.probes.throw)
    || ((op == 0xDC || op == 0x111) && o == Offset(orig, i) && p == u.probes.coverage)
    || (op == 0x80 && !(i > 0 && PrefixOp(orig[i - 1].op)) && o == Offset(orig, i) && p == u.probes.stsfld)
    || (PrefixOp(op) && i + 1 < |orig| && orig[i + 1].op == 0x80 && o == Offset(orig, i) && p == u.probes.stsfld)
    || (op == 0x114 && i + 2 <= |orig| && o == Offset(orig, i + 2) && p == u.probes.coverage)
  }

  /** ... or because a handler starts there. */
  predicate DueForHandler(orig: Code, eh: seq<Clause>, u: Setup, i: nat, o: nat, p: ProbeCall)
    requires i < |orig|
  {
    o == Reported(orig, i) && p == u.probes.throw && exists k :: 0 <= k < |eh| && eh[k].handlerBegin == i
  }

  /** The probe due directly in front of a tail. prefix reports the offset of its call. */
  predicate DueLast(orig: Code, u: Setup, i: nat, o: nat, p: ProbeCall)
    requires i < |orig|
  {
    orig[i].op == 0x114 && o == Offset(orig, i + 1) && p == u.probes.tailcall
  }

  /** The probe due behind a call. */
  predicate DueAfter(orig: Code, u: Setup, i: nat, o: nat, p: ProbeCall)
    requires i < |orig|
  {
    CallOp(orig[i].op) && !BehindTail(orig, i) && o == Offset(orig, i) && p == u.probes.call
  }

  /** Instruction j can lead to position t. */
  predicate LeadsTo(orig: Code, j: nat, t: nat)
    requires j < |orig|
  {
    if orig[j].op == 0x45 then exists q :: j < q <= j + orig[j].arg && q < |orig| && orig[q].target == t
    else BranchOp(orig[j].op) && orig[j].target == t
  }

  predicate IsTarget(orig: Code, t: nat) {
    exists j :: 0 <= j < |orig| && LeadsTo(orig, j, t)
  }

  // ----- the plan is what is due -----

  lemma {:induction false} Bodies(o: int, id: int, p: ProbeCall)
    ensures CoverageBody(o, id, p) == Report(o, id, p) && EnterBody(o, id, p) == EnterReport(o, id, p)
  {
  }

  lemma {:induction false} SameReported(orig: Code, i: nat)
    requires i < |orig|
    ensures NodeOffset(orig, i) == Reported(orig, i)
  {
  }

  lemma {:induction false} PrefixAt(orig: Code, eh: seq<Clause>, i: nat)
    requires Instrumentable(orig, eh) && i < |orig|
    ensures PrefixOk(orig, i)
  {
  }

  /** The instruction in front of stsfld is no tail. prefix, a tail. prefix has its call and ret. */
  lemma {:induction false} PrefixFacts(orig: Code, eh: seq<Clause>, i: nat)
    requires Instrumentable(orig, eh) && i < |orig|
    ensures i + 1 < |orig| && orig[i + 1].op == 0x80 ==> orig[i].op != 0x114
    ensures orig[i].op == 0x114 ==> i + 2 < |orig|
  {
    PrefixAt(orig, eh, i);
  }

  /** What the first loop asks for at i, in terms of what is due. */
  ghost predicate IsDue(orig: Code, u: Setup, n: Insertion) {
    if !n.before then n.id < |orig| && DueAfter(orig, u, n.id, n.offset, n.probe)
    else if n.id < |orig| then DueHere(orig, u, n.id, n.offset, n.probe)
    else exists j :: 0 <= j < |orig| && n.id == TailNode(orig, j) && DueLast(orig, u, j, n.offset, n.probe)
  }

  lemma {:induction false} WantedIsDue(orig: Code, eh: seq<Clause>, u: Setup, i: nat, n: Insertion)
    requires Instrumentable(orig, eh) && i < |orig| && n in Wanted(orig, u, i, BehindTail(orig, i), TailNode(orig, i))
    ensures IsDue(orig, u, n)
  {
    hide Instrumentable, Offset, Tails;
    PrefixFacts(orig, eh, i);
    if i > 0 {
      PrefixFacts(orig, eh, i - 1);
    }
    if orig[i].op == 0x114 && n.id >= |orig| {
      assert DueLast(orig, u, i, n.offset, n.probe);
    }
  }

  /** Everything due at i is asked for, at i or, for a prefix of stsfld, one further on. */
  lemma {:induction false} DueIsWanted(orig: Code, eh: seq<Clause>, u: Setup, i: nat, o: nat, p: ProbeCall) returns (j: nat)
    requires Instrumentable(orig, eh) && i < |orig| && DueHere(orig, u, i, o, p)
    ensures j < |orig| && Insertion(i, p, true, o) in Wanted(orig, u, j, BehindTail(orig, j), TailNode(orig, j))
  {
    hide Instrumentable, Offset, Tails;
    PrefixFacts(orig, eh, i);
    j := if PrefixOp(orig[i].op) && i + 1 < |orig| && orig[i + 1].op == 0x80 && p == u.probes.stsfld && o == Offset(orig, i)
         then i + 1 else i;
    if j == i + 1 {
      assert Wanted(orig, u, j, BehindTail(orig, j), TailNode(orig, j)) == [Insertion(i, p, true, o)];
    } else {
      DueOnItsOwn(orig, eh, u, i, o, p);
    }
  }

  lemma {:induction false} DueOnItsOwn(orig: Code, eh: seq<Clause>, u: Setup, i: nat, o: nat, p: ProbeCall)
    requires Instrumentable(orig, eh) && i < |orig| && DueHere(orig, u, i, o, p)
    requires !(PrefixOp(orig[i].op) && i + 1 < |orig| && orig[i + 1].op == 0x80 && p == u.probes.stsfld && o == Offset(orig, i))
    ensures Insertion(i, p, true, o) in Wanted(orig, u, i, BehindTail(orig, i), TailNode(orig, i))
  {
    hide Instrumentable, Offset, Tails;
    var w := Wanted(orig, u, i, BehindTail(orig, i), TailNode(orig, i));
    if orig[i].op == 0x114 {
      assert w[1] == Insertion(i, p, true, o);
    } else {
      assert w[0] == Insertion(i, p, true, o);
    }
  }

  lemma {:induction false} OthersAreWanted(orig: Code, u: Setup, i: nat, o: nat, p: ProbeCall)
    requires i < |orig|
    ensures DueAfter(orig, u, i, o, p) ==> Insertion(i, p, false, o) in Wanted(orig, u, i, BehindTail(orig, i), TailNode(orig, i))
    ensures DueLast(orig, u, i, o, p) ==> Insertion(TailNode(orig, i), p, true, o) in Wanted(orig, u, i, BehindTail(orig, i), TailNode(orig, i))
  {
    hide Offset, Tails;
    var w := Wanted(orig, u, i, BehindTail(orig, i), TailNode(orig, i));
    if DueAfter(orig, u, i, o, p) || DueLast(orig, u, i, o, p) {
      assert |w| > 0 && w[0] in w;
    }
  }

  lemma {:induction false} FlagIs(orig: Code, i: nat, tail: bool)
    requires i <= |orig| && TailFlag(orig, i, tail)
    ensures tail == BehindTail(orig, i)
  {
  }

  /** The first loop asks for what is wanted at each instruction ... */
  lemma {:induction false} PriorityHas(orig: Code, eh: seq<Clause>, u: Setup, i: nat, tail: bool, j: nat, n: Insertion)
    requires Instrumentable(orig, eh) && i <= j < |orig| && TailFlag(orig, i, tail)
    requires n in Wanted(orig, u, j, BehindTail(orig, j), TailNode(orig, j))
    ensures n in Priority(orig, u, i, tail, TailNode(orig, i))
    decreases |orig| - i
  {
    hide Instrumentable, Wanted, TailFlag, TailAfter, BehindTail;
    assert TailNode(orig, i + 1) == TailNode(orig, i) + if orig[i].op == TAILCALL then 1 else 0;
    if i == j {
      FlagIs(orig, i, tail);
    } else {
      TailFlagStep(orig, eh, i, tail);
      PriorityHas(orig, eh, u, i + 1, TailAfter(orig[i].op, tail), j, n);
    }
  }

  /** ... and for nothing else. */
  lemma {:induction false} PriorityOnly(orig: Code, eh: seq<Clause>, u: Setup, i: nat, tail: bool, n: Insertion) returns (j: nat)
    requires Instrumentable(orig, eh) && i <= |orig| && TailFlag(orig, i, tail) && n in Priority(orig, u, i, tail, TailNode(orig, i))
    ensures j < |orig| && n in Wanted(orig, u, j, BehindTail(orig, j), TailNode(orig, j))
    decreases |orig| - i
  {
    hide Instrumentable, Wanted, TailFlag, TailAfter, BehindTail;
    assert TailNode(orig, i + 1) == TailNode(orig, i) + if orig[i].op == TAILCALL then 1 else 0;
    FlagIs(orig, i, tail);
    if n in Wanted(orig, u, i, tail, TailNode(orig, i)) {
      j := i;
    } else {
      TailFlagStep(orig, eh, i, tail);
      j := PriorityOnly(orig, eh, u, i + 1, TailAfter(orig[i].op, tail), n);
    }
  }

  // ----- handlers and branch targets -----

  lemma {:induction false} HandlersAre(orig: Code, eh: seq<Clause>, u: Setup, n: Insertion)
    requires Instrumentable(orig, eh)
    ensures n in Handlers(orig, u, eh) <==> n.before && n.id < |orig| && DueForHandler(orig, eh, u, n.id, n.offset, n.probe)
  {
    hide NodeOffset, Reported, Instrumentable;
    var hs := Handlers(orig, u, eh);
    HandlersInside(orig, eh, u);
    if n in hs {
      var k :| 0 <= k < |hs| && hs[k] == n;
      SameReported(orig, n.id);
      assert eh[k].handlerBegin == n.id;
    }
    if n.before && n.id < |orig| && DueForHandler(orig, eh, u, n.id, n.offset, n.probe) {
      var k :| 0 <= k < |eh| && eh[k].handlerBegin == n.id;
      SameReported(orig, n.id);
      assert hs[k] == n;
    }
  }

  lemma {:induction false} TargetsAtAre(orig: Code, eh: seq<Clause>, j: nat, t: nat)
    requires Instrumentable(orig, eh) && j < |orig|
    ensures t in TargetsAt(orig, j) <==> LeadsTo(orig, j, t)
  {
    hide WellFormed, PrefixOk, ClauseOk, TargetOk;
    assert TableOk(orig, j);
    var ts := TargetsAt(orig, j);
    if orig[j].op == 0x45 {
      if t in ts {
        var k :| 0 <= k < |ts| && ts[k] == t;
        assert orig[j + 1 + k].target == t;
      }
      if LeadsTo(orig, j, t) {
        var q :| j < q <= j + orig[j].arg && q < |orig| && orig[q].target == t;
        assert ts[q - j - 1] == t;
      }
    }
  }

  lemma {:induction false} TargetsAre(orig: Code, eh: seq<Clause>, i: nat, t: nat)
    requires Instrumentable(orig, eh) && i <= |orig|
    ensures t in Targets(orig, i) <==> exists j :: i <= j < |orig| && LeadsTo(orig, j, t)
    decreases |orig| - i
  {
    hide Instrumentable, TargetsAt, LeadsTo;
    if i < |orig| {
      TargetsAtAre(orig, eh, i, t);
      TargetsAre(orig, eh, i + 1, t);
    }
  }

  /** Every target has the block in front of it covered, by this loop or before. */
  lemma {:induction false} CoverHas(orig: Code, u: Setup, ts: seq<nat>, covered: set<nat>, t: nat)
    requires t in ts && 0 < t <= |orig|
    ensures NodeOffset(orig, t - 1) in covered
            || exists n :: n in Cover(orig, u, ts, covered) && n.offset == NodeOffset(orig, t - 1)
    decreases |ts|
  {
    hide NodeOffset;
    var cov := Cover(orig, u, ts, covered);
    if ts[0] == 0 || ts[0] > |orig| || NodeOffset(orig, ts[0] - 1) in covered {
      if ts[0] != t {
        CoverHas(orig, u, ts[1..], covered, t);
      }
    } else {
      var o := NodeOffset(orig, ts[0] - 1);
      assert cov[0].offset == o && cov[0] in cov;
      if o != NodeOffset(orig, t - 1) {
        CoverHas(orig, u, ts[1..], covered + {o}, t);
        forall n | n in Cover(orig, u, ts[1..], covered + {o}) ensures n in cov {
        }
      }
    }
  }

  lemma {:induction false} CoverOnly(orig: Code, u: Setup, ts: seq<nat>, covered: set<nat>, n: Insertion)
    requires n in Cover(orig, u, ts, covered)
    ensures n.id < |orig| && n.id + 1 in ts && n == Insertion(n.id, u.probes.coverage, false, NodeOffset(orig, n.id))
    decreases |ts|
  {
    hide NodeOffset;
    if ts[0] == 0 || ts[0] > |orig| || NodeOffset(orig, ts[0] - 1) in covered {
      CoverOnly(orig, u, ts[1..], covered, n);
    } else {
      var o := NodeOffset(orig, ts[0] - 1);
      if n != Insertion(ts[0] - 1, u.probes.coverage, false, o) {
        CoverOnly(orig, u, ts[1..], covered + {o}, n);
      }
    }
  }

  /** In front of a target stands no prefix, so the node reports its own offset. */
  lemma {:induction false} TargetReports(orig: Code, eh: seq<Clause>, t: nat)
    requires Instrumentable(orig, eh) && IsTarget(orig, t) && 0 < t
    ensures t <= |orig| && NodeOffset(orig, t - 1) == Offset(orig, t - 1)
  {
    hide Instrumentable, Offset, LeadsTo;
    TargetsAre(orig, eh, 0, t);
    TargetsOk(orig, eh, 0);
    TargetIsOk(orig, t);
  }

  lemma {:induction false} TargetIsOk(orig: Code, t: nat)
    requires TargetOk(orig, t) && 0 < t
    ensures t <= |orig| && NodeOffset(orig, t - 1) == Offset(orig, t - 1)
  {
  }

  /** The whole plan: what is due and the block ends not reported otherwise. */
  ghost predicate IsPlanned(orig: Code, eh: seq<Clause>, u: Setup, n: Insertion) {
    || IsDue(orig, u, n)
    || (n.before && n.id < |orig| && DueForHandler(orig, eh, u, n.id, n.offset, n.probe))
    || (!n.before && n.id < |orig| && IsTarget(orig, n.id + 1) && n.offset == Offset(orig, n.id) && n.probe == u.probes.coverage)
  }

  lemma {:induction false} InsertionsOnly(orig: Code, eh: seq<Clause>, u: Setup, n: Insertion)
    requires Instrumentable(orig, eh) && n in Insertions(orig, u, eh)
    ensures IsPlanned(orig, eh, u, n)
  {
    hide Instrumentable, Priority, Handlers, Cover, Targets, IsDue, DueForHandler, NodeOffset, Offset, Wanted, TailFlag, LeadsTo;
    StartFlag(orig);
    var first := First(orig, u, eh);
    if n in Priority(orig, u, 0, false, |orig| + 1) {
      var j := PriorityOnly(orig, eh, u, 0, false, n);
      WantedIsDue(orig, eh, u, j, n);
    } else if n in Handlers(orig, u, eh) {
      HandlersAre(orig, eh, u, n);
    } else {
      var ts := Targets(orig, 0);
      CoverOnly(orig, u, ts, OffsetsOf(first), n);
      TargetsAre(orig, eh, 0, n.id + 1);
      assert IsTarget(orig, n.id + 1);
      TargetReports(orig, eh, n.id + 1);
    }
  }

  lemma {:induction false} StartFlag(orig: Code)
    ensures TailFlag(orig, 0, false) && TailNode(orig, 0) == |orig| + 1
  {
  }

  /** What is due is in the plan, and every block end is reported by some planned probe. */
  lemma {:induction false} InsertionsHave(orig: Code, eh: seq<Clause>, u: Setup, i: nat, o: nat, p: ProbeCall)
    requires Instrumentable(orig, eh) && i < |orig|
    ensures DueHere(orig, u, i, o, p) || DueForHandler(orig, eh, u, i, o, p) ==> Insertion(i, p, true, o) in Insertions(orig, u, eh)
    ensures DueLast(orig, u, i, o, p) ==> Insertion(TailNode(orig, i), p, true, o) in Insertions(orig, u, eh)
    ensures DueAfter(orig, u, i, o, p) ==> Insertion(i, p, false, o) in Insertions(orig, u, eh)
  {
    hide Instrumentable, Priority, Handlers, Cover, Targets, DueHere, DueForHandler, DueLast, DueAfter, NodeOffset, Offset, Wanted, TailFlag;
    StartFlag(orig);
    OthersAreWanted(orig, u, i, o, p);
    if DueHere(orig, u, i, o, p) {
      var j := DueIsWanted(orig, eh, u, i, o, p);
      PriorityHas(orig, eh, u, 0, false, j, Insertion(i, p, true, o));
    }
    if DueForHandler(orig, eh, u, i, o, p) {
      HandlersAre(orig, eh, u, Insertion(i, p, true, o));
    }
    if DueLast(orig, u, i, o, p) {
      PriorityHas(orig, eh, u, 0, false, i, Insertion(TailNode(orig, i), p, true, o));
    }
    if DueAfter(orig, u, i, o, p) {
      PriorityHas(orig, eh, u, 0, false, i, Insertion(i, p, false, o));
    }
  }

  lemma {:induction false} EndsReported(orig: Code, eh: seq<Clause>, u: Setup, t: nat) returns (n: Insertion)
    requires Instrumentable(orig, eh) && IsTarget(orig, t) && 0 < t
    ensures t <= |orig| && n in Insertions(orig, u, eh) && n.offset == Offset(orig, t - 1)
  {
    hide Instrumentable, Priority, Handlers, Cover, Targets, NodeOffset, Offset, LeadsTo;
    TargetReports(orig, eh, t);
    TargetsAre(orig, eh, 0, t);
    var first := First(orig, u, eh);
    var cov := Cover(orig, u, Targets(orig, 0), OffsetsOf(first));
    CoverHas(orig, u, Targets(orig, 0), OffsetsOf(first), t);
    if Offset(orig, t - 1) in OffsetsOf(first) {
      n :| n in first && n.offset == Offset(orig, t - 1);
    } else {
      n :| n in cov && n.offset == Offset(orig, t - 1);
    }
    assert n in first + cov;
  }

  // ----- where the probes of the list come from -----

  /** Original instructions in front of the probe of an edit. */
  ghost predicate AtRank(orig: Code, e: Edit, r: nat) {
    && (e.Before? && e.id < |orig| ==> r == e.id)
    && (e.Before? && e.id >= |orig| ==> exists j :: 0 <= j < |orig| && orig[j].op == TAILCALL && e.id == TailNode(orig, j) && r == j)
    && (e.After? ==> r == e.id + 1)
  }

  ghost predicate ComesFrom(orig: Code, items: seq<Item>, a: nat, e: Edit)
    requires a < |items|
  {
    !e.Split? && items[a] == Probe(e.body) && AtRank(orig, e, Rank(items, a))
  }

  ghost predicate Explained(orig: Code, items: seq<Item>, es: seq<Edit>) {
    forall a :: 0 <= a < |items| && items[a].Probe? ==> exists e :: e in es && ComesFrom(orig, items, a, e)
  }

  /** The probe of an edit is at the rank it is meant for. */
  lemma {:induction false} NewProbe(orig: Code, eh: seq<Clause>, b: Body, e: Edit, a: nat, r: seq<Item>, t: seq<Item>)
    requires Inv(orig, eh, b) && TailsAnchored(orig, b.items, |orig|) && Meant(orig, e) && !e.Split?
    requires Where(b.items, e.id) < |b.items| && (e.After? ==> e.id < |orig| && b.items[Where(b.items, e.id)].Keep?)
    requires a == Where(b.items, e.id) && t == Apply(orig, b, e).items && a + 1 < |t|
    requires t[a + 1] == Probe(e.body) && Rank(t, a + 1) == Rank(b.items, a) + if e.After? && b.items[a].Keep? then 1 else 0
    ensures ComesFrom(orig, t, a + 1, e)
  {
    hide Where, Rank, Apply, TailNode;
    if e.id < |orig| {
      assert AnchoredAt(b.items, e.id);
    } else {
      var j :| 0 <= j < |orig| && orig[j].op == TAILCALL && e.id == TailNode(orig, j);
      assert TailAnchored(orig, b.items, j);
    }
  }

  lemma {:induction false} EditExplained(orig: Code, eh: seq<Clause>, b: Body, es: seq<Edit>, e: Edit)
    requires Inv(orig, eh, b) && TailsAnchored(orig, b.items, |orig|) && Meant(orig, e) && !e.Split?
    requires Where(b.items, e.id) < |b.items| && (e.After? ==> e.id < |orig| && b.items[Where(b.items, e.id)].Keep?)
    requires Explained(orig, b.items, es)
    ensures Explained(orig, Apply(orig, b, e).items, es + [e])
  {
    hide Inv, Where, Rank, Apply, TailsAnchored, Meant, AtRank, Replacement, UniqueIds;
    var a, r, t := EditAt(orig, eh, b, e);
    NewProbe(orig, eh, b, e, a, r, t);
    EditSides(orig, b, e, a, r, t);
    forall q | 0 <= q < |t| && t[q].Probe? ensures exists f :: f in es + [e] && ComesFrom(orig, t, q, f) {
      if q == a + 1 {
        assert e in es + [e];
      } else {
        var c := if q < a then q else q - 2;
        RankKept(b.items, a, r, t, c);
        var f :| f in es && ComesFrom(orig, b.items, c, f);
        assert f in es + [e] && ComesFrom(orig, t, q, f);
      }
    }
  }

  /** Around the probe of an edit stand nodes, and the other items are the old ones. */
  lemma {:induction false} EditSides(orig: Code, b: Body, e: Edit, a: nat, r: seq<Item>, t: seq<Item>)
    requires Edited(orig, b, e, a, r, t) && !e.Split?
    ensures |r| == 3 && |t| == |b.items| + 2 && !t[a].Probe? && !t[a + 2].Probe?
    ensures forall q :: 0 <= q < |t| && q < a ==> t[q] == b.items[q]
    ensures forall q :: a + 2 < q < |t| ==> t[q] == b.items[q - 2]
  {
    hide UniqueIds;
    assert t[a] == r[0] && t[a + 2] == r[2];
  }

  /** After the first k edits of the plan, every probe is one of theirs. */
  lemma {:induction false} PlanExplained(orig: Code, eh: seq<Clause>, maxStack: nat, u: Setup, k: nat)
    requires Instrumentable(orig, eh) && k <= |Insertions(orig, u, eh)|
    ensures Explained(orig, ApplyAll(orig, Prepared(orig, eh, maxStack), EditsOf(u, Insertions(orig, u, eh))[..k]).items,
                      EditsOf(u, Insertions(orig, u, eh))[..k])
    decreases k
  {
    hide Instrumentable, Insertions, Inv, Present, Planned, Unmoved, ApplyAll, Prepared, TailsAnchored, Meant, Explained, Where, Apply;
    var ns := Insertions(orig, u, eh);
    var es := EditsOf(u, ns);
    var tails := Tails(orig, |orig|);
    var b := Prepared(orig, eh, maxStack);
    PreparedInv(orig, eh, maxStack);
    if k == 0 {
      assert es[..0] == [];
      StartExplained(orig, eh, maxStack);
    } else {
      var e, done := es[k - 1], es[..k - 1];
      PlanExplained(orig, eh, maxStack, u, k - 1);
      PlanPlanned(orig, eh, u);
      assert e in es && (forall f :: f in done ==> f in es);
      ApplyAllInv(orig, eh, b, done, tails);
      ApplyAllPresent(orig, eh, b, done, tails);
      var c := ApplyAll(orig, b, done);
      PlannedIsAllowed(orig, eh, c, tails, e);
      InsertionsSourced(orig, eh, u);
      assert ns[k - 1] in ns;
      SourcedMeant(orig, u, ns[k - 1]);
      if e.After? {
        forall f | f in done ensures f.id != e.id || f.After? {
          var j :| 0 <= j < k - 1 && es[j] == f;
          AfterFirst(orig, eh, u, k - 1, j);
        }
        AfterNotTail(orig, eh, tails, e);
        ApplyAllUnmoved(orig, eh, b, done, tails, e.id);
        UnmovedItem(orig, eh, c, tails, e);
      }
      EditExplained(orig, eh, c, done, e);
      assert es[..k] == done + [e];
      ApplyAllAppend(orig, b, done, [e]);
      ApplyOne(orig, c, e);
    }
  }

  lemma {:induction false} ApplyOne(orig: Code, b: Body, e: Edit)
    requires Where(b.items, e.id) < |b.items|
    ensures ApplyAll(orig, b, [e]) == Apply(orig, b, e)
  {
    hide Where, Apply;
    assert [e][1..] == [];
    assert ApplyAll(orig, Apply(orig, b, e), []) == Apply(orig, b, e);
  }

  predicate NoProbe(items: seq<Item>) {
    forall a :: 0 <= a < |items| ==> !items[a].Probe?
  }

  lemma {:induction false} SplitsAddNoProbe(orig: Code, b: Body, es: seq<Edit>)
    requires NoProbe(b.items) && forall e :: e in es ==> e.Split?
    ensures NoProbe(ApplyAll(orig, b, es).items)
    decreases |es|
  {
    hide Where, Apply, NoProbe;
    if es != [] {
      assert es[0] in es && forall e :: e in es[1..] ==> e in es;
      if Where(b.items, es[0].id) >= |b.items| {
        SplitsAddNoProbe(orig, b, es[1..]);
      } else {
        SplitAddsNoProbe(orig, b, es[0]);
        var c := Apply(orig, b, es[0]);
        SplitsAddNoProbe(orig, c, es[1..]);
        assert ApplyAll(orig, b, es) == ApplyAll(orig, c, es[1..]);
      }
    }
  }

  lemma {:induction false} SplitAddsNoProbe(orig: Code, b: Body, e: Edit)
    requires NoProbe(b.items) && e.Split? && Where(b.items, e.id) < |b.items|
    ensures NoProbe(Apply(orig, b, e).items)
  {
    hide Where;
  }

  lemma {:induction false} StartExplained(orig: Code, eh: seq<Clause>, maxStack: nat)
    ensures Explained(orig, ApplyAll(orig, Prepared(orig, eh, maxStack), []).items, [])
  {
    hide ApplyAll, Splits, ComesFrom;
    var b := Prepared(orig, eh, maxStack);
    SplitsOnly(orig, 0);
    SplitsAddNoProbe(orig, Imported(orig, eh, maxStack), Splits(orig, 0));
    NothingApplied(orig, b);
    assert b == ApplyAll(orig, Imported(orig, eh, maxStack), Splits(orig, 0));
    assert NoProbe(b.items);
  }

  lemma {:induction false} NothingApplied(orig: Code, b: Body)
    ensures ApplyAll(orig, b, []) == b
  {
  }

  // ----- the theorems -----

  /** Every probe that is due stands where it is due: in front of its instruction for all
      control that enters there, directly in front of a tail. prefix, or behind its call. */
  lemma {:induction false} DueProbesAreThere(orig: Code, eh: seq<Clause>, maxStack: nat, u: Setup, i: nat, o: nat, p: ProbeCall)
    requires Instrumentable(orig, eh) && |orig| > 0 && i < |orig|
    ensures var items := Rewrite(orig, eh, maxStack, u).items; var body := Report(o, u.methodId, p);
      && (DueHere(orig, u, i, o, p) || DueForHandler(orig, eh, u, i, o, p) ==> RunsBefore(orig, items, body, i))
      && (DueLast(orig, u, i, o, p) ==> RunsLast(orig, items, body, i))
      && (DueAfter(orig, u, i, o, p) ==> RunsAfter(|orig|, items, body, i))
  {
    hide Instrumentable, Insertions, Rewrite, DueHere, DueForHandler, DueAfter, RunsBefore, RunsLast, RunsAfter, Tails, CoverageBody, Report, Offset;
    InsertionsHave(orig, eh, u, i, o, p);
    Bodies(o, u.methodId, p);
    if DueHere(orig, u, i, o, p) || DueForHandler(orig, eh, u, i, o, p) {
      PlannedIsPlaced(orig, eh, maxStack, u, Insertion(i, p, true, o));
    }
    if DueLast(orig, u, i, o, p) {
      PlannedIsPlaced(orig, eh, maxStack, u, Insertion(TailNode(orig, i), p, true, o));
      TailNodesDiffer(orig, eh, i);
    }
    if DueAfter(orig, u, i, o, p) {
      PlannedIsPlaced(orig, eh, maxStack, u, Insertion(i, p, false, o));
    }
  }

  lemma {:induction false} PlannedIsPlaced(orig: Code, eh: seq<Clause>, maxStack: nat, u: Setup, n: Insertion)
    requires Instrumentable(orig, eh) && |orig| > 0 && n in Insertions(orig, u, eh)
    ensures Placed(orig, Rewrite(orig, eh, maxStack, u).items, EditOf(u, n))
  {
    hide Instrumentable, Insertions, Rewrite, Placed;
    var ns := Insertions(orig, u, eh);
    var k :| 0 <= k < |ns| && ns[k] == n;
    ProbesPlaced(orig, eh, maxStack, u, k);
  }

  /** Different tail. prefixes move to different nodes. */
  lemma {:induction false} TailNodesDiffer(orig: Code, eh: seq<Clause>, i: nat)
    requires i < |orig|
    ensures forall j :: 0 <= j < |orig| && orig[i].op == TAILCALL && orig[j].op == TAILCALL && TailNode(orig, j) == TailNode(orig, i) ==> j == i
  {
    forall j | 0 <= j < |orig| && orig[i].op == TAILCALL && orig[j].op == TAILCALL && j != i ensures TailNode(orig, j) != TailNode(orig, i) {
      if i < j {
        TailsGrow(orig, i + 1, j);
      } else {
        TailsGrow(orig, j + 1, i);
      }
    }
  }

  /** In front of everything stands the enter probe, and for every branch target some
      probe reports the offset of the instruction in front of it. */
  lemma {:induction false} BlocksAreReported(orig: Code, eh: seq<Clause>, maxStack: nat, u: Setup, t: nat)
    requires Instrumentable(orig, eh) && |orig| > 0
    ensures var items := Rewrite(orig, eh, maxStack, u).items;
      && |items| > 0
      && items[0] == Probe(EnterReport(Reported(orig, 0), u.methodId, if u.isMain then u.probes.enterMain else u.probes.enter))
      && (IsTarget(orig, t) && 0 < t ==>
            t <= |orig| && exists a :: 0 <= a < |items| && IsReport(items[a], Offset(orig, t - 1), u.methodId))
  {
    hide Instrumentable, Insertions, Splits, ApplyAll, Offset, IsTarget, Placed, EditOf;
    var items := Rewrite(orig, eh, maxStack, u).items;
    SameReported(orig, 0);
    Bodies(NodeOffset(orig, 0), u.methodId, u.Enter());
    if IsTarget(orig, t) && 0 < t {
      var n := EndsReported(orig, eh, u, t);
      PlannedIsPlaced(orig, eh, maxStack, u, n);
      var a := PlacedProbe(orig, items, u, n);
      Bodies(n.offset, u.methodId, n.probe);
      assert items[a] == Probe(Report(Offset(orig, t - 1), u.methodId, n.probe));
      assert IsReport(items[a], Offset(orig, t - 1), u.methodId);
    }
  }

  lemma {:induction false} PlacedProbe(orig: Code, items: seq<Item>, u: Setup, n: Insertion) returns (a: nat)
    requires Placed(orig, items, EditOf(u, n))
    ensures a < |items| && items[a] == Probe(CoverageBody(n.offset, u.methodId, n.probe))
  {
    hide Where, Rank, TailNode, CoverageBody;
    var e := EditOf(u, n);
    if e.After? {
      a :| 0 <= a < |items| && items[a] == Probe(e.body) && Rank(items, a) == e.id + 1
           && (e.id + 1 < |orig| ==> a < Where(items, e.id + 1));
    } else if e.id < |orig| {
      a :| Where(items, e.id) < a < |items| && items[a] == Probe(e.body) && Rank(items, a) == e.id
           && (orig[e.id].op == TAILCALL ==> a < Where(items, TailNode(orig, e.id)) < |items|);
    } else {
      var j :| 0 <= j < |orig| && orig[j].op == TAILCALL && e.id == TailNode(orig, j) && RunsLast(orig, items, e.body, j);
      a :| Where(items, TailNode(orig, j)) < a < |items| && items[a] == Probe(e.body) && Rank(items, a) == j;
    }
  }

  /** A probe that stands at a rank for a reason. */
  ghost predicate IsJustified(orig: Code, eh: seq<Clause>, u: Setup, body: seq<Instr>, r: nat) {
    exists i: nat, o: nat, p: ProbeCall :: i < |orig| && body == Report(o, u.methodId, p)
      && Justifies(orig, eh, u, i, o, p, r)
  }

  ghost predicate Justifies(orig: Code, eh: seq<Clause>, u: Setup, i: nat, o: nat, p: ProbeCall, r: nat)
    requires i < |orig|
  {
    || (r == i && (DueHere(orig, u, i, o, p) || DueForHandler(orig, eh, u, i, o, p) || DueLast(orig, u, i, o, p)))
    || (r == i + 1 && (DueAfter(orig, u, i, o, p) || (IsTarget(orig, i + 1) && o == Offset(orig, i) && p == u.probes.coverage)))
  }

  /** Conversely, every other probe of the list is due, or reports a block end in front of a
      branch target, and stands at the instruction it is due for. */
  lemma {:induction false} EveryProbeIsDue(orig: Code, eh: seq<Clause>, maxStack: nat, u: Setup, a: nat)
    requires Instrumentable(orig, eh) && |orig| > 0
    requires 0 < a < |Rewrite(orig, eh, maxStack, u).items| && Rewrite(orig, eh, maxStack, u).items[a].Probe?
    ensures var items := Rewrite(orig, eh, maxStack, u).items; IsJustified(orig, eh, u, items[a].body, Rank(items, a))
  {
    hide Instrumentable, Insertions, Splits, ApplyAll, Offset, Prepared, Rank, ComesFrom, AtRank, IsPlanned, EnterBody, NodeOffset, IsJustified;
    var ns := Insertions(orig, u, eh);
    var es := EditsOf(u, ns);
    RewriteIs(orig, eh, maxStack, u);
    PlanExplained(orig, eh, maxStack, u, |ns|);
    assert es[..|ns|] == es;
    var b := ApplyAll(orig, Prepared(orig, eh, maxStack), es);
    var enter := EnterBody(NodeOffset(orig, 0), u.methodId, u.Enter());
    var items := Rewrite(orig, eh, maxStack, u).items;
    assert items == [Probe(enter)] + b.items && items[a] == b.items[a - 1];
    EnterRank(b.items, enter, a - 1);
    var e :| e in es && ComesFrom(orig, b.items, a - 1, e);
    var k :| 0 <= k < |es| && es[k] == e;
    assert ns[k] in ns;
    InsertionsOnly(orig, eh, u, ns[k]);
    Justified(orig, eh, u, ns[k], b.items, a - 1);
  }

  lemma {:induction false} Justified(orig: Code, eh: seq<Clause>, u: Setup, n: Insertion, items: seq<Item>, a: nat)
    requires a < |items| && IsPlanned(orig, eh, u, n) && ComesFrom(orig, items, a, EditOf(u, n))
    ensures items[a].Probe? && IsJustified(orig, eh, u, items[a].body, Rank(items, a))
  {
    hide Offset, Rank, Tails, DueHere, DueAfter, DueForHandler, IsTarget;
    Bodies(n.offset, u.methodId, n.probe);
    var r := Rank(items, a);
    if n.before && n.id >= |orig| {
      var j :| 0 <= j < |orig| && n.id == TailNode(orig, j) && DueLast(orig, u, j, n.offset, n.probe);
      var k :| 0 <= k < |orig| && orig[k].op == TAILCALL && n.id == TailNode(orig, k) && r == k;
      TailNodesDiffer(orig, eh, j);
      assert Justifies(orig, eh, u, j, n.offset, n.probe, r);
    } else {
      assert Justifies(orig, eh, u, n.id, n.offset, n.probe, r);
    }
  }

  // ----- the stack limit -----

  function ProbeCount(items: seq<Item>): nat {
    if items == [] then 0 else (if items[0].Probe? then 1 else 0) + ProbeCount(items[1..])
  }

  lemma {:induction false} ProbeCountAppend(s: seq<Item>, t: seq<Item>)
    ensures ProbeCount(s + t) == ProbeCount(s) + ProbeCount(t)
    decreases |s|
  {
    if s == [] {
      assert s + t == t;
    } else {
      assert (s + t)[1..] == s[1..] + t;
      ProbeCountAppend(s[1..], t);
    }
  }

  lemma {:induction false} ReplacementProbes(x: Item, e: Edit, n: nat)
    requires !x.Probe?
    ensures ProbeCount(Replacement(x, e, n)) == if e.Split? then 0 else 1
  {
    var r := Replacement(x, e, n);
    assert r[1..][1..] == r[2..];
    assert |r| == 3 ==> r[2..][1..] == [] && ProbeCount(r[2..]) == 0;
    assert |r| == 2 ==> r[2..] == [];
    assert ProbeCount(r[1..]) == if e.Split? then 0 else 1;
  }

  /** A probe raises the limit by its four pushes and at most two of the instruction it moves. */
  lemma {:induction false} EditStack(orig: Code, b: Body, e: Edit)
    requires Where(b.items, e.id) < |b.items| && (!e.Split? ==> BodyPushes(e.body) == 4)
    ensures var c, more := Apply(orig, b, e), if e.Split? then 0 else 1;
      && ProbeCount(c.items) == ProbeCount(b.items) + more
      && b.maxStack + 4 * more <= c.maxStack <= b.maxStack + 4 * more + if e.After? then 0 else 2
  {
    hide Where, BodyPushes, Replacement;
    var a := Where(b.items, e.id);
    var r := Replacement(b.items[a], e, b.next);
    ReplacementProbes(b.items[a], e, b.next);
    ProbeCountAppend(b.items[..a] + r, b.items[a + 1..]);
    ProbeCountAppend(b.items[..a], r);
    assert b.items == b.items[..a] + b.items[a..] && b.items[a..][1..] == b.items[a + 1..];
    ProbeCountAppend(b.items[..a], b.items[a..]);
  }

  lemma {:induction false} EditsStack(orig: Code, b: Body, es: seq<Edit>, splits: nat)
    requires forall e :: e in es && !e.Split? ==> BodyPushes(e.body) == 4
    requires forall i :: splits <= i < |es| ==> !es[i].Split?
    ensures var c := ApplyAll(orig, b, es);
      && ProbeCount(b.items) <= ProbeCount(c.items)
      && var more := ProbeCount(c.items) - ProbeCount(b.items);
         b.maxStack + 4 * more <= c.maxStack <= b.maxStack + 6 * more + 2 * splits
    decreases |es|
  {
    hide Where, Apply, ProbeCount, BodyPushes;
    if es != [] {
      var fewer := if splits == 0 then 0 else splits - 1;
      assert es[0] in es && (forall e :: e in es[1..] ==> e in es);
      assert forall i :: fewer <= i < |es[1..]| ==> es[1..][i] == es[i + 1];
      if Where(b.items, es[0].id) < |b.items| {
        EditStack(orig, b, es[0]);
        EditsStack(orig, Apply(orig, b, es[0]), es[1..], fewer);
      } else {
        EditsStack(orig, b, es[1..], fewer);
      }
    }
  }

  lemma {:induction false} FewSplits(orig: Code, i: nat)
    requires i <= |orig|
    ensures |Splits(orig, i)| == Tails(orig, |orig|) - Tails(orig, i)
    decreases |orig| - i
  {
    if i < |orig| {
      FewSplits(orig, i + 1);
    }
  }

  /** The stack limit written for the method: the declared one, the pushes of the original
      instructions, five for the enter probe, and for every other probe of the list four and
      at most two that an instruction in front of which it was put pushes. */
  lemma {:induction false} StackLimit(orig: Code, eh: seq<Clause>, maxStack: nat, u: Setup)
    requires |orig| > 0
    ensures var b := Rewrite(orig, eh, maxStack, u);
      && ProbeCount(b.items) > 0
      && var least := maxStack + BodyPushes(orig) + 5 + 4 * (ProbeCount(b.items) - 1);
         least <= b.maxStack <= least + 2 * (ProbeCount(b.items) - 1) + 2 * Tails(orig, |orig|)
  {
    hide ApplyAll, Insertions, BodyPushes, Splits, Tails, NodeOffset, EnterBody, CoverageBody;
    var es := Splits(orig, 0) + EditsOf(u, Insertions(orig, u, eh));
    var start := Imported(orig, eh, maxStack);
    var enter := EnterBody(NodeOffset(orig, 0), u.methodId, u.Enter());
    SplitsOnly(orig, 0);
    FewSplits(orig, 0);
    NoTailsYet(orig);
    forall e | e in es && !e.Split? ensures BodyPushes(e.body) == 4 {
      var k :| 0 <= k < |es| && es[k] == e;
      var n := Insertions(orig, u, eh)[k - |Splits(orig, 0)|];
      CoveragePushes(n.offset, u.methodId, n.probe);
    }
    EditsStack(orig, start, es, |Splits(orig, 0)|);
    NoProbeCount(start.items);
    var b := ApplyAll(orig, start, es);
    assert ([Probe(enter)] + b.items)[1..] == b.items;
    EnterPushes(NodeOffset(orig, 0), u.methodId, u.Enter());
  }

  lemma {:induction false} NoTailsYet(orig: Code)
    ensures Tails(orig, 0) == 0
  {
  }

  lemma {:induction false} NoProbeCount(items: seq<Item>)
    requires NoProbe(items)
    ensures ProbeCount(items) == 0
  {
    if items != [] {
      NoProbeCount(items[1..]);
    }
  }
}
