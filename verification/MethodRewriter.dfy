/** RewriteIL on the linked list, from the bytes of a method to the rewritten bytes. */
module MethodRewriter {
  import opened Wrappers
  import opened Opcodes
  import opened Layout
  import opened Bytes
  import opened Codec
  import opened Splice
  import opened Linking
  import opened InstrList
  import opened Probing
  import opened Exporting
  import opened Importing
  import opened Rewriting
  import opened Planning
  import opened Machine
  import opened Pipeline
  import opened Meaning

  // ----- offsets the probes report -----

  lemma {:induction false} SourcedOffset(named: seq<ILInstr>, orig: Code, n: Insertion)
    requires OffsetsKnown(named, orig, |orig|) && Sourced(orig, n)
    ensures n.id < |named| && named[n.id].offset == n.offset
  {
    hide NodeOffset, Offset, Tails;
  }

  // ----- inserting -----

  /** The state of the rewriter while probes are inserted. */
  ghost predicate Editing(r: ILRewriter, g: Picture, eh: seq<Clause>)
    reads r, r.il`next, r.il`prev, r.nodes`next, r.nodes`prev, r.nodes`op, r.nodes`arg, r.nodes`target, g.named`offset
  {
    && Shows(r, g) && Inv(g.orig, eh, g.body) && Present(g.body.items, |g.orig|, Tails(g.orig, |g.orig|))
    && |g.body.items| > 0 && HasId(g.body.items[0], 0) && PlainProbes(g.body.items) && OffsetsKnown(g.named, g.orig, |g.orig|)
  }

  /** Probes hold something, and no prefix. */
  ghost predicate PlainProbes(items: seq<Item>) {
    forall a :: 0 <= a < |items| && items[a].Probe? ==> PlainBody(items[a].body)
  }

  predicate PlainBody(body: seq<Instr>) {
    |body| > 0 && forall j :: 0 <= j < |body| ==> body[j].op != TAILCALL
  }

  lemma {:induction false} FirstStays(orig: Code, b: Body, e: Edit)
    requires |b.items| > 0 && HasId(b.items[0], 0) && Where(b.items, e.id) < |b.items|
    ensures |Apply(orig, b, e).items| > 0 && HasId(Apply(orig, b, e).items[0], 0)
  {
  }

  lemma {:induction false} PlainStays(orig: Code, b: Body, e: Edit)
    requires PlainProbes(b.items) && Where(b.items, e.id) < |b.items| && !e.Split? && PlainBody(e.body)
    ensures PlainProbes(Apply(orig, b, e).items)
  {
    hide Where, PlainBody;
    var a := Where(b.items, e.id);
    var t, r := Apply(orig, b, e).items, Replacement(b.items[a], e, b.next);
    forall c | 0 <= c < |t| && t[c].Probe? ensures PlainBody(t[c].body) {
      if c < a {
        assert t[c] == b.items[c];
      } else if c < a + |r| {
        assert t[c] == r[c - a];
      } else {
        assert t[c] == b.items[c - |r| + 1];
      }
    }
  }

  lemma {:induction false} EditedState(orig: Code, eh: seq<Clause>, b: Body, e: Edit)
    requires Inv(orig, eh, b) && Present(b.items, |orig|, Tails(orig, |orig|)) && Planned(orig, eh, Tails(orig, |orig|), e) && !e.Split?
    requires |b.items| > 0 && HasId(b.items[0], 0) && PlainProbes(b.items) && PlainBody(e.body)
    ensures Where(b.items, e.id) < |b.items|
    ensures var b' := Apply(orig, b, e);
      && Inv(orig, eh, b') && Present(b'.items, |orig|, Tails(orig, |orig|)) && |b'.items| > 0 && HasId(b'.items[0], 0)
      && PlainProbes(b'.items)
  {
    hide Inv, Where, Present, Planned, Allowed, Apply, PlainProbes, PlainBody;
    PlannedIsAllowed(orig, eh, b, Tails(orig, |orig|), e);
    PlainStays(orig, b, e);
    PlannedIsAllowed(orig, eh, b, Tails(orig, |orig|), e);
    EditKeepsInv(orig, eh, b, e);
    StaysPresent(orig, eh, b, e, Tails(orig, |orig|));
    FirstStays(orig, b, e);
  }

  /** One planned probe, by value: the node the caller holds stays the old one. */
  method MakeProbeInsertion(r: ILRewriter, x: ProbeInsertion, u: Setup, ghost g: Picture, ghost n: Insertion, ghost eh: seq<Clause>)
    returns (ghost g': Picture, ghost added: ILInstr)
    requires Editing(r, g, eh) && Planned(g.orig, eh, Tails(g.orig, |g.orig|), EditOf(u, n)) && Sourced(g.orig, n)
    requires n.id < |g.named| && x == ProbeInsertion(g.named[n.id], n.probe, n.before)
    modifies r`nodes, r`maxStack, r`nInstrs, r`eh, r.il`next, r.il`prev, r.nodes`next, r.nodes`prev, r.nodes`op
    ensures Where(g.body.items, n.id) < |g.body.items|
    ensures g' == Picture(g.orig, Apply(g.orig, g.body, EditOf(u, n)), g.named + [added]) && Editing(r, g', eh)
    ensures forall k :: 0 <= k < |r.nodes| ==> r.nodes[k] in old(r.nodes) || fresh(r.nodes[k])
  {
    hide Inv, Where, Present, Planned, Apply, Shows, Sourced, CoverageBody, PlainProbes, PlainBody;
    PlainEdit(u, n);
    EditedState(g.orig, eh, g.body, EditOf(u, n));
    SourcedOffset(g.named, g.orig, n);
    OffsetsMore(g.named, g.orig);
    var node;
    if x.before {
      node, g' := AddCoverageProbeBefore(r, x.target, x.probe, u.methodId, g, n.id);
    } else {
      node, g' := AddCoverageProbeAfter(r, x.target, x.probe, u.methodId, g, n.id);
    }
    added := node;
  }

  lemma {:induction false} OffsetsMore(named: seq<ILInstr>, orig: Code)
    requires OffsetsKnown(named, orig, |orig|)
    ensures forall x :: OffsetsKnown(named + [x], orig, |orig|)
  {
  }

  lemma {:induction false} PlainEdit(u: Setup, n: Insertion)
    ensures !EditOf(u, n).Split? && PlainBody(EditOf(u, n).body)
  {
  }

  ghost predicate AllPlanned(orig: Code, eh: seq<Clause>, u: Setup, ns: seq<Insertion>) {
    forall n :: n in ns ==> Planned(orig, eh, Tails(orig, |orig|), EditOf(u, n)) && Sourced(orig, n)
  }

  lemma {:induction false} EditsStep(orig: Code, u: Setup, b: Body, n: Insertion, rest: seq<Insertion>)
    requires Where(b.items, n.id) < |b.items|
    ensures ApplyAll(orig, b, EditsOf(u, [n] + rest)) == ApplyAll(orig, Apply(orig, b, EditOf(u, n)), EditsOf(u, rest))
  {
    hide Where, Apply;
    var es := EditsOf(u, [n] + rest);
    assert es[0] == EditOf(u, n);
    assert es[1..] == EditsOf(u, rest);
  }

  lemma {:induction false} NoEdits(orig: Code, u: Setup, b: Body)
    ensures ApplyAll(orig, b, EditsOf(u, [])) == b
  {
  }

  lemma {:induction false} PlanLater(named: seq<ILInstr>, x: ILInstr, plan: seq<ProbeInsertion>, ns: seq<Insertion>)
    requires PlanShown(named, plan, ns)
    ensures PlanShown(named + [x], plan, ns)
  {
  }

  /** All priority probes, remembering the offsets they cover. */
  method InsertPriority(r: ILRewriter, plan: seq<ProbeInsertion>, u: Setup, ghost g: Picture, ghost ns: seq<Insertion>, ghost eh: seq<Clause>)
    returns (covered: set<nat>, ghost g': Picture, ghost more: seq<ILInstr>)
    requires Editing(r, g, eh) && PlanShown(g.named, plan, ns) && AllPlanned(g.orig, eh, u, ns)
    modifies r`nodes, r`maxStack, r`nInstrs, r`eh, r.il`next, r.il`prev, r.nodes`next, r.nodes`prev, r.nodes`op
    ensures Editing(r, g', eh) && g' == Picture(g.orig, ApplyAll(g.orig, g.body, EditsOf(u, ns)), g.named + more)
    ensures covered == OffsetsOf(ns) && r.il.op == old(r.il.op)
    ensures forall k :: 0 <= k < |r.nodes| ==> r.nodes[k] in old(r.nodes) || fresh(r.nodes[k])
  {
    hide Editing, Planned, Sourced, ApplyAll, Apply, Where, EditOf;
    ghost var orig := g.orig;
    covered, g', more := {}, g, [];
    var k := 0;
    assert g.named + [] == g.named && ns[0..] == ns;
    while k < |plan|
      invariant 0 <= k <= |plan| == |ns| && Editing(r, g', eh) && PlanShown(g'.named, plan, ns)
      invariant g'.orig == orig && g'.named == g.named + more
      invariant ApplyAll(orig, g.body, EditsOf(u, ns)) == ApplyAll(orig, g'.body, EditsOf(u, ns[k..]))
      invariant covered == OffsetsOf(ns[..k]) && r.il.op == old(r.il.op)
      invariant forall k :: 0 <= k < |r.nodes| ==> r.nodes[k] in old(r.nodes) || fresh(r.nodes[k])
    {
      ghost var was, n := g', ns[k];
      ghost var added;
      assert n in ns && ns[k..] == [n] + ns[k + 1..];
      SentinelApart(r, g', eh);
      g', added := MakeProbeInsertion(r, plan[k], u, g', n, eh);
      EditsStep(orig, u, was.body, n, ns[k + 1..]);
      PlanLater(was.named, added, plan, ns);
      TargetReports(r, g', eh, n);
      covered := covered + {plan[k].target.offset};
      assert ns[..k + 1] == ns[..k] + [n];
      OffsetsMoreOf(ns[..k], n);
      more := more + [added];
      k := k + 1;
    }
    assert ns[k..] == [] && ns[..k] == ns;
    NoEdits(orig, u, g'.body);
  }

  lemma {:induction false} OffsetsMoreOf(ns: seq<Insertion>, n: Insertion)
    ensures OffsetsOf(ns + [n]) == OffsetsOf(ns) + {n.offset}
  {
    assert n in ns + [n];
    forall m | m in ns ensures m in ns + [n] {
    }
  }

  lemma {:induction false} TargetReports(r: ILRewriter, g: Picture, eh: seq<Clause>, n: Insertion)
    requires Editing(r, g, eh) && Sourced(g.orig, n)
    ensures n.id < |g.named| && g.named[n.id].offset == n.offset
  {
    hide Sourced, Shows, Inv;
    SourcedOffset(g.named, g.orig, n);
  }

  // ----- the ends of blocks in front of branch targets -----

  /** If the node in front of item a holds a tail. prefix, that prefix is the instruction before a's. */
  lemma {:induction false} TailInFront(orig: Code, named: seq<ILInstr>, nodes: seq<ILInstr>, cs: seq<Content>, items: seq<Item>, a: nat)
    requires PlainProbes(items) && a < |items| && 0 < Place(items, a) <= |cs| == |nodes|
    requires forall b :: 0 <= b < |items| ==> HoldsItem(orig, named, nodes, cs, items[b], Place(items, b))
    requires cs[Place(items, a) - 1].op == TAILCALL && (forall b :: 0 <= b < |items| && items[b].Keep? ==> items[b].i == Rank(items, b))
    ensures 0 < Rank(items, a) <= |orig| && orig[Rank(items, a) - 1].op == TAILCALL
  {
    hide PlainBody, Rank, Place, HoldsItem;
    if a == 0 {
      PlaceZero(items);
    }
    var x := items[a - 1];
    NextPlace(items, a - 1);
    RankStep(items, a);
    if x.Probe? {
      assert PlainBody(x.body);
      PlainLast(x.body);
    }
    LastNode(orig, named, nodes, cs, x, Place(items, a - 1));
  }

  /** If the last node of an item holds a tail. prefix, the item carries that prefix. */
  lemma {:induction false} LastNode(orig: Code, named: seq<ILInstr>, nodes: seq<ILInstr>, cs: seq<Content>, x: Item, p: nat)
    requires HoldsItem(orig, named, nodes, cs, x, p) && (x.Probe? ==> PlainBody(x.body))
    requires 0 < Len(x) && p + Len(x) <= |cs| && cs[p + Len(x) - 1].op == TAILCALL
    ensures x.Keep? && x.i < |orig| && orig[x.i].op == TAILCALL
  {
    hide PlainBody, HasTarget, OperandLength;
    if x.Probe? {
      PlainLast(x.body);
    }
  }

  lemma {:induction false} PlainLast(body: seq<Instr>)
    requires PlainBody(body)
    ensures |body| > 0 && body[|body| - 1].op != TAILCALL
  {
  }

  lemma {:induction false} RankStep(items: seq<Item>, a: nat)
    requires 0 < a <= |items|
    ensures Rank(items, a) == Rank(items, a - 1) + if items[a - 1].Keep? then 1 else 0
  {
  }

  /** Where the offset of the call behind every tail. prefix counts as covered, no
      block end still to be probed is such a call. */
  lemma {:induction false} NoTailRet(r: ILRewriter, g: Picture, eh: seq<Clause>, t: nat, covered: set<nat>)
    requires Editing(r, g, eh) && r.il.op == SENTINEL && Instrumentable(g.orig, eh) && t < |g.orig| && NodeOffset(g.orig, t) !in covered
    requires forall j :: 0 <= j < |g.orig| && g.orig[j].op == TAILCALL ==> Offset(g.orig, j + 1) in covered
    ensures t < |g.named| && g.named[t].prev != null && g.named[t].prev.op != TAILCALL
    ensures g.named[t].next != null && g.named[t].next.prev == g.named[t]
  {
    hide Rank, Place, Where, Instrumentable, HoldsItem, Contents, Offset, PlainProbes, PlainBody;
    var items := g.body.items;
    assert AnchoredAt(items, t);
    var a := Where(items, t);
    var s := Place(items, a);
    NodeOf(r, g, t);
    assert LinkedAt(r.il, r.nodes, s) && LinkedAt(r.il, r.nodes, s + 1);
    if s > 0 && r.nodes[s - 1].op == TAILCALL {
      TailInFront(g.orig, g.named, r.nodes, Contents(r.nodes), items, a);
      CallOffset(g.orig, eh, t - 1);
    }
  }

  lemma {:induction false} CallOffset(orig: Code, eh: seq<Clause>, j: nat)
    requires Instrumentable(orig, eh) && j < |orig| && orig[j].op == TAILCALL
    ensures j + 1 < |orig| && NodeOffset(orig, j + 1) == Offset(orig, j + 1)
  {
    assert PrefixOk(orig, j);
  }

  /** The pending part of the plan. */
  ghost function Pending(orig: Code, u: Setup, b: Body, tp: seq<nat>, covered: set<nat>): Body {
    ApplyAll(orig, b, EditsOf(u, Cover(orig, u, tp, covered)))
  }

  ghost predicate Skips(orig: Code, t: nat, covered: set<nat>) {
    t == 0 || t > |orig| || NodeOffset(orig, t - 1) in covered
  }

  lemma {:induction false} CoverSkip(orig: Code, u: Setup, b: Body, tp: seq<nat>, covered: set<nat>)
    requires tp != [] && Skips(orig, tp[0], covered)
    ensures Cover(orig, u, tp, covered) == Cover(orig, u, tp[1..], covered)
  {
    hide NodeOffset;
  }

  function CoverInsertion(orig: Code, u: Setup, t: nat): Insertion
    requires 0 < t <= |orig|
  {
    Insertion(t - 1, u.probes.coverage, false, NodeOffset(orig, t - 1))
  }

  lemma {:induction false} CoverTake(orig: Code, u: Setup, tp: seq<nat>, covered: set<nat>)
    requires tp != [] && !Skips(orig, tp[0], covered)
    ensures Cover(orig, u, tp, covered)
            == [CoverInsertion(orig, u, tp[0])] + Cover(orig, u, tp[1..], covered + {NodeOffset(orig, tp[0] - 1)})
  {
    hide NodeOffset;
  }

  method IsTailcallRet(p: ILInstr) returns (b: bool)
    requires p.prev != null && p.prev.prev != null
    ensures b == (p.op == RET && p.prev.prev.op == TAILCALL)
  {
    var q := p.prev;
    b := p.op == RET && q.prev.op == TAILCALL;
  }

  lemma {:induction false} TargetsLater(il: ILInstr, named: seq<ILInstr>, x: ILInstr, ts: seq<ILInstr>, tp: seq<nat>)
    requires TargetsShown(il, named, ts, tp)
    ensures TargetsShown(il, named + [x], ts, tp)
  {
  }

  lemma {:induction false} BlockEndIs(r: ILRewriter, g: Picture, eh: seq<Clause>, t: nat)
    requires Editing(r, g, eh) && 0 < t <= |g.orig|
    ensures t - 1 < |g.named| && g.named[t - 1] != r.il && g.named[t - 1].offset == NodeOffset(g.orig, t - 1)
  {
  }

  /** Probes behind the ends of blocks that no probe covers yet. */
  method InsertTargets(r: ILRewriter, ts: seq<ILInstr>, known: set<nat>, u: Setup, ghost g: Picture, ghost tp: seq<nat>, ghost eh: seq<Clause>)
    returns (ghost g': Picture)
    requires Editing(r, g, eh) && r.il.op == SENTINEL && Instrumentable(g.orig, eh) && TargetsShown(r.il, g.named, ts, tp)
    requires forall t :: t in tp ==> t <= |g.orig|
    requires forall j :: 0 <= j < |g.orig| && g.orig[j].op == TAILCALL ==> Offset(g.orig, j + 1) in known
    requires AllPlanned(g.orig, eh, u, Cover(g.orig, u, tp, known))
    modifies r`nodes, r`maxStack, r`nInstrs, r`eh, r.il`next, r.il`prev, r.nodes`next, r.nodes`prev, r.nodes`op
    ensures Editing(r, g', eh) && g'.orig == g.orig && g'.body == Pending(g.orig, u, g.body, tp, known)
    ensures forall k :: 0 <= k < |r.nodes| ==> r.nodes[k] in old(r.nodes) || fresh(r.nodes[k])
  {
    hide Editing, Planned, Sourced, Apply, Where, Instrumentable, Cover, NodeOffset, Offset, ApplyAll;
    ghost var orig := g.orig;
    var covered := known;
    g' := g;
    var k := 0;
    assert tp[0..] == tp;
    while k < |ts|
      invariant 0 <= k <= |ts| == |tp| && Editing(r, g', eh) && TargetsShown(r.il, g'.named, ts, tp) && g'.orig == orig
      invariant r.il.op == SENTINEL && known <= covered
      invariant Pending(orig, u, g.body, tp, known) == Pending(orig, u, g'.body, tp[k..], covered)
      invariant AllPlanned(orig, eh, u, Cover(orig, u, tp[k..], covered))
      invariant forall k :: 0 <= k < |r.nodes| ==> r.nodes[k] in old(r.nodes) || fresh(r.nodes[k])
    {
      var target := ts[k];
      ghost var t, was := tp[k], g';
      assert t in tp && tp[k..][0] == t && tp[k..][1..] == tp[k + 1..];
      if t > 0 {
        BlockEndIs(r, g', eh, t);
      }
      if target == r.il || target.offset in covered {
        CoverSkip(orig, u, g'.body, tp[k..], covered);
      } else {
        NoTailRet(r, g', eh, t - 1, covered);
        CoverTake(orig, u, tp[k..], covered);
        ghost var n := CoverInsertion(orig, u, t);
        ghost var rest := Cover(orig, u, tp[k + 1..], covered + {target.offset});
        assert n in [n] + rest;
        covered := covered + {target.offset};
        var ret := IsTailcallRet(target.next);
        assert !ret;
        SentinelApart(r, g', eh);
        ghost var added;
        g', added := MakeProbeInsertion(r, ProbeInsertion(target, u.probes.coverage, false), u, g', n, eh);
        EditsStep(orig, u, was.body, n, rest);
        TargetsLater(r.il, was.named, added, ts, tp);
        assert forall m :: m in rest ==> m in [n] + rest;
      }
      k := k + 1;
    }
    assert tp[k..] == [];
    NothingPending(orig, u, g'.body, covered);
  }

  lemma {:induction false} SentinelApart(r: ILRewriter, g: Picture, eh: seq<Clause>)
    requires Editing(r, g, eh)
    ensures forall k :: 0 <= k < |r.nodes| ==> r.nodes[k] != r.il
  {
  }

  lemma {:induction false} NothingPending(orig: Code, u: Setup, b: Body, covered: set<nat>)
    ensures Pending(orig, u, b, [], covered) == b
  {
    NoEdits(orig, u, b);
  }

  // ----- from the imported list to the rewritten one -----

  lemma {:induction false} ReadyToEdit(r: ILRewriter, g: Picture, eh: seq<Clause>, stack: nat)
    requires AtInstr(r, g, |g.orig|) && Instrumentable(g.orig, eh) && g.body == Prepared(g.orig, eh, stack)
    ensures Editing(r, g, eh)
  {
    hide Shows, Inv, Present, Instrumentable, Prepared, OffsetsKnown, Unmoved;
    PreparedInv(g.orig, eh, stack);
    assert |g.orig| > 0 by { NonEmpty(g.orig, eh); }
    SpotZero(g.orig, |g.orig|);
    assert SpotItem(g.orig, |g.orig|, 0, g.body.items[Spot(g.orig, |g.orig|, 0)]);
  }

  lemma {:induction false} HandlerNode(r: ILRewriter, g: Picture, eh: seq<Clause>, k: nat)
    requires Editing(r, g, eh) && k < |r.eh|
    ensures |r.eh| == |eh| && eh[k].handlerBegin < |g.named| && r.eh[k].handlerBegin == g.named[eh[k].handlerBegin]
  {
    hide ErasesTo, UniqueIds, Anchored, Unbroken, ItemsShown;
    assert ClauseShown(g.named, r.eh[k], g.body.eh[k]);
    assert ClauseKept(g.body.items, eh[k], g.body.eh[k]);
  }

  /** A throw probe at the start of every handler. */
  method CollectHandlers(r: ILRewriter, u: Setup, plan: seq<ProbeInsertion>, ghost g: Picture, ghost ns: seq<Insertion>, ghost eh: seq<Clause>)
    returns (plan': seq<ProbeInsertion>)
    requires Editing(r, g, eh) && PlanShown(g.named, plan, ns)
    ensures PlanShown(g.named, plan', ns + Handlers(g.orig, u, eh))
  {
    hide Editing, NodeOffset;
    plan' := plan;
    ghost var hs := Handlers(g.orig, u, eh);
    var k := 0;
    assert ns + hs[..0] == ns;
    assert |r.eh| == |eh| by { SameClauses(r, g, eh); }
    while k < |r.eh|
      invariant 0 <= k <= |r.eh| && PlanShown(g.named, plan', ns + hs[..k])
    {
      HandlerNode(r, g, eh, k);
      plan' := plan' + [ProbeInsertion(r.eh[k].handlerBegin, u.probes.throw, true)];
      assert ns + hs[..k + 1] == ns + hs[..k] + [hs[k]];
      k := k + 1;
    }
    assert hs[..k] == hs;
  }

  lemma {:induction false} SameClauses(r: ILRewriter, g: Picture, eh: seq<Clause>)
    requires Editing(r, g, eh)
    ensures |r.eh| == |eh|
  {
  }

  lemma {:induction false} PlanFacts(orig: Code, eh: seq<Clause>, u: Setup)
    requires Instrumentable(orig, eh)
    ensures var first := First(orig, u, eh); var tp := Targets(orig, 0);
      && AllPlanned(orig, eh, u, first) && AllPlanned(orig, eh, u, Cover(orig, u, tp, OffsetsOf(first)))
      && (forall j :: 0 <= j < |orig| && orig[j].op == TAILCALL ==> Offset(orig, j + 1) in OffsetsOf(first))
      && (forall t :: t in tp ==> t <= |orig|)
  {
    hide Priority, Cover, Planned, Sourced, EditOf, Instrumentable, Offset, NodeOffset;
    InsertionsPlanned(orig, eh, u);
    InsertionsSourced(orig, eh, u);
    TargetsOk(orig, eh, 0);
    var p, first := Priority(orig, u, 0, false, |orig| + 1), First(orig, u, eh);
    forall j | 0 <= j < |orig| && orig[j].op == TAILCALL ensures Offset(orig, j + 1) in OffsetsOf(first) {
      TailCovered(orig, u, 0, false, |orig| + 1, j);
      var n :| n in p && n.offset == Offset(orig, j + 1);
      assert n in first;
    }
    forall n | n in first ensures n in Insertions(orig, u, eh) {
    }
    var cov := Cover(orig, u, Targets(orig, 0), OffsetsOf(first));
    forall n | n in cov ensures n in Insertions(orig, u, eh) {
    }
  }

  lemma {:induction false} PlanInTwo(orig: Code, eh: seq<Clause>, u: Setup, b: Body)
    ensures var first := First(orig, u, eh);
      ApplyAll(orig, b, EditsOf(u, Insertions(orig, u, eh)))
      == Pending(orig, u, ApplyAll(orig, b, EditsOf(u, first)), Targets(orig, 0), OffsetsOf(first))
  {
    hide ApplyAll, Priority, Cover, EditOf, Targets;
    var first := First(orig, u, eh);
    var cov := Cover(orig, u, Targets(orig, 0), OffsetsOf(first));
    assert EditsOf(u, first + cov) == EditsOf(u, first) + EditsOf(u, cov);
    ApplyAllAppend(orig, b, EditsOf(u, first), EditsOf(u, cov));
  }

  lemma {:induction false} FirstNode(r: ILRewriter, g: Picture, eh: seq<Clause>)
    requires Editing(r, g, eh) && |g.orig| > 0
    ensures |r.nodes| > 0 && r.nodes[0].offset == NodeOffset(g.orig, 0)
  {
    hide NodeOffset;
    assert Place(g.body.items, 0) == 0;
    assert HoldsItem(g.orig, g.named, r.nodes, Contents(r.nodes), g.body.items[0], Place(g.body.items, 0));
  }

  lemma {:induction false} EditingShown(r: ILRewriter, g: Picture, eh: seq<Clause>)
    requires Editing(r, g, eh)
    ensures Shows(r, g)
  {
  }

  /** All insertions of RewriteIL: the list comes to show the planned body. */
  method Weave(r: ILRewriter, u: Setup, ghost g: Picture, ghost eh: seq<Clause>, ghost stack: nat) returns (ghost g': Picture)
    requires AtInstr(r, g, 0) && Instrumentable(g.orig, eh) && r.il.op == SENTINEL && g.body == Imported(g.orig, eh, stack)
    requires |g.orig| > 0
    modifies r`nodes, r`maxStack, r`nInstrs, r`eh, r.il`next, r.il`prev, r.nodes`next, r.nodes`prev, r.nodes`op, r.nodes`offset
    ensures Shows(r, g') && g'.orig == g.orig && g'.body == Rewrite(g.orig, eh, stack, u)
    ensures forall k :: 0 <= k < |r.nodes| ==> r.nodes[k] in old(r.nodes) || fresh(r.nodes[k])
  {
    hide AtInstr, Editing, Instrumentable, Imported, Splits, ApplyAll, Priority, Targets, Cover, Handlers, NodeOffset, PlanShown, TargetsShown,
      AllPlanned, Shows, Pending, EnterBody, Rewrite, Insertions, Offset, OffsetsOf;
    ghost var orig := g.orig;
    ghost var first := First(orig, u, eh);
    var plan, ts, covered;
    ghost var more;
    plan, ts, g' := Collect(r, u, g, eh);
    ReadyToEdit(r, g', eh, stack);
    plan := CollectHandlers(r, u, plan, g', Priority(orig, u, 0, false, |orig| + 1), eh);
    PlanFacts(orig, eh, u);
    ghost var named := g'.named;
    covered, g', more := InsertPriority(r, plan, u, g', first, eh);
    TargetsStill(r.il, named, more, ts, Targets(orig, 0));
    g' := InsertTargets(r, ts, covered, u, g', Targets(orig, 0), eh);
    PlanInTwo(orig, eh, u, Prepared(orig, eh, stack));
    FirstNode(r, g', eh);
    EditingShown(r, g', eh);
    var probe := u.Enter();
    g' := AddEnterProbe(r, probe, u.methodId, g');
    RewriteIs(orig, eh, stack, u);
  }

  lemma {:induction false} TargetsStill(il: ILInstr, named: seq<ILInstr>, more: seq<ILInstr>, ts: seq<ILInstr>, tp: seq<nat>)
    requires TargetsShown(il, named, ts, tp)
    ensures TargetsShown(il, named + more, ts, tp)
  {
  }

  // ----- exception clauses -----

  /** A clause over nodes stands for a clause over positions. */
  predicate RegionShown(il: ILInstr, nodes: seq<ILInstr>, x: EHClause, reg: Region) {
    && reg.tryBegin <= |nodes| && reg.tryEnd <= |nodes| && reg.handlerBegin <= |nodes| && reg.handlerEnd <= |nodes| && reg.filter <= |nodes|
    && x.flags == reg.flags && x.token == reg.token && x.isFilter == reg.isFilter
    && x.tryBegin == InstrList.At(il, nodes, reg.tryBegin) && x.tryEnd == InstrList.At(il, nodes, reg.tryEnd)
    && x.handlerBegin == InstrList.At(il, nodes, reg.handlerBegin) && x.handlerEnd == InstrList.At(il, nodes, reg.handlerEnd - 1)
    && (reg.isFilter ==> x.filter == InstrList.At(il, nodes, reg.filter))
  }

  ghost predicate RegionsShown(r: ILRewriter, regs: seq<Region>)
    reads r`eh, r`nodes
  {
    |r.eh| == |regs| && forall k :: 0 <= k < |regs| ==> RegionShown(r.il, r.nodes, r.eh[k], regs[k])
  }

  /** One clause, unless a bound of it is no start of an instruction. */
  method ImportClause(r: ILRewriter, table: array<ILInstr?>, k: OffsetClause, ghost il: seq<byte>, ghost raws: seq<Raw>) returns (x: Option<EHClause>)
    requires r.Valid() && table.Length == |il| + 1 && table[|il|] == r.il && Tabulated(table[..], r.nodes, raws) && RawsOk(il, raws, 0)
    ensures x.Some? <==> LoadClause(raws, |il|, k).Some?
    ensures x.Some? ==> RegionShown(r.il, r.nodes, x.value, LoadClause(raws, |il|, k).value)
  {
    hide Find, RawsOk, LinkedAt, ILRewriter.Valid;
    var size := table.Length - 1;
    assert |r.nodes| == |raws|;
    var tb := GetInstrFromOffset(table, size, k.tryOffset, r, il, raws);
    var te := GetInstrFromOffset(table, size, k.tryOffset + k.tryLength, r, il, raws);
    var hb := GetInstrFromOffset(table, size, k.handlerOffset, r, il, raws);
    var he := GetInstrFromOffset(table, size, k.handlerOffset + k.handlerLength, r, il, raws);
    var filter := null;
    if k.isFilter {
      filter := GetInstrFromOffset(table, size, k.filterOffset, r, il, raws);
    }
    if tb == null || te == null || hb == null || he == null || (k.isFilter && filter == null) {
      return None;
    }
    BackOne(r, Find(raws, |il|, k.handlerOffset + k.handlerLength).value);
    x := Some(EHClause(k.flags, tb, te, hb, he.prev, k.isFilter, filter, k.token));
  }

  lemma {:induction false} BackOne(r: ILRewriter, k: nat)
    requires r.Valid() && k <= |r.nodes|
    ensures InstrList.At(r.il, r.nodes, k).prev == InstrList.At(r.il, r.nodes, k - 1)
  {
    assert LinkedAt(r.il, r.nodes, k);
  }

  method ImportEH(r: ILRewriter, table: array<ILInstr?>, eh: seq<OffsetClause>, ghost il: seq<byte>, ghost raws: seq<Raw>) returns (ok: bool)
    requires r.Valid() && table.Length == |il| + 1 && table[|il|] == r.il && Tabulated(table[..], r.nodes, raws) && RawsOk(il, raws, 0)
    modifies r`eh
    ensures ok <==> ClausesLoad(raws, |il|, eh)
    ensures ok ==> RegionsShown(r, LoadClauses(raws, |il|, eh))
  {
    hide RawsOk, Tabulated, RegionShown, LoadClause, ILRewriter.Valid;
    var out: seq<EHClause> := [];
    var k := 0;
    while k < |eh|
      invariant 0 <= k <= |eh| && |out| == k
      invariant forall j :: 0 <= j < k ==> LoadClause(raws, |il|, eh[j]).Some?
      invariant forall j :: 0 <= j < k ==> RegionShown(r.il, r.nodes, out[j], LoadClause(raws, |il|, eh[j]).value)
    {
      var x := ImportClause(r, table, eh[k], il, raws);
      if x.None? { return false; }
      out := out + [x.value];
      k := k + 1;
    }
    r.eh := out;
    ok := true;
  }

  method ExportClause(r: ILRewriter, x: EHClause, ghost c: Code, ghost reg: Region) returns (k: OffsetClause)
    requires r.Valid() && OffsetsSet(r.il, r.nodes, c) && RegionShown(r.il, r.nodes, x, reg) && reg.handlerEnd > 0
    ensures |r.nodes| == |c| && k == StoreClause(c, reg)
  {
    hide Offset, OffsetsSet, ILRewriter.Valid;
    assert |r.nodes| == |c| by { SameCount(r, c); }
    TargetOffset(r, c, reg.tryBegin);
    TargetOffset(r, c, reg.tryEnd);
    TargetOffset(r, c, reg.handlerBegin);
    TargetOffset(r, c, reg.handlerEnd);
    Walk(r, reg.handlerEnd - 1);
    var filterOffset := 0;
    if x.isFilter {
      TargetOffset(r, c, reg.filter);
      filterOffset := x.filter.offset;
    }
    var last := x.handlerEnd.next;
    k := OffsetClause(x.flags, x.tryBegin.offset, x.tryEnd.offset - x.tryBegin.offset, x.handlerBegin.offset,
                      last.offset - x.handlerBegin.offset, x.isFilter, filterOffset, x.token);
  }

  lemma {:induction false} SameCount(r: ILRewriter, c: Code)
    requires OffsetsSet(r.il, r.nodes, c)
    ensures |r.nodes| == |c|
  {
  }

  method ExportEH(r: ILRewriter, ghost c: Code, ghost regs: seq<Region>) returns (out: seq<OffsetClause>)
    requires r.Valid() && OffsetsSet(r.il, r.nodes, c) && RegionsShown(r, regs) && forall k :: 0 <= k < |regs| ==> regs[k].handlerEnd > 0
    requires forall k :: 0 <= k < |regs| ==> Nameable(c, regs[k])
    ensures out == StoreAll(c, regs)
  {
    hide OffsetsSet, RegionShown, StoreClause, ILRewriter.Valid, Nameable;
    out := [];
    var k := 0;
    while k < |r.eh|
      invariant 0 <= k <= |r.eh| == |regs| && |out| == k
      invariant forall j :: 0 <= j < k ==> out[j] == StoreAll(c, regs)[j]
    {
      var x := ExportClause(r, r.eh[k], c, regs[k]);
      assert Nameable(c, regs[k]);
      out := out + [x];
      k := k + 1;
    }
  }

  // ----- the list Export gets -----

  /** The node of an original id, or the sentinel for the end, stands at its linked position. */
  lemma {:induction false} NamedPlace(r: ILRewriter, g: Picture, t: nat)
    requires Shows(r, g) && t <= |g.orig| && (t < |g.orig| ==> Where(g.body.items, t) < |g.body.items|)
    ensures t < |g.named| && PlaceOf(|g.orig|, g.body.items, t) <= |r.nodes|
    ensures g.named[t] == InstrList.At(r.il, r.nodes, PlaceOf(|g.orig|, g.body.items, t))
  {
    hide Where, Place, LinkedAt;
    if t < |g.orig| {
      NodeOf(r, g, t);
    }
  }

  lemma {:induction false} AnchoredWhere(orig: Code, eh: seq<Clause>, b: Body, t: nat)
    requires Inv(orig, eh, b) && t < |orig|
    ensures Where(b.items, t) < |b.items|
  {
    assert AnchoredAt(b.items, t);
  }

  lemma {:induction false} ProbeDepicted(u: Setup, limit: nat, items: seq<Item>, a: nat)
    requires SetupOk(u) && BodiesOk(u, limit, items) && limit < 0x8000_0000 && a < |items| && items[a].Probe?
    ensures forall j :: 0 <= j < |items[a].body| ==> !HasTarget(items[a].body[j].op)
  {
    hide SetupOk, BodyOk;
    BodyShape(u, limit, items[a].body);
  }

  /** The nodes of a shown body are those of the linked code. */
  lemma {:induction false} ShownDepicts(r: ILRewriter, g: Picture, eh: seq<Clause>, u: Setup, limit: nat)
    requires Shows(r, g) && Ready(g.orig, eh, g.body, u, limit)
    ensures Depicts(r.il, r.nodes, Contents(r.nodes), Linked(g.orig, g.body.items))
  {
    hide Inv, Place, Linked, SetupOk, BodiesOk, Canonical, HoldsItem, DepictsAt, LinkedAt, Contents, InRange, Tables, Shows;
    var c, items := Linked(g.orig, g.body.items), g.body.items;
    var cs := Contents(r.nodes);
    LinkedLength(g.orig, items);
    ShownLength(r, g);
    forall p | 0 <= p < |c| ensures DepictsAt(r.il, r.nodes, cs[p], c[p]) {
      var a, k := Locate(items, |items|, p);
      LinkedEntry(g.orig, items, a, k);
      ShownItem(r, g, a);
      if items[a].Probe? {
        ProbeDepicted(u, limit, items, a);
        BodyEntry(g.orig, g.named, r.nodes, cs, items[a], Place(items, a), k, r.il);
      } else if items[a].Keep? {
        KeptInside(g.orig, items, a);
        var e := g.orig[items[a].i];
        if HasTarget(e.op) {
          TargetInside(g.orig, eh, g.body, u, limit, items[a].i);
          if e.target < |g.orig| {
            AnchoredWhere(g.orig, eh, g.body, e.target);
          }
          NamedPlace(r, g, e.target);
        }
        KeepEntry(g.orig, g.named, r.nodes, cs, items, a, r.il);
      } else {
        NopEntry(g.orig, g.named, r.nodes, cs, items[a], Place(items, a), r.il);
      }
    }
  }

  lemma {:induction false} ShownLength(r: ILRewriter, g: Picture)
    requires Shows(r, g)
    ensures |r.nodes| == Place(g.body.items, |g.body.items|)
  {
  }

  lemma {:induction false} ShownItem(r: ILRewriter, g: Picture, a: nat)
    requires Shows(r, g) && a < |g.body.items|
    ensures HoldsItem(g.orig, g.named, r.nodes, Contents(r.nodes), g.body.items[a], Place(g.body.items, a))
  {
  }

  lemma {:induction false} KeptInside(orig: Code, items: seq<Item>, a: nat)
    requires InRange(orig, items) && a < |items| && items[a].Keep?
    ensures items[a].i < |orig|
  {
  }

  lemma {:induction false} TargetInside(orig: Code, eh: seq<Clause>, b: Body, u: Setup, limit: nat, i: nat)
    requires Ready(orig, eh, b, u, limit) && i < |orig| && HasTarget(orig[i].op)
    ensures orig[i].target <= |orig|
  {
    assert EntryCanonical(orig, i);
  }

  lemma {:induction false} BodyEntry(orig: Code, named: seq<ILInstr>, nodes: seq<ILInstr>, cs: seq<Content>, x: Item, p: nat, k: nat, il: ILInstr)
    requires x.Probe? && HoldsItem(orig, named, nodes, cs, x, p) && k < |x.body| && !HasTarget(x.body[k].op)
    ensures p + k < |cs| && DepictsAt(il, nodes, cs[p + k], x.body[k])
  {
  }

  lemma {:induction false} NopEntry(orig: Code, named: seq<ILInstr>, nodes: seq<ILInstr>, cs: seq<Content>, x: Item, p: nat, il: ILInstr)
    requires x.Nop? && HoldsItem(orig, named, nodes, cs, x, p)
    ensures p < |cs| && DepictsAt(il, nodes, cs[p], Instr(NOP, 0, 0))
  {
  }

  lemma {:induction false} KeepEntry(orig: Code, named: seq<ILInstr>, nodes: seq<ILInstr>, cs: seq<Content>, items: seq<Item>, a: nat, il: ILInstr)
    requires a < |items| && items[a].Keep? && items[a].i < |orig|
    requires HoldsItem(orig, named, nodes, cs, items[a], Place(items, a))
    requires var e := orig[items[a].i]; HasTarget(e.op) ==>
      e.target < |named| && named[e.target] == InstrList.At(il, nodes, PlaceOf(|orig|, items, e.target))
    ensures Place(items, a) < |cs| && DepictsAt(il, nodes, cs[Place(items, a)], EmitItem(orig, items, items[a])[0])
  {
    hide Place, PlaceOf;
  }

  /** The clauses over nodes are the linked ones. */
  lemma {:induction false} ShownRegion(r: ILRewriter, g: Picture, eh: seq<Clause>, k: nat)
    requires Shows(r, g) && Linkable(g.orig, eh, g.body) && k < |eh|
    ensures |r.eh| == |eh| && RegionShown(r.il, r.nodes, r.eh[k], LinkClause(|g.orig|, g.body.items, g.body.eh[k]))
    ensures LinkClause(|g.orig|, g.body.items, g.body.eh[k]).handlerEnd > 0
  {
    hide Place, Where, PlaceOf, ErasesTo, UniqueIds, Unbroken, ItemsShown, LinkedAt, AnchoredAt;
    var items, x := g.body.items, g.body.eh[k];
    assert ClauseShown(g.named, r.eh[k], x);
    assert ClauseKept(items, eh[k], x) && ClauseInRange(|g.orig|, eh[k]);
    BoundShown(r, g, eh, x.tryBegin);
    BoundShown(r, g, eh, x.tryEnd);
    BoundShown(r, g, eh, x.handlerBegin);
    BoundShown(r, g, eh, x.filter);
    var a := Where(items, x.handlerEnd);
    NodeOf(r, g, x.handlerEnd);
    NextPlace(items, a);
  }

  lemma {:induction false} BoundShown(r: ILRewriter, g: Picture, eh: seq<Clause>, t: nat)
    requires Shows(r, g) && Inv(g.orig, eh, g.body) && t <= |g.orig|
    ensures t < |g.named| && PlaceOf(|g.orig|, g.body.items, t) <= |r.nodes|
    ensures g.named[t] == InstrList.At(r.il, r.nodes, PlaceOf(|g.orig|, g.body.items, t))
  {
    hide Inv, Place, Where, Shows;
    if t < |g.orig| {
      AnchoredWhere(g.orig, eh, g.body, t);
    }
    NamedPlace(r, g, t);
  }

  // ----- RewriteIL -----

  lemma {:induction false} RegionClauses(r: ILRewriter, regs: seq<Region>)
    requires RegionsShown(r, regs) && forall k :: 0 <= k < |regs| ==> regs[k].handlerEnd > 0
    ensures |r.eh| == |regs| && forall k :: 0 <= k < |regs| ==> ClauseShown(r.nodes + [r.il], r.eh[k], ClauseOf(regs[k]))
  {
    forall k | 0 <= k < |regs| ensures ClauseShown(r.nodes + [r.il], r.eh[k], ClauseOf(regs[k])) {
      assert RegionShown(r.il, r.nodes, r.eh[k], regs[k]);
    }
  }

  lemma {:induction false} Started(r: ILRewriter, orig: Code, eh: seq<Clause>, stack: nat)
    requires Shows(r, Start(orig, eh, stack, r)) && |r.nodes| == |orig|
    requires forall k :: 0 <= k < |r.nodes| ==> r.nodes[k].offset == Offset(orig, k)
    ensures AtInstr(r, Start(orig, eh, stack, r), 0)
  {
    hide Shows, Offset;
    ShapeStart(orig, eh, stack);
    assert Tails(orig, 0) == 0;
  }

  /** How rewriting a method ends; the assertions are those on bounds and branches
      that lead to no instruction. */
  datatype Outcome = Rewritten(body: MethodBody) | InvalidProgram | AssertionFailed

  lemma {:induction false} LoadedClauses(m: MethodBody)
    requires Import(m.il).Accepted? && Parse(m.il, 0).Some?
    ensures Load(m).Some? <==> ClausesLoad(Parse(m.il, 0).value, |m.il|, m.eh)
    ensures Load(m).Some? ==> Load(m).value == Program(Import(m.il).code, LoadClauses(Parse(m.il, 0).value, |m.il|, m.eh))
  {
    hide Parse, LoadClause, Resolvable;
  }

  lemma {:induction false} LoadNeedsImport(m: MethodBody)
    ensures Load(m).Some? ==> Import(m.il).Accepted?
  {
  }

  /** The imported list shows the original code, with its offsets and clauses. */
  method StartList(r: ILRewriter, ghost m: MethodBody, ghost u: Setup) returns (ghost g: Picture)
    requires Acceptable(m, u) && r.Valid() && Depicts(r.il, r.nodes, Contents(r.nodes), Input(m, u).code) && RegionsShown(r, Input(m, u).eh)
    requires r.maxStack == m.maxStack + BodyPushes(Input(m, u).code) && r.nInstrs == |r.nodes|
    modifies r.nodes`offset
    ensures AtInstr(r, g, 0) && g.orig == Input(m, u).code && g.body == Imported(g.orig, InputClauses(m, u), m.maxStack)
  {
    hide ILRewriter.Valid, AtInstr, Depicts, Contents, Instrumentable, BodyPushes, Offset, RegionsShown, ClauseShown, Imported, SetupOk, Shows, ClauseOf, Load;
    ghost var p := Input(m, u);
    LoadedOk(m);
    DepictsLength(r, p.code);
    CountOffsets(r, p.code);
    RegionClauses(r, p.eh);
    StartShown(r, p.code, InputClauses(m, u), m.maxStack);
    g := Start(p.code, InputClauses(m, u), m.maxStack, r);
    Started(r, p.code, InputClauses(m, u), m.maxStack);
  }

  method ImportBody(m: MethodBody, u: Setup) returns (valid: bool, ok: bool, r: ILRewriter, ghost g: Picture)
    requires Load(m).Some? ==> Acceptable(m, u)
    ensures valid <==> !Import(m.il).Invalid?
    ensures valid && ok <==> Load(m).Some?
    ensures valid && ok ==> Acceptable(m, u) && AtInstr(r, g, 0) && r.il.op == SENTINEL
    ensures valid && ok ==> g.orig == Input(m, u).code && g.body == Imported(g.orig, InputClauses(m, u), m.maxStack)
    ensures fresh(r) && fresh(r.il) && forall k :: 0 <= k < |r.nodes| ==> fresh(r.nodes[k])
  {
    hide ILRewriter.Valid, AtInstr, Depicts, Contents, Parse, RawsOk, Tabulated, Resolved, BodyPushes, RegionsShown, Imported, Import, Load, Acceptable,
      InputClauses, ClausesLoad;
    r := new ILRewriter(m.maxStack);
    var table;
    LoadNeedsImport(m);
    valid, ok, table := ImportIL(r, m.il, m.maxStack);
    g := Picture([], Imported([], [], 0), []);
    if !valid || !ok { return; }
    LoadedClauses(m);
    ok := ImportEH(r, table, m.eh, m.il, Parse(m.il, 0).value);
    if !ok { return; }
    g := StartList(r, m, u);
  }

  lemma {:induction false} ShownRegions(r: ILRewriter, g: Picture, m: MethodBody, u: Setup)
    requires Acceptable(m, u) && Shows(r, g) && g.orig == Input(m, u).code && g.body == Output(m, u)
    ensures RegionsShown(r, Woven(m, u).eh) && forall k :: 0 <= k < |Woven(m, u).eh| ==> Woven(m, u).eh[k].handlerEnd > 0
    ensures Depicts(r.il, r.nodes, Contents(r.nodes), Woven(m, u).code)
  {
    hide Acceptable, Input, InputClauses, Output, Ready, ProbesOk, Shows, RegionShown, Inv, Linked, LinkClause, Woven, Depicts, InRange;
    OutputReady(m, u);
    WovenIs(m, u);
    ShownDepicts(r, g, InputClauses(m, u), u, 10 * |Input(m, u).code|);
    forall k | 0 <= k < |Woven(m, u).eh|
      ensures |r.eh| == |Woven(m, u).eh| && RegionShown(r.il, r.nodes, r.eh[k], Woven(m, u).eh[k]) && Woven(m, u).eh[k].handlerEnd > 0
    {
      ShownRegion(r, g, InputClauses(m, u), k);
    }
    assert |r.eh| == |Woven(m, u).eh| by { ShownClauseCount(r, g); }
  }

  lemma {:induction false} ShownClauseCount(r: ILRewriter, g: Picture)
    requires Shows(r, g)
    ensures |r.eh| == |g.body.eh|
  {
  }

  /** Export: the bytes, the clauses and the stack limit of the rewritten method. */
  method ExportBody(r: ILRewriter, ghost g: Picture, ghost m: MethodBody, ghost u: Setup) returns (out: MethodBody)
    requires Acceptable(m, u) && Shows(r, g) && g.orig == Input(m, u).code && g.body == Output(m, u)
    modifies r.il`offset, r.nodes`offset, r.nodes`op
    ensures out == Meaning.RewriteIL(m, u)
  {
    hide Acceptable, Input, Output, ILRewriter.Valid, NamesOk, ItemsShown, ClausesShown, RegionsShown, Woven, Depicts, OffsetsSet, Nameable, Encode, Canonical,
      Consistent, Widens, Contents;
    WovenCanonical(m, u);
    ExportedOk(m, u);
    ExportedClauses(m, u);
    ShownRegions(r, g, m, u);
    ghost var c := Woven(m, u).code;
    var code := ExportCode(r, c);
    var eh := ExportEH(r, Relax(c), Woven(m, u).eh);
    out := MethodBody(code, eh, r.maxStack);
  }

  /** RewriteIL does what its specification says: it reports an invalid stream,
      asserts where a branch or a bound leads to no instruction, and otherwise hands
      over the rewritten method, of which RewrittenDoesAll, RewrittenDoesNoMore and
      RewrittenStackBound speak. */
  method RewriteIL(m: MethodBody, u: Setup) returns (out: Outcome)
    requires Load(m).Some? ==> Acceptable(m, u)
    ensures out.InvalidProgram? <==> Import(m.il).Invalid?
    ensures out.Rewritten? <==> Load(m).Some?
    ensures out.Rewritten? ==> Acceptable(m, u) && out.body == Meaning.RewriteIL(m, u)
  {
    hide Acceptable, Input, InputClauses, AtInstr, Shows, Rewrite, Imported, Instrumentable, Load, Import;
    LoadNeedsImport(m);
    var valid, ok, r;
    ghost var g;
    valid, ok, r, g := ImportBody(m, u);
    if !valid { return InvalidProgram; }
    if !ok { return AssertionFailed; }
    AcceptedNonEmpty(m, u);
    assert Instrumentable(g.orig, InputClauses(m, u)) by { AcceptedInstrumentable(m, u); }
    g := Weave(r, u, g, InputClauses(m, u), m.maxStack);
    var body := ExportBody(r, g, m, u);
    out := Rewritten(body);
  }
}
