/** The first loop of RewriteIL: which nodes get which probe. */
module Planning {
  import opened Opcodes
  import opened Layout
  import opened Bytes
  import opened Codec
  import opened Splice
  import opened Linking
  import opened InstrList
  import opened Probing
  import opened Exporting
  import opened Rewriting

  // ----- the freshly imported list -----

  lemma {:induction false} ImportedPlace(orig: Code, eh: seq<Clause>, m: nat, a: nat)
    requires a <= |orig|
    ensures Place(Imported(orig, eh, m).items, a) == a
  {
    if a > 0 {
      ImportedPlace(orig, eh, m, a - 1);
    }
  }

  /** The picture the rewriter starts from: node i carries instruction i. */
  ghost function Start(orig: Code, eh: seq<Clause>, stack: nat, r: ILRewriter): Picture
    reads r`nodes
  {
    Picture(orig, Imported(orig, eh, stack), r.nodes + [r.il])
  }

  lemma {:induction false} NamedAt(il: ILInstr, nodes: seq<ILInstr>, t: nat)
    requires t <= |nodes|
    ensures (nodes + [il])[t] == At(il, nodes, t)
  {
  }

  lemma {:induction false} StartShown(r: ILRewriter, orig: Code, eh: seq<Clause>, stack: nat)
    requires r.Valid() && WellFormed(orig) && Depicts(r.il, r.nodes, Contents(r.nodes), orig)
    requires r.maxStack == stack + BodyPushes(orig) && r.nInstrs == |r.nodes|
    requires |r.eh| == |eh| && forall k :: 0 <= k < |eh| ==> ClauseShown(r.nodes + [r.il], r.eh[k], eh[k])
    ensures Shows(r, Start(orig, eh, stack, r))
  {
    hide Contents, Place, LinkedAt, OperandSize;
    var g := Start(orig, eh, stack, r);
    var cs := Contents(r.nodes);
    ImportedPlace(orig, eh, stack, |orig|);
    forall a | 0 <= a < |orig| ensures HoldsItem(orig, g.named, r.nodes, cs, g.body.items[a], Place(g.body.items, a)) {
      ImportedPlace(orig, eh, stack, a);
      assert DepictsAt(r.il, r.nodes, cs[a], orig[a]);
      NamedAt(r.il, r.nodes, orig[a].target);
    }
  }

  /** Offsets of the original code, as the probes report them. */
  method CountOffsets(r: ILRewriter, ghost c: Code)
    requires r.Valid() && WellFormed(c) && Depicts(r.il, r.nodes, Contents(r.nodes), c)
    modifies r.nodes`offset
    ensures forall k :: 0 <= k < |r.nodes| ==> r.nodes[k].offset == Offset(c, k)
  {
    hide ILRewriter.Valid, Contents, Depicts, Offset, Size, OpcodeLength, OperandLength;
    var p, offset := r.il.next, 0;
    ghost var i := 0;
    Walk(r, 0);
    OffsetZero(c);
    DepictsLength(r, c);
    while p != r.il
      invariant 0 <= i <= |r.nodes| && p == At(r.il, r.nodes, i) && offset == Offset(c, i)
      invariant forall k :: 0 <= k < i ==> r.nodes[k].offset == Offset(c, k)
      decreases |r.nodes| - i
    {
      Walk(r, i);
      DepictsNode(r, c, i);
      OffsetNext(c, i);
      p.offset := offset;
      offset := offset + OpcodeLength(p.op) + OperandLength(p.op);
      p := p.next;
      i := i + 1;
      Walk(r, i);
    }
  }

  // ----- the list while tail. prefixes are split off -----

  /** Where original node j stands once the prefixes in front of i are split. */
  function Spot(orig: Code, i: nat, j: nat): nat
    requires i <= |orig| && j <= |orig|
  {
    j + Tails(orig, if j <= i then j else i)
  }

  /** The items after splitting the prefixes in front of i. */
  ghost predicate SplitShape(orig: Code, items: seq<Item>, i: nat)
    requires i <= |orig|
  {
    && |items| == |orig| + Tails(orig, i)
    && (forall a :: 0 <= a < |items| ==> !items[a].Probe?)
    && (forall j :: 0 <= j < |orig| ==> Spot(orig, i, j) < |items| && SpotItem(orig, i, j, items[Spot(orig, i, j)]))
  }

  predicate SpotItem(orig: Code, i: nat, j: nat, x: Item)
    requires j < |orig|
  {
    x == if j < i && orig[j].op == TAILCALL then Nop(j) else Keep(j, j)
  }

  lemma {:induction false} FlatPlace(items: seq<Item>, a: nat)
    requires a <= |items| && forall b :: 0 <= b < |items| ==> !items[b].Probe?
    ensures Place(items, a) == a
  {
    if a > 0 {
      FlatPlace(items, a - 1);
    }
  }

  /** In a list without probes, a node's item is the one at its position. */
  lemma {:induction false} SpotNode(r: ILRewriter, g: Picture, i: nat, j: nat)
    requires Shows(r, g) && i <= |g.orig| && j < |g.orig| && SplitShape(g.orig, g.body.items, i)
    ensures var s := Spot(g.orig, i, j);
      && s < |r.nodes| == |g.body.items| && j < |g.named| && r.nodes[s] == g.named[j]
      && Where(g.body.items, j) == s && Place(g.body.items, s) == s
      && HoldsItem(g.orig, g.named, r.nodes, Contents(r.nodes), g.body.items[s], s)
  {
    hide Contents, Place, LinkedAt, Tails, Spot;
    var items, s := g.body.items, Spot(g.orig, i, j);
    var cs := Contents(r.nodes);
    FlatPlace(items, |items|);
    FlatPlace(items, s);
    assert SpotItem(g.orig, i, j, items[s]);
    assert HoldsItem(g.orig, g.named, r.nodes, cs, items[s], s);
    var w := Where(items, j);
    assert HasId(items[s], j) && w <= s;
    FlatPlace(items, w);
    assert HoldsItem(g.orig, g.named, r.nodes, cs, items[w], Place(items, w));
  }

  /** A node not yet visited carries its instruction. */
  lemma {:induction false} AheadNode(r: ILRewriter, g: Picture, i: nat, j: nat)
    requires Shows(r, g) && i <= j < |g.orig| && SplitShape(g.orig, g.body.items, i)
    ensures j < |g.named| && var p := g.named[j];
      && Carries(g.named, ContentOf(p), g.orig[j]) && Spot(g.orig, i, j) < |r.nodes| && p == r.nodes[Spot(g.orig, i, j)]
  {
    hide Contents, Place, LinkedAt, Tails, Spot;
    SpotNode(r, g, i, j);
    assert SpotItem(g.orig, i, j, g.body.items[Spot(g.orig, i, j)]);
  }

  lemma {:induction false} ShapeStart(orig: Code, eh: seq<Clause>, stack: nat)
    ensures SplitShape(orig, Imported(orig, eh, stack).items, 0)
  {
    var items := Imported(orig, eh, stack).items;
    assert Tails(orig, 0) == 0;
    forall j | 0 <= j < |orig| ensures Spot(orig, 0, j) == j {
    }
  }

  lemma {:induction false} SpotSteps(orig: Code, i: nat, j: nat)
    requires i < |orig| && j <= |orig|
    ensures Spot(orig, i + 1, j) == Spot(orig, i, j) + if i < j && orig[i].op == TAILCALL then 1 else 0
  {
    assert Tails(orig, i + 1) == Tails(orig, i) + if orig[i].op == TAILCALL then 1 else 0;
  }

  lemma {:induction false} SpotOrder(orig: Code, i: nat, j: nat, k: nat)
    requires i <= |orig| && j < k <= |orig|
    ensures Spot(orig, i, j) < Spot(orig, i, k)
  {
    TailsGrow(orig, if j <= i then j else i, if k <= i then k else i);
  }

  /** Visiting an instruction that is no tail. leaves the shape. */
  lemma {:induction false} ShapePlain(orig: Code, items: seq<Item>, i: nat)
    requires i < |orig| && SplitShape(orig, items, i) && orig[i].op != TAILCALL
    ensures SplitShape(orig, items, i + 1)
  {
    hide Spot;
    var n := i + 1;
    assert Tails(orig, n) == Tails(orig, i);
    forall j | 0 <= j < |orig| ensures Spot(orig, n, j) < |items| && SpotItem(orig, n, j, items[Spot(orig, n, j)])
    {
      SpotSteps(orig, i, j);
      assert SpotItem(orig, i, j, items[Spot(orig, i, j)]);
    }
  }

  lemma {:induction false} ShapeSplit(orig: Code, b: Body, i: nat)
    requires i < |orig| && SplitShape(orig, b.items, i) && orig[i].op == TAILCALL && Where(b.items, i) == Spot(orig, i, i)
    ensures SplitShape(orig, Apply(orig, b, Split(i)).items, i + 1)
  {
    hide Spot, Where;
    var items, s := b.items, Spot(orig, i, i);
    var t := Apply(orig, b, Split(i)).items;
    assert SpotItem(orig, i, i, items[s]);
    assert t == items[..s] + [Nop(i), Keep(i, b.next)] + items[s + 1..];
    var n := i + 1;
    assert Tails(orig, n) == Tails(orig, i) + 1;
    forall j | 0 <= j < |orig| ensures Spot(orig, n, j) < |t| && SpotItem(orig, n, j, t[Spot(orig, n, j)])
    {
      SpotSteps(orig, i, j);
      assert SpotItem(orig, i, j, items[Spot(orig, i, j)]);
      if j < i {
        SpotOrder(orig, i, j, i);
      } else if i < j {
        SpotOrder(orig, i, i, j);
      }
    }
  }

  // ----- neighbours -----

  /** Original node t, or the sentinel for the end of the code. */
  lemma {:induction false} SpotAt(r: ILRewriter, g: Picture, i: nat, t: nat)
    requires Shows(r, g) && i <= |g.orig| && t <= |g.orig| && SplitShape(g.orig, g.body.items, i)
    ensures t < |g.named| && g.named[t] == At(r.il, r.nodes, Spot(g.orig, i, t)) && Spot(g.orig, i, t) <= |r.nodes|
    ensures t == |g.orig| ==> Spot(g.orig, i, t) == |r.nodes|
  {
    hide Contents, Place, LinkedAt, Tails, HoldsItem;
    if t < |g.orig| {
      SpotNode(r, g, i, t);
    } else {
      FlatPlace(g.body.items, |g.body.items|);
    }
  }

  /** In front of a node that no prefix precedes stands the node of the instruction before. */
  lemma {:induction false} PrevNode(r: ILRewriter, g: Picture, i: nat, t: nat)
    requires Shows(r, g) && i <= |g.orig| && t <= |g.orig| && SplitShape(g.orig, g.body.items, i)
    requires t > 0 ==> g.orig[t - 1].op != TAILCALL
    ensures t < |g.named| && g.named[t].prev == if t == 0 then r.il else g.named[t - 1]
  {
    hide Contents, Place, Tails, HoldsItem, ItemsShown, SplitShape;
    SpotAt(r, g, i, t);
    var s := Spot(g.orig, i, t);
    assert LinkedAt(r.il, r.nodes, s);
    if t > 0 {
      SpotAt(r, g, i, t - 1);
      SpotAdjacent(g.orig, i, t);
      if t == |g.orig| {
        SpotInside(r, g, i, t - 1);
      }
    } else {
      SpotZero(g.orig, i);
    }
  }

  lemma {:induction false} SpotInside(r: ILRewriter, g: Picture, i: nat, t: nat)
    requires Shows(r, g) && i <= |g.orig| && t < |g.orig| && SplitShape(g.orig, g.body.items, i)
    ensures Spot(g.orig, i, t) < |r.nodes|
  {
    hide Contents, Place, Tails, HoldsItem, LinkedAt;
    SpotNode(r, g, i, t);
  }

  lemma {:induction false} SpotZero(orig: Code, i: nat)
    requires i <= |orig|
    ensures Spot(orig, i, 0) == 0
  {
  }

  lemma {:induction false} SpotAdjacent(orig: Code, i: nat, t: nat)
    requires i <= |orig| && 0 < t <= |orig| && (t <= i ==> orig[t - 1].op != TAILCALL)
    ensures Spot(orig, i, t) == Spot(orig, i, t - 1) + 1
  {
  }

  lemma {:induction false} NextNode(r: ILRewriter, g: Picture, i: nat, t: nat)
    requires Shows(r, g) && i <= |g.orig| && t < |g.orig| && SplitShape(g.orig, g.body.items, i)
    requires t < i ==> g.orig[t].op != TAILCALL
    ensures t + 1 < |g.named| && g.named[t].next == g.named[t + 1]
  {
    hide Contents, Place, Tails, HoldsItem, ItemsShown, SplitShape;
    SpotAt(r, g, i, t);
    SpotAt(r, g, i, t + 1);
    SpotAdjacent(g.orig, i, t + 1);
    SpotInside(r, g, i, t);
    assert LinkedAt(r.il, r.nodes, Spot(g.orig, i, t + 1));
  }

  // ----- what is collected -----

  datatype ProbeInsertion = ProbeInsertion(target: ILInstr, probe: ProbeCall, before: bool)

  /** The collected insertions are the planned ones, by node instead of by id. */
  ghost predicate PlanShown(named: seq<ILInstr>, plan: seq<ProbeInsertion>, ns: seq<Insertion>) {
    |plan| == |ns| && forall k :: 0 <= k < |plan| ==>
      ns[k].id < |named| && plan[k] == ProbeInsertion(named[ns[k].id], ns[k].probe, ns[k].before)
  }

  lemma {:induction false} PlanMore(named: seq<ILInstr>, more: seq<ILInstr>, plan: seq<ProbeInsertion>, ns: seq<Insertion>, plan': seq<ProbeInsertion>, ns': seq<Insertion>)
    requires PlanShown(named, plan, ns) && PlanShown(named + more, plan', ns')
    ensures PlanShown(named + more, plan + plan', ns + ns')
  {
  }

  /** The nodes in front of the planned branch targets. */
  ghost predicate TargetsShown(il: ILInstr, named: seq<ILInstr>, ts: seq<ILInstr>, tp: seq<nat>) {
    |ts| == |tp| && forall k :: 0 <= k < |ts| ==>
      tp[k] < |named| && ts[k] == if tp[k] == 0 then il else named[tp[k] - 1]
  }

  lemma {:induction false} TargetsMore(il: ILInstr, named: seq<ILInstr>, more: seq<ILInstr>, ts: seq<ILInstr>, tp: seq<nat>, ts': seq<ILInstr>, tp': seq<nat>)
    requires TargetsShown(il, named, ts, tp) && TargetsShown(il, named + more, ts', tp')
    ensures TargetsShown(il, named + more, ts + ts', tp + tp')
  {
  }

  /** Offsets once the prefixes in front of i are split. */
  ghost predicate OffsetsKnown(named: seq<ILInstr>, orig: Code, i: nat)
    reads named`offset
  {
    && i <= |orig| && |orig| + Tails(orig, i) < |named|
    && (forall j :: 0 <= j < |orig| ==> named[j].offset == if j < i then NodeOffset(orig, j) else Offset(orig, j))
    && (forall j :: 0 <= j < i && orig[j].op == TAILCALL ==> TailNode(orig, j) < |named| && named[TailNode(orig, j)].offset == Offset(orig, j + 1))
  }

  /** The state of the first loop at instruction i. */
  ghost predicate AtInstr(r: ILRewriter, g: Picture, i: nat)
    reads r, r.il`next, r.il`prev, r.nodes`next, r.nodes`prev, r.nodes`op, r.nodes`arg, r.nodes`target, g.named`offset
  {
    && Shows(r, g) && i <= |g.orig| && SplitShape(g.orig, g.body.items, i)
    && g.body.next == TailNode(g.orig, i) && OffsetsKnown(g.named, g.orig, i)
  }

  lemma {:induction false} TargetAt(orig: Code, eh: seq<Clause>, j: nat)
    requires Instrumentable(orig, eh) && j < |orig| && HasTarget(orig[j].op)
    ensures var t := orig[j].target; t <= |orig| && (t > 0 ==> orig[t - 1].op != TAILCALL)
  {
    assert TargetOk(orig, orig[j].target);
  }

  /** The node in front of the target of a branch not yet visited. */
  method BlockEnd(r: ILRewriter, p: ILInstr, ghost g: Picture, ghost i: nat, ghost j: nat, ghost eh: seq<Clause>) returns (q: ILInstr)
    requires AtInstr(r, g, i) && Instrumentable(g.orig, eh) && i <= j < |g.orig| && HasTarget(g.orig[j].op)
    requires j < |g.named| && p == g.named[j]
    ensures TargetsShown(r.il, g.named, [q], [g.orig[j].target])
  {
    hide Instrumentable, SplitShape, Shows, OffsetsKnown;
    TargetAt(g.orig, eh, j);
    AheadNode(r, g, i, j);
    PrevNode(r, g, i, g.orig[j].target);
    var t := p.target;
    q := t.prev;
  }

  lemma {:induction false} TableAt(orig: Code, eh: seq<Clause>, i: nat)
    requires Instrumentable(orig, eh) && i < |orig| && orig[i].op == SWITCH
    ensures 0 <= orig[i].arg == TableLength(orig, i) < |orig| - i
    ensures forall j :: i < j <= i + orig[i].arg ==> orig[j].op == SWITCH_ARG
  {
    assert TableOk(orig, i);
  }

  /** The ends of the blocks in front of all arms of a switch. */
  method SwitchEnds(r: ILRewriter, p: ILInstr, ghost g: Picture, ghost i: nat, ghost eh: seq<Clause>) returns (ts: seq<ILInstr>)
    requires AtInstr(r, g, i) && Instrumentable(g.orig, eh) && i < |g.orig| && g.orig[i].op == SWITCH
    requires i < |g.named| && p == g.named[i]
    ensures TargetsShown(r.il, g.named, ts, TargetsAt(g.orig, i))
  {
    hide Instrumentable, SplitShape, Shows, OffsetsKnown;
    TableAt(g.orig, eh, i);
    AheadNode(r, g, i, i);
    NextNode(r, g, i, i);
    var cur, k := p.next, 0;
    ts := [];
    ghost var tp := TargetsAt(g.orig, i);
    while k < p.arg
      invariant 0 <= k <= p.arg == |tp| && i + 1 + k < |g.named| && cur == g.named[i + 1 + k]
      invariant TargetsShown(r.il, g.named, ts, tp[..k])
    {
      ghost var j := i + 1 + k;
      var q := BlockEnd(r, cur, g, i, j, eh);
      TargetsMore(r.il, g.named, [], ts, tp[..k], [q], [g.orig[j].target]);
      assert g.named + [] == g.named;
      assert tp[..k + 1] == tp[..k] + [g.orig[j].target];
      ts := ts + [q];
      NextNode(r, g, i, j);
      cur := cur.next;
      k := k + 1;
    }
    assert tp[..k] == tp;
  }

  lemma {:induction false} TailAhead(orig: Code, eh: seq<Clause>, i: nat)
    requires Instrumentable(orig, eh) && i < |orig| && orig[i].op == TAILCALL
    ensures i + 2 < |orig| && NodeOffset(orig, i) == Offset(orig, i + 2)
  {
    assert PrefixOk(orig, i);
  }

  lemma {:induction false} OffsetsAfterSplit(named: seq<ILInstr>, orig: Code, i: nat)
    requires i < |orig| && orig[i].op == TAILCALL && |orig| + 1 + Tails(orig, i) < |named|
    requires forall j :: 0 <= j < |orig| && j != i ==> named[j].offset == if j < i then NodeOffset(orig, j) else Offset(orig, j)
    requires named[i].offset == NodeOffset(orig, i)
    requires forall j :: 0 <= j < i && orig[j].op == TAILCALL ==> TailNode(orig, j) < |named| && named[TailNode(orig, j)].offset == Offset(orig, j + 1)
    requires named[TailNode(orig, i)].offset == Offset(orig, i + 1)
    ensures OffsetsKnown(named, orig, i + 1)
  {
    hide NodeOffset, Offset;
  }

  /** A tail. prefix moves to a node of its own. */
  method SplitAt(r: ILRewriter, p: ILInstr, ghost g: Picture, ghost i: nat, ghost eh: seq<Clause>) returns (q: ILInstr, ghost g': Picture)
    requires AtInstr(r, g, i) && Instrumentable(g.orig, eh) && i < |g.orig| && g.orig[i].op == TAILCALL
    requires i < |g.named| && p == g.named[i]
    modifies r`nodes, r`maxStack, r`nInstrs, r.il`next, r.il`prev, r.nodes`next, r.nodes`prev, p`op, p`offset
    ensures Where(g.body.items, i) < |g.body.items| && g' == Picture(g.orig, Apply(g.orig, g.body, Split(i)), g.named + [q])
    ensures AtInstr(r, g', i + 1) && i + 1 < |g'.named| && q.next == g'.named[i + 1]
    ensures fresh(q) && forall k :: 0 <= k < |r.nodes| ==> r.nodes[k] in old(r.nodes) || fresh(r.nodes[k])
  {
    hide Instrumentable, SplitShape, Where, Place, Apply, Offset, HoldsItem, LinkedAt, ItemsShown, ClausesShown, NodeOffset, Distinct, Shows,
      Inserted, Spot;
    ghost var s := Spot(g.orig, i, i);
    TailAhead(g.orig, eh, i);
    SpotNode(r, g, i, i);
    SpotKeep(g.orig, g.body.items, i);
    SpotNode(r, g, i, i + 1);
    SpotNode(r, g, i, i + 2);
    SpotAdjacent(g.orig, i, i + 1);
    SpotAdjacent(g.orig, i, i + 2);
    NamesOf(r, g);
    Unlike(g.named, i);
    q, g' := SplitTail(r, p, g, i);
    assert g'.body.next == |g'.named| by { NamesOf(r, g'); }
    ShapeSplit(g.orig, g.body, i);
    OffsetsAfterSplit(g'.named, g.orig, i);
  }

  /** A tail. prefix: split it and ask for its two probes. */
  method VisitTail(r: ILRewriter, p: ILInstr, u: Setup, ghost g: Picture, ghost i: nat, ghost eh: seq<Clause>)
    returns (q: ILInstr, plan: seq<ProbeInsertion>, ghost g': Picture)
    requires AtInstr(r, g, i) && Instrumentable(g.orig, eh) && i < |g.orig| && g.orig[i].op == TAILCALL
    requires i < |g.named| && p == g.named[i]
    modifies r`nodes, r`maxStack, r`nInstrs, r.il`next, r.il`prev, r.nodes`next, r.nodes`prev, p`op, p`offset
    ensures Where(g.body.items, i) < |g.body.items| && g' == Picture(g.orig, Apply(g.orig, g.body, Split(i)), g.named + [q])
    ensures AtInstr(r, g', i + 1) && i + 1 < |g'.named| && q.next == g'.named[i + 1]
    ensures fresh(q) && PlanShown(g'.named, plan, Wanted(g.orig, u, i, false, g.body.next))
    ensures forall k :: 0 <= k < |r.nodes| ==> r.nodes[k] in old(r.nodes) || fresh(r.nodes[k])
  {
    hide AtInstr, Instrumentable, Where, Apply, Offset, NodeOffset;
    assert |g.named| == g.body.next by { NamedUpTo(r, g, i); }
    q, g' := SplitAt(r, p, g, i, eh);
    plan := [ProbeInsertion(q, u.probes.tailcall, true), ProbeInsertion(p, u.probes.coverage, true)];
  }

  lemma {:induction false} NamedUpTo(r: ILRewriter, g: Picture, i: nat)
    requires AtInstr(r, g, i)
    ensures |g.named| == g.body.next && i <= |g.orig| < |g.named|
  {
  }

  lemma {:induction false} Unlike(s: seq<ILInstr>, i: nat)
    requires Distinct(s) && i < |s|
    ensures forall j :: 0 <= j < |s| && j != i ==> s[j] != s[i]
  {
  }

  lemma {:induction false} SpotKeep(orig: Code, items: seq<Item>, i: nat)
    requires i < |orig| && SplitShape(orig, items, i)
    ensures Spot(orig, i, i) < |items| && items[Spot(orig, i, i)] == Keep(i, i)
  {
    hide Spot;
    assert SpotItem(orig, i, i, items[Spot(orig, i, i)]);
  }

  lemma {:induction false} PrefixNotTail(orig: Code, eh: seq<Clause>, i: nat)
    requires Instrumentable(orig, eh) && 0 < i < |orig| && orig[i].op == STSFLD
    ensures orig[i - 1].op != TAILCALL
  {
    assert PrefixOk(orig, i - 1);
  }

  /** The node in front of an instruction and its opcode. */
  lemma {:induction false} BehindNode(r: ILRewriter, g: Picture, i: nat)
    requires AtInstr(r, g, i) && i < |g.orig| && (i > 0 ==> g.orig[i - 1].op != TAILCALL)
    ensures i < |g.named| && g.named[i].prev == if i == 0 then r.il else g.named[i - 1]
    ensures i > 0 ==> g.named[i - 1].op == g.orig[i - 1].op
  {
    hide SplitShape, Shows, OffsetsKnown, HoldsItem, Place, Where;
    PrevNode(r, g, i, i);
    if i > 0 {
      SpotNode(r, g, i, i - 1);
      SpotKeepBehind(g.orig, g.body.items, i, i - 1);
      HeldOp(g.orig, g.named, r.nodes, Contents(r.nodes), g.body.items[Spot(g.orig, i, i - 1)], Spot(g.orig, i, i - 1));
    }
  }

  lemma {:induction false} SpotKeepBehind(orig: Code, items: seq<Item>, i: nat, j: nat)
    requires i <= |orig| && j < |orig| && SplitShape(orig, items, i) && orig[j].op != TAILCALL
    ensures Spot(orig, i, j) < |items| && items[Spot(orig, i, j)] == Keep(j, j)
  {
    hide Spot;
    assert SpotItem(orig, i, j, items[Spot(orig, i, j)]);
  }

  lemma {:induction false} HeldOp(orig: Code, named: seq<ILInstr>, nodes: seq<ILInstr>, cs: seq<Content>, x: Item, p: nat)
    requires x.Keep? && HoldsItem(orig, named, nodes, cs, x, p) && cs == Contents(nodes)
    ensures p < |nodes| && x.i < |orig| && nodes[p].op == orig[x.i].op
  {
    assert cs[p] == ContentOf(nodes[p]);
  }

  /** The probes one instruction asks for, other than branches and tail. prefixes. */
  method VisitPlain(r: ILRewriter, p: ILInstr, u: Setup, tail: bool, ghost g: Picture, ghost i: nat, ghost eh: seq<Clause>)
    returns (plan: seq<ProbeInsertion>, after: bool)
    requires AtInstr(r, g, i) && Instrumentable(g.orig, eh) && i < |g.orig| && !IsBranch(g.orig[i].op) && g.orig[i].op != TAILCALL
    requires i < |g.named| && p == g.named[i] && p.op == g.orig[i].op && r.il.op == SENTINEL
    ensures PlanShown(g.named, plan, Wanted(g.orig, u, i, tail, g.body.next)) && after == TailAfter(g.orig[i].op, tail)
  {
    hide AtInstr, Instrumentable, Offset, NodeOffset, IsBranch;
    NamedUpTo(r, g, i);
    plan, after := [], tail;
    if p.op == STSFLD {
      if i > 0 {
        PrefixNotTail(g.orig, eh, i);
      }
      BehindNode(r, g, i);
      var before := p.prev;
      plan := [ProbeInsertion(if IsPrefix(before.op) then before else p, u.probes.stsfld, true)];
    } else if IsCall(p.op) {
      if !tail {
        plan := [ProbeInsertion(p, u.probes.call, false)];
      }
    } else if p.op == RET {
      if tail {
        after := false;
      } else {
        plan := [ProbeInsertion(p, u.Leave(), true)];
      }
    } else if p.op == ENDFINALLY || p.op == ENDFILTER {
      plan := [ProbeInsertion(p, u.probes.coverage, true)];
    } else if p.op == THROW || p.op == RETHROW {
      plan := [ProbeInsertion(p, u.probes.throw, true)];
    }
  }

  lemma {:induction false} StepPlain(r: ILRewriter, g: Picture, i: nat)
    requires AtInstr(r, g, i) && i < |g.orig| && g.orig[i].op != TAILCALL
    ensures AtInstr(r, g, i + 1) && i + 1 < |g.named| && g.named[i].next == g.named[i + 1]
  {
    hide Shows, SplitShape, Offset;
    ShapePlain(g.orig, g.body.items, i);
    NextNode(r, g, i, i);
    NamedUpTo(r, g, i);
    assert Tails(g.orig, i + 1) == Tails(g.orig, i);
    assert NodeOffset(g.orig, i) == Offset(g.orig, i);
  }

  lemma {:induction false} OpHere(r: ILRewriter, g: Picture, i: nat)
    requires AtInstr(r, g, i) && i < |g.orig|
    ensures i < |g.named| && g.named[i].op == g.orig[i].op
  {
    hide Shows, SplitShape, OffsetsKnown;
    AheadNode(r, g, i, i);
  }

  ghost function SplitBody(orig: Code, b: Body, i: nat): Body
    requires i < |orig|
  {
    if orig[i].op == TAILCALL && Where(b.items, i) < |b.items| then Apply(orig, b, Split(i)) else b
  }

  /** One turn of the first loop. */
  method Visit(r: ILRewriter, p: ILInstr, u: Setup, tail: bool, ghost g: Picture, ghost i: nat, ghost eh: seq<Clause>)
    returns (q: ILInstr, plan: seq<ProbeInsertion>, ts: seq<ILInstr>, after: bool, ghost g': Picture, ghost added: seq<ILInstr>)
    requires AtInstr(r, g, i) && Instrumentable(g.orig, eh) && i < |g.orig| && r.il.op == SENTINEL
    requires i < |g.named| && p == g.named[i]
    modifies r`nodes, r`maxStack, r`nInstrs, r.il`next, r.il`prev, r.nodes`next, r.nodes`prev, p`op, p`offset
    ensures AtInstr(r, g', i + 1) && i + 1 < |g'.named| && q.next == g'.named[i + 1]
    ensures g' == Picture(g.orig, SplitBody(g.orig, g.body, i), g.named + added) && fresh(added)
    ensures g.orig[i].op == TAILCALL ==> Where(g.body.items, i) < |g.body.items|
    ensures PlanShown(g'.named, plan, Wanted(g.orig, u, i, tail, g.body.next)) && TargetsShown(r.il, g'.named, ts, TargetsAt(g.orig, i))
    ensures after == TailAfter(g.orig[i].op, tail)
    ensures forall k :: 0 <= k < |r.nodes| ==> r.nodes[k] in old(r.nodes) || fresh(r.nodes[k])
  {
    hide AtInstr, Instrumentable, Offset, NodeOffset, Where, Apply;
    OpHere(r, g, i);
    NamedUpTo(r, g, i);
    q, plan, ts, after, g', added := p, [], [], tail, g, [];
    assert g.named + [] == g.named;
    if IsBranch(p.op) {
      plan := [ProbeInsertion(p, u.probes.branch, true)];
      if p.op == SWITCH {
        ts := SwitchEnds(r, p, g, i, eh);
      } else {
        var t := BlockEnd(r, p, g, i, i, eh);
        ts := [t];
      }
      StepPlain(r, g, i);
    } else if p.op == TAILCALL {
      q, plan, g' := VisitTail(r, p, u, g, i, eh);
      added := [q];
      after := true;
    } else {
      plan, after := VisitPlain(r, p, u, tail, g, i, eh);
      StepPlain(r, g, i);
    }
  }

  lemma {:induction false} PriorityStep(orig: Code, u: Setup, i: nat, tail: bool, done: seq<Insertion>, whole: seq<Insertion>)
    requires i < |orig| && whole == done + Priority(orig, u, i, tail, TailNode(orig, i))
    ensures whole == done + Wanted(orig, u, i, tail, TailNode(orig, i))
                     + Priority(orig, u, i + 1, TailAfter(orig[i].op, tail), TailNode(orig, i + 1))
  {
    hide Wanted, TailAfter;
  }

  lemma {:induction false} TargetsStep(orig: Code, i: nat, done: seq<nat>, whole: seq<nat>)
    requires i < |orig| && whole == done + Targets(orig, i)
    ensures whole == done + TargetsAt(orig, i) + Targets(orig, i + 1)
  {
    hide TargetsAt;
  }

  lemma {:induction false} SplitsStep(orig: Code, b: Body, i: nat)
    requires i < |orig| && (orig[i].op == TAILCALL ==> Where(b.items, i) < |b.items|)
    ensures ApplyAll(orig, b, Splits(orig, i)) == ApplyAll(orig, SplitBody(orig, b, i), Splits(orig, i + 1))
  {
    hide Where, Apply;
    if orig[i].op == TAILCALL {
      assert Splits(orig, i)[1..] == Splits(orig, i + 1);
    }
  }

  /** The loop has left the list exactly at the sentinel. */
  lemma {:induction false} LoopEnd(r: ILRewriter, g: Picture, i: nat)
    requires AtInstr(r, g, i)
    ensures i < |g.named| && (g.named[i] == r.il <==> i == |g.orig|)
    ensures i < |g.orig| ==> g.named[i] in r.nodes
  {
    hide Shows, SplitShape, OffsetsKnown;
    NamedUpTo(r, g, i);
    NamesOf(r, g);
    if i < |g.orig| {
      AheadNode(r, g, i, i);
    }
  }

  lemma {:induction false} NamesOf(r: ILRewriter, g: Picture)
    requires Shows(r, g)
    ensures NamesOk(r.il, g)
  {
  }

  /** The first loop: all priority probes and all block ends in front of branch
      targets, with every tail. prefix split off on the way. */
  method Collect(r: ILRewriter, u: Setup, ghost g: Picture, ghost eh: seq<Clause>)
    returns (plan: seq<ProbeInsertion>, ts: seq<ILInstr>, ghost g': Picture)
    requires AtInstr(r, g, 0) && Instrumentable(g.orig, eh) && r.il.op == SENTINEL
    modifies r`nodes, r`maxStack, r`nInstrs, r.il`next, r.il`prev, r.nodes`next, r.nodes`prev, r.nodes`op, r.nodes`offset
    ensures g'.orig == g.orig && AtInstr(r, g', |g.orig|) && g'.body == ApplyAll(g.orig, g.body, Splits(g.orig, 0))
    ensures PlanShown(g'.named, plan, Priority(g.orig, u, 0, false, |g.orig| + 1)) && r.il.op == SENTINEL
    ensures TargetsShown(r.il, g'.named, ts, Targets(g.orig, 0))
    ensures forall k :: 0 <= k < |r.nodes| ==> r.nodes[k] in old(r.nodes) || fresh(r.nodes[k])
  {
    hide AtInstr, Instrumentable, Priority, Targets, Wanted, TailAfter, TargetsAt, PlanShown, TargetsShown, SplitBody, ApplyAll, Splits, Where,
      ILRewriter.Valid, Shows, SplitShape;
    ghost var orig := g.orig;
    ghost var whole, wholeT := Priority(orig, u, 0, false, |orig| + 1), Targets(orig, 0);
    ghost var done: seq<Insertion>, doneT: seq<nat> := [], [];
    ghost var i := 0;
    var tail := false;
    g', plan, ts := g, [], [];
    LoopStart(r, g, u);
    var p := r.il.next;
    LoopEnd(r, g', i);
    while p != r.il
      invariant 0 <= i <= |orig| && g'.orig == orig && AtInstr(r, g', i) && i < |g'.named| && p == g'.named[i]
      invariant (p == r.il <==> i == |orig|) && r.il.op == SENTINEL
      invariant i < |orig| ==> p in r.nodes
      invariant whole == done + Priority(orig, u, i, tail, TailNode(orig, i)) && PlanShown(g'.named, plan, done)
      invariant wholeT == doneT + Targets(orig, i) && TargetsShown(r.il, g'.named, ts, doneT)
      invariant ApplyAll(orig, g.body, Splits(orig, 0)) == ApplyAll(orig, g'.body, Splits(orig, i))
      invariant forall k :: 0 <= k < |r.nodes| ==> r.nodes[k] in old(r.nodes) || fresh(r.nodes[k])
      decreases |orig| - i
    {
      ghost var was := g';
      assert g'.body.next == TailNode(orig, i) by { NextId(r, g', i); }
      var more, moreT, after;
      ghost var added;
      PriorityStep(orig, u, i, tail, done, whole);
      TargetsStep(orig, i, doneT, wholeT);
      p, more, moreT, after, g', added := Visit(r, p, u, tail, g', i, eh);
      SplitsStep(orig, was.body, i);
      PlanMore(was.named, added, plan, done, more, Wanted(orig, u, i, tail, TailNode(orig, i)));
      TargetsMore(r.il, was.named, added, ts, doneT, moreT, TargetsAt(orig, i));
      done, doneT := done + Wanted(orig, u, i, tail, TailNode(orig, i)), doneT + TargetsAt(orig, i);
      plan, ts, tail := plan + more, ts + moreT, after;
      p := p.next;
      i := i + 1;
      LoopEnd(r, g', i);
    }
    NoneLeft(orig, u, tail, g'.body);
    assert done + [] == done && doneT + [] == doneT;
  }

  lemma {:induction false} NextId(r: ILRewriter, g: Picture, i: nat)
    requires AtInstr(r, g, i)
    ensures g.body.next == TailNode(g.orig, i)
  {
  }

  lemma {:induction false} LoopStart(r: ILRewriter, g: Picture, u: Setup)
    requires AtInstr(r, g, 0)
    ensures |g.named| > 0 && r.il.next == g.named[0] && TailNode(g.orig, 0) == |g.orig| + 1
    ensures PlanShown(g.named, [], []) && TargetsShown(r.il, g.named, [], [])
  {
    hide Shows, SplitShape, OffsetsKnown;
    SpotAt(r, g, 0, 0);
    SpotZero(g.orig, 0);
    ShownValid(r, g);
    Walk(r, 0);
    assert Tails(g.orig, 0) == 0;
  }

  lemma {:induction false} ShownValid(r: ILRewriter, g: Picture)
    requires Shows(r, g)
    ensures r.Valid()
  {
  }

  lemma {:induction false} NoneLeft(orig: Code, u: Setup, tail: bool, b: Body)
    ensures Priority(orig, u, |orig|, tail, TailNode(orig, |orig|)) == [] && Targets(orig, |orig|) == []
    ensures ApplyAll(orig, b, Splits(orig, |orig|)) == b
  {
  }
}
