/** The probe insertions, node by node. */
module Probing {
  import opened Opcodes
  import opened Layout
  import opened Splice
  import opened Linking
  import opened InstrList

  /** The nodes carry the given instructions, none of which is a branch. */
  ghost predicate Holding(ns: seq<ILInstr>, body: seq<Instr>)
    reads ns
  {
    |ns| == |body| && forall j :: 0 <= j < |ns| ==> ns[j].op == body[j].op && ns[j].arg == body[j].arg
  }

  method AddLDCInstrBefore(r: ILRewriter, where: ILInstr, arg: int, ghost k: nat) returns (n: ILInstr)
    requires r.Valid() && k <= |r.nodes| && where == At(r.il, r.nodes, k)
    modifies r`nodes, r`maxStack, r`nInstrs, r.il`next, r.il`prev, r.nodes`next, r.nodes`prev
    ensures r.Valid() && r.nodes == Inserted(old(r.nodes), k, [n])
    ensures fresh(n) && n.op == LDC_I4 && n.arg == arg
    ensures r.maxStack == old(r.maxStack) + 1 && r.nInstrs == old(r.nInstrs) + 1
  {
    n := r.NewILInstr();
    n.op := LDC_I4;
    n.arg := arg;
    r.InsertBefore(where, n, k);
  }

  method AddProbe(r: ILRewriter, addr: int, sig: int, where: ILInstr, ghost k: nat) returns (ghost added: seq<ILInstr>)
    requires r.Valid() && k <= |r.nodes| && where == At(r.il, r.nodes, k)
    modifies r`nodes, r`maxStack, r`nInstrs, r.il`next, r.il`prev, r.nodes`next, r.nodes`prev
    ensures r.Valid() && r.nodes == Inserted(old(r.nodes), k, added)
    ensures fresh(added) && Holding(added, [Instr(LDC_I8, addr, 0), Instr(CALLI, sig, 0)])
    ensures r.maxStack == old(r.maxStack) + 2 && r.nInstrs == old(r.nInstrs) + 2
  {
    hide LinkedAt;
    ghost var was := r.nodes;
    var a := r.NewILInstr();
    a.op := LDC_I8;
    a.arg := addr;
    r.InsertBefore(where, a, k);
    assert At(r.il, r.nodes, k + 1) == where;
    var b := r.NewILInstr();
    b.op := CALLI;
    b.arg := sig;
    r.InsertBefore(where, b, k + 1);
    InsertedMore(was, k, [a], [b]);
    added := [a] + [b];
  }

  /** Offset, method number, address and call in front of a node. */
  method AddArguments(r: ILRewriter, where: ILInstr, offset: int, methodId: int, ghost k: nat) returns (ghost added: seq<ILInstr>)
    requires r.Valid() && k <= |r.nodes| && where == At(r.il, r.nodes, k)
    modifies r`nodes, r`maxStack, r`nInstrs, r.il`next, r.il`prev, r.nodes`next, r.nodes`prev
    ensures r.Valid() && r.nodes == Inserted(old(r.nodes), k, added)
    ensures fresh(added) && Holding(added, [Instr(LDC_I4, offset, 0), Instr(LDC_I4, methodId, 0)])
    ensures r.maxStack == old(r.maxStack) + 2 && r.nInstrs == old(r.nInstrs) + 2
  {
    hide LinkedAt;
    ghost var was := r.nodes;
    var a := AddLDCInstrBefore(r, where, offset, k);
    assert At(r.il, r.nodes, k + 1) == where;
    var b := AddLDCInstrBefore(r, where, methodId, k + 1);
    InsertedMore(was, k, [a], [b]);
    added := [a] + [b];
  }

  /** All nodes of one probe call in front of node k. */
  method AddProbeCall(r: ILRewriter, where: ILInstr, offset: int, methodId: int, probe: ProbeCall, ghost k: nat)
    returns (ghost added: seq<ILInstr>)
    requires r.Valid() && k <= |r.nodes| && where == At(r.il, r.nodes, k)
    modifies r`nodes, r`maxStack, r`nInstrs, r.il`next, r.il`prev, r.nodes`next, r.nodes`prev
    ensures r.Valid() && r.nodes == Inserted(old(r.nodes), k, added)
    ensures fresh(added) && Holding(added, CoverageBody(offset, methodId, probe))
    ensures r.maxStack == old(r.maxStack) + BodyPushes(CoverageBody(offset, methodId, probe))
    ensures |added| == 4 && r.nInstrs == old(r.nInstrs) + 4
  {
    ghost var was := r.nodes;
    ghost var a := AddArguments(r, where, offset, methodId, k);
    assert At(r.il, r.nodes, k + 2) == where;
    ghost var b := AddProbe(r, probe.addr, probe.sig, where, k + 2);
    InsertedMore(was, k, a, b);
    added := a + b;
    CoveragePushes(offset, methodId, probe);
  }

  method CorrectHandlers(r: ILRewriter, p: ILInstr, n: ILInstr)
    modifies r`eh
    ensures |r.eh| == |old(r.eh)|
    ensures forall k :: 0 <= k < |r.eh| ==>
      r.eh[k] == if old(r.eh)[k].handlerEnd == p then old(r.eh)[k].(handlerEnd := n) else old(r.eh)[k]
  {
    var i := 0;
    while i < |r.eh|
      invariant 0 <= i <= |r.eh| == |old(r.eh)|
      invariant forall k :: 0 <= k < i ==>
        r.eh[k] == if old(r.eh)[k].handlerEnd == p then old(r.eh)[k].(handlerEnd := n) else old(r.eh)[k]
      invariant forall k :: i <= k < |r.eh| ==> r.eh[k] == old(r.eh)[k]
    {
      if r.eh[i].handlerEnd == p {
        r.eh := r.eh[i := r.eh[i].(handlerEnd := n)];
      }
      i := i + 1;
    }
  }

  // ----- the list as a picture of a spliced body -----

  /** The original code, the body as spliced so far, and the nodes that its ids stand for. */
  datatype Picture = Picture(orig: Code, body: Body, named: seq<ILInstr>)

  /** What a node holds apart from its links and its offset. */
  datatype Content = Content(op: nat, arg: int, target: ILInstr?)

  ghost function ContentOf(n: ILInstr): Content
    reads n`op, n`arg, n`target
  {
    Content(n.op, n.arg, n.target)
  }

  ghost function Contents(nodes: seq<ILInstr>): (cs: seq<Content>)
    reads nodes`op, nodes`arg, nodes`target
    ensures |cs| == |nodes|
    ensures forall k :: 0 <= k < |nodes| ==> cs[k] == ContentOf(nodes[k])
  {
    if nodes == [] then [] else Contents(nodes[..|nodes| - 1]) + [ContentOf(nodes[|nodes| - 1])]
  }

  predicate Carries(named: seq<ILInstr>, c: Content, e: Instr) {
    && c.op == e.op
    && (HasTarget(e.op) ==> e.target < |named| && c.target == named[e.target])
    && (!HasTarget(e.op) && OperandLength(e.op) > 0 ==> c.arg == e.arg)
  }

  predicate HoldsBody(cs: seq<Content>, p: nat, body: seq<Instr>) {
    p + |body| <= |cs| && forall j :: p <= j < p + |body| ==> cs[j].op == body[j - p].op && cs[j].arg == body[j - p].arg
  }

  /** The nodes from position p on are those of item x. */
  predicate HoldsItem(orig: Code, named: seq<ILInstr>, nodes: seq<ILInstr>, cs: seq<Content>, x: Item, p: nat) {
    match x
    case Keep(i, id) =>
      p < |nodes| == |cs| && i < |orig| && id < |named| && nodes[p] == named[id] && Carries(named, cs[p], orig[i])
    case Nop(id) => p < |nodes| == |cs| && id < |named| && nodes[p] == named[id] && cs[p].op == NOP
    case Probe(body) => HoldsBody(cs, p, body)
  }

  ghost predicate ClauseShown(named: seq<ILInstr>, x: EHClause, k: Clause) {
    && k.tryBegin < |named| && k.tryEnd < |named| && k.handlerBegin < |named| && k.handlerEnd < |named| && k.filter < |named|
    && x.flags == k.flags && x.token == k.token && x.isFilter == k.isFilter
    && x.tryBegin == named[k.tryBegin] && x.tryEnd == named[k.tryEnd]
    && x.handlerBegin == named[k.handlerBegin] && x.handlerEnd == named[k.handlerEnd]
    && (k.isFilter ==> x.filter == named[k.filter])
  }

  ghost predicate NamesOk(il: ILInstr, g: Picture) {
    && |g.orig| < |g.named| == g.body.next && g.named[|g.orig|] == il && Distinct(g.named)
  }

  ghost predicate ItemsShown(nodes: seq<ILInstr>, cs: seq<Content>, g: Picture) {
    && |nodes| == |cs| == Place(g.body.items, |g.body.items|)
    && (forall a :: 0 <= a < |g.body.items| ==>
          HoldsItem(g.orig, g.named, nodes, cs, g.body.items[a], Place(g.body.items, a)))
  }

  ghost predicate ClausesShown(eh: seq<EHClause>, g: Picture) {
    |eh| == |g.body.eh| && forall k :: 0 <= k < |eh| ==> ClauseShown(g.named, eh[k], g.body.eh[k])
  }

  /** The linked list, the clauses and the counters are those of the picture. */
  ghost predicate Shows(r: ILRewriter, g: Picture)
    reads r, r.il`next, r.il`prev, r.nodes`next, r.nodes`prev, r.nodes`op, r.nodes`arg, r.nodes`target
  {
    && r.Valid() && NamesOk(r.il, g) && ItemsShown(r.nodes, Contents(r.nodes), g) && ClausesShown(r.eh, g)
    && r.maxStack == g.body.maxStack && r.nInstrs == |r.nodes|
  }

  lemma {:induction false} PlaceApart(items: seq<Item>, a: nat, c: nat)
    requires a < |items| && c < |items| && a != c
    ensures c < a ==> Place(items, c) + Len(items[c]) <= Place(items, a)
    ensures a < c ==> Place(items, a) + Len(items[a]) <= Place(items, c)
  {
    if c < a {
      PlaceGrows(items, c, a);
    } else {
      PlaceGrows(items, a, c);
    }
  }

  /** An item whose nodes were not touched is still held, wherever its nodes went. */
  lemma {:induction false} ItemStays(orig: Code, named: seq<ILInstr>, n: ILInstr, nodes: seq<ILInstr>, cs: seq<Content>,
                                     nodes': seq<ILInstr>, cs': seq<Content>, x: Item, p: nat, q: nat)
    requires HoldsItem(orig, named, nodes, cs, x, p)
    requires |nodes| == |cs| && |nodes'| == |cs'| && p + Len(x) <= |nodes| && q + Len(x) <= |nodes'|
    requires forall j :: p <= j < p + Len(x) ==> nodes'[j - p + q] == nodes[j] && cs'[j - p + q] == cs[j]
    ensures HoldsItem(orig, named + [n], nodes', cs', x, q)
  {
    if x.Probe? {
      forall j | q <= j < q + |x.body| ensures cs'[j].op == x.body[j - q].op && cs'[j].arg == x.body[j - q].arg {
        assert cs'[j - q + p - p + q] == cs[j - q + p];
      }
    } else {
      assert nodes'[p - p + q] == nodes[p];
    }
  }

  /** One node rewritten in place and others put behind it. */
  ghost predicate Extended(nodes: seq<ILInstr>, cs: seq<Content>, p: nat, c: Content, xs: seq<ILInstr>, ds: seq<Content>,
                           nodes': seq<ILInstr>, cs': seq<Content>)
  {
    && |nodes| == |cs| && p < |nodes| && |xs| == |ds|
    && nodes' == Inserted(nodes, p + 1, xs) && cs' == Inserted(cs[p := c], p + 1, ds)
  }

  /** Items other than the replaced one are still held. */
  lemma {:induction false} OthersStay(g: Picture, nodes: seq<ILInstr>, cs: seq<Content>, a: nat, c: Content, xs: seq<ILInstr>,
                                      ds: seq<Content>, nodes': seq<ILInstr>, cs': seq<Content>, n: ILInstr, b: nat)
    requires ItemsShown(nodes, cs, g) && a < |g.body.items| && !g.body.items[a].Probe?
    requires Extended(nodes, cs, Place(g.body.items, a), c, xs, ds, nodes', cs')
    requires b < |g.body.items| && b != a
    ensures HoldsItem(g.orig, g.named + [n], nodes', cs', g.body.items[b], Place(g.body.items, b) + if b < a then 0 else |xs|)
  {
    hide HoldsItem, Place, Inserted;
    var items := g.body.items;
    var q := Place(items, b);
    PlaceApart(items, a, b);
    PlaceGrows(items, b, |items|);
    var q' := q + if b < a then 0 else |xs|;
    var p := Place(items, a);
    InsertedAt(nodes, p + 1, xs);
    InsertedAt(cs[p := c], p + 1, ds);
    forall j | q <= j < q + Len(items[b]) ensures nodes'[j - q + q'] == nodes[j] && cs'[j - q + q'] == cs[j] {
      assert cs[p := c][j] == cs[j];
      assert cs'[if j < p + 1 then j else j + |ds|] == cs[p := c][j];
    }
    ItemStays(g.orig, g.named, n, nodes, cs, nodes', cs', items[b], q, q');
  }

  /** The list after one edit shows the edited items. */
  lemma {:induction false} EditShown(g: Picture, e: Edit, nodes: seq<ILInstr>, cs: seq<Content>, a: nat, c: Content, xs: seq<ILInstr>,
                                     ds: seq<Content>, nodes': seq<ILInstr>, cs': seq<Content>, n: ILInstr)
    requires ItemsShown(nodes, cs, g) && a == Where(g.body.items, e.id) < |g.body.items|
    requires Extended(nodes, cs, Place(g.body.items, a), c, xs, ds, nodes', cs')
    requires var r := Replacement(g.body.items[a], e, g.body.next);
      && 1 + |xs| == Place(r, |r|)
      && forall k :: 0 <= k < |r| ==> HoldsItem(g.orig, g.named + [n], nodes', cs', r[k], Place(g.body.items, a) + Place(r, k))
    ensures ItemsShown(nodes', cs', Picture(g.orig, Apply(g.orig, g.body, e), g.named + [n]))
  {
    hide HoldsItem, Where, Replacement, Place;
    var items := g.body.items;
    var r := Replacement(items[a], e, g.body.next);
    var t := Apply(g.orig, g.body, e).items;
    assert Swapped(items, a, r, t);
    PlaceBehind(items, a, r, t, |items|);
    forall b | 0 <= b < |t| ensures HoldsItem(g.orig, g.named + [n], nodes', cs', t[b], Place(t, b)) {
      if b < a {
        assert t[..b] == items[..b] && t[b] == items[b];
        PlacePrefix(items, t, b);
        OthersStay(g, nodes, cs, a, c, xs, ds, nodes', cs', n, b);
      } else if b < a + |r| {
        PlaceInside(items, a, r, t, b - a);
        assert t[b] == r[b - a];
      } else {
        var d := b - |r| + 1;
        assert t[b] == items[d];
        PlaceBehind(items, a, r, t, d);
        OthersStay(g, nodes, cs, a, c, xs, ds, nodes', cs', n, d);
      }
    }
  }

  lemma {:induction false} TripleHeld(orig: Code, named: seq<ILInstr>, nodes: seq<ILInstr>, cs: seq<Content>, r: seq<Item>, p: nat)
    requires |r| == 3 && !r[0].Probe? && r[1].Probe? && !r[2].Probe?
    requires HoldsItem(orig, named, nodes, cs, r[0], p) && HoldsItem(orig, named, nodes, cs, r[1], p + 1)
    requires HoldsItem(orig, named, nodes, cs, r[2], p + 1 + |r[1].body|)
    ensures Place(r, 3) == 2 + |r[1].body|
    ensures forall k :: 0 <= k < 3 ==> HoldsItem(orig, named, nodes, cs, r[k], p + Place(r, k))
  {
    hide HoldsItem;
    assert Place(r, 1) == 1;
    assert Place(r, 2) == 1 + |r[1].body|;
  }

  lemma {:induction false} PairHeld(orig: Code, named: seq<ILInstr>, nodes: seq<ILInstr>, cs: seq<Content>, r: seq<Item>, p: nat)
    requires |r| == 2 && !r[0].Probe? && !r[1].Probe?
    requires HoldsItem(orig, named, nodes, cs, r[0], p) && HoldsItem(orig, named, nodes, cs, r[1], p + 1)
    ensures Place(r, 2) == 2
    ensures forall k :: 0 <= k < 2 ==> HoldsItem(orig, named, nodes, cs, r[k], p + Place(r, k))
  {
    hide HoldsItem;
    assert Place(r, 1) == 1;
  }

  /** A node that was copied behind its probe is shown as moved. */
  lemma {:induction false} BeforeShown(g: Picture, e: Edit, nodes: seq<ILInstr>, cs: seq<Content>, a: nat, c: Content, xs: seq<ILInstr>,
                                       ds: seq<Content>, nodes': seq<ILInstr>, cs': seq<Content>, n: ILInstr)
    requires ItemsShown(nodes, cs, g) && e.Before? && a == Where(g.body.items, e.id) < |g.body.items| && |g.named| == g.body.next
    requires Extended(nodes, cs, Place(g.body.items, a), c, xs, ds, nodes', cs')
    requires c.op == NOP && |xs| == |e.body| + 1 && xs[|e.body|] == n && HoldsBody(ds, 0, e.body)
    requires ds[|e.body|] == cs[Place(g.body.items, a)]
    ensures ItemsShown(nodes', cs', Picture(g.orig, Apply(g.orig, g.body, e), g.named + [n]))
  {
    hide Where, Place;
    var x, p := g.body.items[a], Place(g.body.items, a);
    var named' := g.named + [n];
    var r := Replacement(x, e, g.body.next);
    assert HoldsItem(g.orig, g.named, nodes, cs, x, p);
    assert nodes'[p] == nodes[p] && cs'[p] == c;
    assert HoldsItem(g.orig, named', nodes', cs', r[0], p);
    assert HoldsBody(cs', p + 1, e.body) by {
      forall j | p + 1 <= j < p + 1 + |e.body| ensures cs'[j].op == e.body[j - (p + 1)].op && cs'[j].arg == e.body[j - (p + 1)].arg {
        assert cs'[j] == ds[j - (p + 1)];
      }
    }
    var q := p + 1 + |e.body|;
    assert nodes'[q] == n && cs'[q] == cs[p];
    assert HoldsItem(g.orig, named', nodes', cs', r[2], q);
    TripleHeld(g.orig, named', nodes', cs', r, p);
    EditShown(g, e, nodes, cs, a, c, xs, ds, nodes', cs', n);
  }

  /** A probe behind a node, closed by a nop. */
  lemma {:induction false} AfterShown(g: Picture, e: Edit, nodes: seq<ILInstr>, cs: seq<Content>, a: nat, xs: seq<ILInstr>,
                                      ds: seq<Content>, nodes': seq<ILInstr>, cs': seq<Content>, n: ILInstr)
    requires ItemsShown(nodes, cs, g) && e.After? && a == Where(g.body.items, e.id) < |g.body.items| && |g.named| == g.body.next
    requires Place(g.body.items, a) < |cs|
    requires Extended(nodes, cs, Place(g.body.items, a), cs[Place(g.body.items, a)], xs, ds, nodes', cs')
    requires |xs| == |e.body| + 1 && xs[|e.body|] == n && HoldsBody(ds, 0, e.body) && ds[|e.body|].op == NOP
    ensures ItemsShown(nodes', cs', Picture(g.orig, Apply(g.orig, g.body, e), g.named + [n]))
  {
    hide Where, Place;
    var x, p := g.body.items[a], Place(g.body.items, a);
    var named' := g.named + [n];
    var r := Replacement(x, e, g.body.next);
    assert HoldsItem(g.orig, g.named, nodes, cs, x, p);
    assert nodes'[p] == nodes[p] && cs'[p] == cs[p];
    assert HoldsItem(g.orig, named', nodes', cs', r[0], p);
    assert HoldsBody(cs', p + 1, e.body) by {
      forall j | p + 1 <= j < p + 1 + |e.body| ensures cs'[j].op == e.body[j - (p + 1)].op && cs'[j].arg == e.body[j - (p + 1)].arg {
        assert cs'[j] == ds[j - (p + 1)];
      }
    }
    var q := p + 1 + |e.body|;
    assert nodes'[q] == n && cs'[q] == ds[|e.body|];
    assert HoldsItem(g.orig, named', nodes', cs', r[2], q);
    TripleHeld(g.orig, named', nodes', cs', r, p);
    EditShown(g, e, nodes, cs, a, cs[p], xs, ds, nodes', cs', n);
  }

  /** An emptied node whose instruction stands on a new one behind it. */
  lemma {:induction false} SplitShown(g: Picture, e: Edit, nodes: seq<ILInstr>, cs: seq<Content>, a: nat, c: Content, d: Content,
                                      nodes': seq<ILInstr>, cs': seq<Content>, n: ILInstr)
    requires ItemsShown(nodes, cs, g) && e.Split? && a == Where(g.body.items, e.id) < |g.body.items| && |g.named| == g.body.next
    requires Extended(nodes, cs, Place(g.body.items, a), c, [n], [d], nodes', cs')
    requires c.op == NOP && g.body.items[a].Keep? && g.body.items[a].i < |g.orig| && Carries(g.named, d, g.orig[g.body.items[a].i])
    ensures ItemsShown(nodes', cs', Picture(g.orig, Apply(g.orig, g.body, e), g.named + [n]))
  {
    hide Where, Place;
    var x, p := g.body.items[a], Place(g.body.items, a);
    var named' := g.named + [n];
    var r := Replacement(x, e, g.body.next);
    assert HoldsItem(g.orig, g.named, nodes, cs, x, p);
    assert nodes'[p] == nodes[p] && cs'[p] == c;
    assert nodes'[p + 1] == n && cs'[p + 1] == d;
    assert HoldsItem(g.orig, named', nodes', cs', r[0], p);
    assert HoldsItem(g.orig, named', nodes', cs', r[1], p + 1);
    PairHeld(g.orig, named', nodes', cs', r, p);
    EditShown(g, e, nodes, cs, a, c, [n], [d], nodes', cs', n);
  }

  // ----- the insertions on the list -----

  lemma {:induction false} HandlersShown(il: ILInstr, r: seq<EHClause>, r': seq<EHClause>, g: Picture, e: Edit, p: ILInstr, n: ILInstr)
    requires ClausesShown(r, g) && NamesOk(il, g) && e.id < |g.named| && g.named[e.id] == p
    requires |r'| == |r|
    requires forall k :: 0 <= k < |r| ==> r'[k] == if !e.Split? && r[k].handlerEnd == p then r[k].(handlerEnd := n) else r[k]
    requires Where(g.body.items, e.id) < |g.body.items|
    ensures ClausesShown(r', Picture(g.orig, Apply(g.orig, g.body, e), g.named + [n]))
  {
    hide Where, Replacement;
    forall k | 0 <= k < |r| ensures ClauseShown(g.named + [n], r'[k], Apply(g.orig, g.body, e).eh[k]) {
      assert ClauseShown(g.named, r[k], g.body.eh[k]);
    }
  }

  lemma {:induction false} ApplyCounts(orig: Code, b: Body, e: Edit)
    requires Where(b.items, e.id) < |b.items|
    ensures Apply(orig, b, e).maxStack == b.maxStack + EditPushes(OpOf(orig, b.items[Where(b.items, e.id)]), e)
  {
  }

  lemma {:induction false} NamesStay(il: ILInstr, g: Picture, e: Edit, n: ILInstr)
    requires NamesOk(il, g) && n !in g.named && Where(g.body.items, e.id) < |g.body.items|
    ensures NamesOk(il, Picture(g.orig, Apply(g.orig, g.body, e), g.named + [n]))
  {
  }

  /** Where the node of an id stands in the list. */
  lemma {:induction false} NodeOf(r: ILRewriter, g: Picture, id: nat)
    requires Shows(r, g) && Where(g.body.items, id) < |g.body.items|
    ensures id < |g.named| && var p := Place(g.body.items, Where(g.body.items, id));
      p < |r.nodes| && r.nodes[p] == g.named[id] && r.nodes[p].op == OpOf(g.orig, g.body.items[Where(g.body.items, id)])
  {
    hide Where, Place;
    var a := Where(g.body.items, id);
    assert HoldsItem(g.orig, g.named, r.nodes, Contents(r.nodes), g.body.items[a], Place(g.body.items, a));
  }

  /** The node is emptied and its instruction put on a new node behind it. */
  method CopyBehind(r: ILRewriter, p: ILInstr, ghost k: nat) returns (n: ILInstr)
    requires r.Valid() && k < |r.nodes| && p == r.nodes[k]
    modifies r`nodes, r`maxStack, r`nInstrs, r.il`next, r.il`prev, r.nodes`next, r.nodes`prev, p`op
    ensures r.Valid() && r.nodes == Inserted(old(r.nodes), k + 1, [n])
    ensures fresh(n) && ContentOf(n) == old(ContentOf(p)) && p.op == NOP
    ensures r.maxStack == old(r.maxStack) + Pushes(n.op) && r.nInstrs == old(r.nInstrs) + 1
  {
    n := r.NewILInstr();
    n.op := p.op;
    n.arg := p.arg;
    n.target := p.target;
    r.InsertAfter(p, n, k);
    p.op := NOP;
  }

  /** ... with the nodes of a probe call between the two. */
  method PutBefore(r: ILRewriter, p: ILInstr, probe: ProbeCall, methodId: int, ghost k: nat)
    returns (n: ILInstr, ghost added: seq<ILInstr>)
    requires r.Valid() && k < |r.nodes| && p == r.nodes[k]
    modifies r`nodes, r`maxStack, r`nInstrs, r.il`next, r.il`prev, r.nodes`next, r.nodes`prev, p`op
    ensures r.Valid() && r.nodes == Inserted(old(r.nodes), k + 1, added + [n])
    ensures fresh(n) && ContentOf(n) == old(ContentOf(p)) && p.op == NOP
    ensures fresh(added) && Holding(added, CoverageBody(p.offset, methodId, probe))
    ensures r.maxStack == old(r.maxStack) + Pushes(n.op) + BodyPushes(CoverageBody(p.offset, methodId, probe))
    ensures |added| == 4 && r.nInstrs == old(r.nInstrs) + 5
    ensures Extended(old(r.nodes), old(Contents(r.nodes)), k, ContentOf(p), added + [n], Contents(added + [n]), r.nodes, Contents(r.nodes))
    ensures HoldsBody(Contents(added + [n]), 0, CoverageBody(p.offset, methodId, probe))
    ensures forall k :: 0 <= k < |r.nodes| ==> r.nodes[k] in old(r.nodes) || fresh(r.nodes[k])
  {
    hide LinkedAt, CoverageBody, BodyPushes, Contents;
    ghost var nodes := r.nodes;
    n := CopyBehind(r, p, k);
    added := AddProbeCall(r, n, p.offset, methodId, probe, k + 1);
    InsertedInFront(nodes, k + 1, n, added);
    InsertedMembers(nodes, k + 1, added + [n]);
    hide Inserted, CoverageBody;
    assert Contents(nodes) == old(Contents(r.nodes))[k := ContentOf(p)];
    ContentsInserted(nodes, k + 1, added + [n]);
  }

  lemma {:induction false} ContentsInserted(nodes: seq<ILInstr>, k: nat, xs: seq<ILInstr>)
    requires k <= |nodes|
    ensures Contents(Inserted(nodes, k, xs)) == Inserted(Contents(nodes), k, Contents(xs))
  {
    hide Contents;
    InsertedAt(nodes, k, xs);
    InsertedAt(Contents(nodes), k, Contents(xs));
  }

  lemma {:induction false} InsertedMembers(s: seq<ILInstr>, k: nat, xs: seq<ILInstr>)
    requires k <= |s|
    ensures forall m :: m in Inserted(s, k, xs) ==> m in s || m in xs
  {
  }

  lemma {:induction false} InsertedInFront(s: seq<ILInstr>, k: nat, n: ILInstr, xs: seq<ILInstr>)
    requires k <= |s|
    ensures Inserted(Inserted(s, k, [n]), k, xs) == Inserted(s, k, xs + [n])
  {
    var t := Inserted(s, k, [n]);
    assert t[..k] == s[..k] && t[k..] == [n] + s[k..];
  }

  /** The probe goes in front of the node's instruction, which moves to a new node
      behind the probe; what leads to the node now leads through the probe. */
  method AddCoverageProbeBefore(r: ILRewriter, p: ILInstr, probe: ProbeCall, methodId: int, ghost g: Picture, ghost id: nat)
    returns (n: ILInstr, ghost g': Picture)
    requires Shows(r, g) && Where(g.body.items, id) < |g.body.items| && id < |g.named| && p == g.named[id]
    modifies r`nodes, r`maxStack, r`nInstrs, r`eh, r.il`next, r.il`prev, r.nodes`next, r.nodes`prev, r.nodes`op
    ensures fresh(n) && Shows(r, g')
    ensures g' == Picture(g.orig, Apply(g.orig, g.body, Before(id, CoverageBody(p.offset, methodId, probe))), g.named + [n])
    ensures forall k :: 0 <= k < |r.nodes| ==> r.nodes[k] in old(r.nodes) || fresh(r.nodes[k])
  {
    hide Where, Place, Apply, Contents, ILRewriter.Valid, ItemsShown, ClausesShown, CoverageBody, BodyPushes, Inserted, Extended,
      HoldsBody, Distinct, Pushes, OpOf;
    ghost var e := Before(id, CoverageBody(p.offset, methodId, probe));
    ghost var a := Where(g.body.items, id);
    ghost var k := Place(g.body.items, a);
    ghost var nodes, cs := r.nodes, Contents(r.nodes);
    NodeOf(r, g, id);
    ghost var added;
    n, added := PutBefore(r, p, probe, methodId, k);
    CorrectHandlers(r, p, n);
    g' := Picture(g.orig, Apply(g.orig, g.body, e), g.named + [n]);
    ghost var xs := added + [n];
    ApplyCounts(g.orig, g.body, e);
    BeforeShown(g, e, nodes, cs, a, ContentOf(p), xs, Contents(xs), r.nodes, Contents(r.nodes), n);
    HandlersShown(r.il, old(r.eh), r.eh, g, e, p, n);
    NamesStay(r.il, g, e, n);
  }

  /** A new nop behind the node. */
  method NopBehind(r: ILRewriter, p: ILInstr, ghost k: nat) returns (n: ILInstr)
    requires r.Valid() && k < |r.nodes| && p == r.nodes[k]
    modifies r`nodes, r`maxStack, r`nInstrs, r.il`next, r.il`prev, r.nodes`next, r.nodes`prev
    ensures r.Valid() && r.nodes == Inserted(old(r.nodes), k + 1, [n]) && fresh(n) && n.op == NOP
    ensures r.maxStack == old(r.maxStack) + Pushes(NOP) && r.nInstrs == old(r.nInstrs) + 1
  {
    n := r.NewILInstr();
    n.op := NOP;
    r.InsertAfter(p, n, k);
  }

  /** A nop behind the node, with the nodes of a probe call between the two. */
  method PutAfter(r: ILRewriter, p: ILInstr, probe: ProbeCall, methodId: int, ghost k: nat)
    returns (n: ILInstr, ghost added: seq<ILInstr>)
    requires r.Valid() && k < |r.nodes| && p == r.nodes[k]
    modifies r`nodes, r`maxStack, r`nInstrs, r.il`next, r.il`prev, r.nodes`next, r.nodes`prev
    ensures r.Valid() && r.nodes == Inserted(old(r.nodes), k + 1, added + [n])
    ensures fresh(n) && n.op == NOP
    ensures fresh(added) && Holding(added, CoverageBody(p.offset, methodId, probe))
    ensures r.maxStack == old(r.maxStack) + Pushes(NOP) + BodyPushes(CoverageBody(p.offset, methodId, probe))
    ensures |added| == 4 && r.nInstrs == old(r.nInstrs) + 5
    ensures Extended(old(r.nodes), old(Contents(r.nodes)), k, ContentOf(p), added + [n], Contents(added + [n]), r.nodes, Contents(r.nodes))
    ensures HoldsBody(Contents(added + [n]), 0, CoverageBody(p.offset, methodId, probe))
    ensures forall k :: 0 <= k < |r.nodes| ==> r.nodes[k] in old(r.nodes) || fresh(r.nodes[k])
  {
    hide LinkedAt, CoverageBody, BodyPushes, Contents;
    ghost var nodes := r.nodes;
    n := NopBehind(r, p, k);
    added := AddProbeCall(r, n, p.offset, methodId, probe, k + 1);
    InsertedInFront(nodes, k + 1, n, added);
    InsertedMembers(nodes, k + 1, added + [n]);
    assert Contents(nodes) == old(Contents(r.nodes))[k := ContentOf(p)];
    ContentsInserted(nodes, k + 1, added + [n]);
  }

  /** The probe goes behind the node and is closed by a nop of its own. */
  method AddCoverageProbeAfter(r: ILRewriter, p: ILInstr, probe: ProbeCall, methodId: int, ghost g: Picture, ghost id: nat)
    returns (n: ILInstr, ghost g': Picture)
    requires Shows(r, g) && Where(g.body.items, id) < |g.body.items| && id < |g.named| && p == g.named[id]
    modifies r`nodes, r`maxStack, r`nInstrs, r`eh, r.il`next, r.il`prev, r.nodes`next, r.nodes`prev
    ensures fresh(n) && Shows(r, g')
    ensures g' == Picture(g.orig, Apply(g.orig, g.body, After(id, CoverageBody(p.offset, methodId, probe))), g.named + [n])
    ensures forall k :: 0 <= k < |r.nodes| ==> r.nodes[k] in old(r.nodes) || fresh(r.nodes[k])
  {
    hide Where, Place, Apply, Contents, ILRewriter.Valid, ItemsShown, ClausesShown, CoverageBody, BodyPushes, Inserted, Extended,
      HoldsBody, Distinct, Pushes, OpOf;
    ghost var e := After(id, CoverageBody(p.offset, methodId, probe));
    ghost var a := Where(g.body.items, id);
    ghost var k := Place(g.body.items, a);
    ghost var nodes, cs := r.nodes, Contents(r.nodes);
    NodeOf(r, g, id);
    ghost var added;
    n, added := PutAfter(r, p, probe, methodId, k);
    CorrectHandlers(r, p, n);
    g' := Picture(g.orig, Apply(g.orig, g.body, e), g.named + [n]);
    ghost var xs := added + [n];
    ApplyCounts(g.orig, g.body, e);
    AfterShown(g, e, nodes, cs, a, xs, Contents(xs), r.nodes, Contents(r.nodes), n);
    HandlersShown(r.il, old(r.eh), r.eh, g, e, p, n);
    NamesStay(r.il, g, e, n);
  }

  method PutTail(r: ILRewriter, p: ILInstr, ghost k: nat) returns (n: ILInstr)
    requires r.Valid() && k + 2 < |r.nodes| && p == r.nodes[k]
    modifies r`nodes, r`maxStack, r`nInstrs, r.il`next, r.il`prev, r.nodes`next, r.nodes`prev, p`op, p`offset
    ensures fresh(n) && r.Valid() && r.nodes == Inserted(old(r.nodes), k + 1, [n])
    ensures p.op == NOP && ContentOf(n) == Content(TAILCALL, 0, null)
    ensures n.offset == old(r.nodes[k + 1].offset) && p.offset == old(r.nodes[k + 2].offset) && n.next == old(r.nodes)[k + 1]
    ensures forall j :: 0 <= j < |r.nodes| ==> r.nodes[j] in old(r.nodes) || fresh(r.nodes[j])
    ensures r.maxStack == old(r.maxStack) + Pushes(TAILCALL) && r.nInstrs == old(r.nInstrs) + 1
    ensures Extended(old(r.nodes), old(Contents(r.nodes)), k, ContentOf(p), [n], [ContentOf(n)], r.nodes, Contents(r.nodes))
  {
    hide Contents, LinkedAt;
    ghost var nodes := r.nodes;
    n := TailBehind(r, p, k);
    var call := n.next;
    n.offset := call.offset;
    p.offset := call.next.offset;
    InsertedMembers(nodes, k + 1, [n]);
    assert Contents(nodes) == old(Contents(r.nodes))[k := ContentOf(p)];
    ContentsInserted(nodes, k + 1, [n]);
    assert Contents([n]) == [ContentOf(n)];
  }

  /** The prefix on a new node behind the emptied one. */
  method TailBehind(r: ILRewriter, p: ILInstr, ghost k: nat) returns (n: ILInstr)
    requires r.Valid() && k + 2 < |r.nodes| && p == r.nodes[k]
    modifies r`nodes, r`maxStack, r`nInstrs, r.il`next, r.il`prev, r.nodes`next, r.nodes`prev, p`op
    ensures fresh(n) && r.Valid() && r.nodes == Inserted(old(r.nodes), k + 1, [n])
    ensures p.op == NOP && ContentOf(n) == Content(TAILCALL, 0, null)
    ensures n.next == old(r.nodes)[k + 1] && old(r.nodes)[k + 1].next == old(r.nodes)[k + 2]
    ensures r.maxStack == old(r.maxStack) + Pushes(TAILCALL) && r.nInstrs == old(r.nInstrs) + 1
  {
    hide LinkedAt;
    n := r.NewILInstr();
    n.op := TAILCALL;
    p.op := NOP;
    r.InsertAfter(p, n, k);
    TwoFurther(r, n, k + 1);
  }

  lemma {:induction false} TwoFurther(r: ILRewriter, n: ILInstr, k: nat)
    requires r.Valid() && k + 2 < |r.nodes| && n == r.nodes[k]
    ensures n.next == r.nodes[k + 1] && r.nodes[k + 1].next == r.nodes[k + 2]
  {
    assert LinkedAt(r.il, r.nodes, k + 1);
    assert LinkedAt(r.il, r.nodes, k + 2);
  }

  /** A tail. prefix moves to a new node, which takes the offset of the call; the
      emptied node takes that of the ret. */
  method SplitTail(r: ILRewriter, p: ILInstr, ghost g: Picture, ghost id: nat) returns (n: ILInstr, ghost g': Picture)
    requires Shows(r, g) && Where(g.body.items, id) < |g.body.items| && id < |g.named| && p == g.named[id]
    requires var x := g.body.items[Where(g.body.items, id)];
      x.Keep? && x.i < |g.orig| && g.orig[x.i].op == TAILCALL
    requires Place(g.body.items, Where(g.body.items, id)) + 2 < |r.nodes|
    modifies r`nodes, r`maxStack, r`nInstrs, r.il`next, r.il`prev, r.nodes`next, r.nodes`prev, p`op, p`offset
    ensures fresh(n) && Shows(r, g') && g' == Picture(g.orig, Apply(g.orig, g.body, Split(id)), g.named + [n])
    ensures r.nodes == Inserted(old(r.nodes), Place(g.body.items, Where(g.body.items, id)) + 1, [n])
    ensures n.offset == old(r.nodes[Place(g.body.items, Where(g.body.items, id)) + 1].offset)
    ensures p.offset == old(r.nodes[Place(g.body.items, Where(g.body.items, id)) + 2].offset)
    ensures n.next == old(r.nodes)[Place(g.body.items, Where(g.body.items, id)) + 1]
    ensures forall k :: 0 <= k < |r.nodes| ==> r.nodes[k] in old(r.nodes) || fresh(r.nodes[k])
  {
    hide Where, Place, Apply, Contents, ILRewriter.Valid, ItemsShown, ClausesShown, Inserted, Extended, Distinct, Pushes;
    ghost var e := Split(id);
    ghost var a := Where(g.body.items, id);
    ghost var k := Place(g.body.items, a);
    ghost var nodes, cs := r.nodes, Contents(r.nodes);
    NodeOf(r, g, id);
    n := PutTail(r, p, k);
    g' := Picture(g.orig, Apply(g.orig, g.body, e), g.named + [n]);
    ApplyCounts(g.orig, g.body, e);
    SplitShown(g, e, nodes, cs, a, ContentOf(p), ContentOf(n), r.nodes, Contents(r.nodes), n);
    HandlersShown(r.il, r.eh, r.eh, g, e, p, n);
    NamesStay(r.il, g, e, n);
  }

  // ----- the enter probe -----

  lemma {:induction false} EnterShown(g: Picture, body: seq<Instr>, nodes: seq<ILInstr>, cs: seq<Content>, xs: seq<ILInstr>, ds: seq<Content>)
    requires ItemsShown(nodes, cs, g) && |xs| == |ds| == |body| && HoldsBody(ds, 0, body)
    ensures ItemsShown(xs + nodes, ds + cs, g.(body := Enter(g.body, body)))
  {
    hide Place;
    var items, t := g.body.items, Enter(g.body, body).items;
    EnterPlace(items, body, |items|);
    forall b | 0 <= b < |t| ensures HoldsItem(g.orig, g.named, xs + nodes, ds + cs, t[b], Place(t, b)) {
      if b == 0 {
        assert Place(t, 0) == 0 by { PlaceZero(t); }
        assert HoldsBody(ds + cs, 0, body);
      } else {
        EnterPlace(items, body, b - 1);
        assert t[b] == items[b - 1];
        var p := Place(items, b - 1);
        assert HoldsItem(g.orig, g.named, nodes, cs, items[b - 1], p);
        ItemMoves(g.orig, g.named, nodes, cs, xs, ds, items[b - 1], p);
      }
    }
  }

  lemma {:induction false} EnterClauses(eh: seq<EHClause>, g: Picture, body: seq<Instr>)
    requires ClausesShown(eh, g)
    ensures ClausesShown(eh, g.(body := Enter(g.body, body)))
  {
  }

  lemma {:induction false} PlaceZero(items: seq<Item>)
    ensures Place(items, 0) == 0
  {
  }

  lemma {:induction false} ItemMoves(orig: Code, named: seq<ILInstr>, nodes: seq<ILInstr>, cs: seq<Content>, xs: seq<ILInstr>, ds: seq<Content>, x: Item, p: nat)
    requires HoldsItem(orig, named, nodes, cs, x, p) && |xs| == |ds| && |nodes| == |cs|
    ensures HoldsItem(orig, named, xs + nodes, ds + cs, x, |xs| + p)
  {
    if x.Probe? {
      forall j | |xs| + p <= j < |xs| + p + |x.body|
        ensures (ds + cs)[j].op == x.body[j - (|xs| + p)].op && (ds + cs)[j].arg == x.body[j - (|xs| + p)].arg
      {
        assert (ds + cs)[j] == cs[j - |xs|];
      }
    }
  }

  /** The three arguments of the enter probe in front of a node. */
  method AddEnterArguments(r: ILRewriter, where: ILInstr, offset: int, methodId: int) returns (ghost added: seq<ILInstr>)
    requires r.Valid() && |r.nodes| > 0 && where == r.nodes[0]
    modifies r`nodes, r`maxStack, r`nInstrs, r.il`next, r.il`prev, r.nodes`next, r.nodes`prev
    ensures r.Valid() && r.nodes == added + old(r.nodes)
    ensures fresh(added) && Holding(added, [Instr(LDC_I4, offset, 0), Instr(LDC_I4, methodId, 0), Instr(LDC_I4_0, 0, 0)])
    ensures r.maxStack == old(r.maxStack) + 3 && r.nInstrs == old(r.nInstrs) + 3
  {
    hide LinkedAt, Inserted;
    ghost var was := r.nodes;
    ghost var a := AddArguments(r, where, offset, methodId, 0);
    InsertedFront(was, a);
    assert At(r.il, r.nodes, 2) == where;
    var c := r.NewILInstr();
    c.op := LDC_I4_0;
    r.InsertBefore(where, c, 2);
    InsertedMore(was, 0, a, [c]);
    added := a + [c];
    InsertedFront(was, added);
  }

  lemma {:induction false} InsertedFront(s: seq<ILInstr>, xs: seq<ILInstr>)
    ensures Inserted(s, 0, xs) == xs + s
  {
    assert s[..0] == [] && s[0..] == s;
  }

  /** The enter probe goes in front of everything. */
  method AddEnterProbe(r: ILRewriter, probe: ProbeCall, methodId: int, ghost g: Picture) returns (ghost g': Picture)
    requires Shows(r, g) && |r.nodes| > 0
    modifies r`nodes, r`maxStack, r`nInstrs, r.il`next, r.il`prev, r.nodes`next, r.nodes`prev
    ensures Shows(r, g')
    ensures g' == g.(body := Enter(g.body, EnterBody(old(r.nodes)[0].offset, methodId, probe)))
    ensures forall k :: 0 <= k < |r.nodes| ==> r.nodes[k] in old(r.nodes) || fresh(r.nodes[k])
  {
    hide ItemsShown, ClausesShown, Place, Contents, BodyPushes;
    ghost var nodes, cs := r.nodes, Contents(r.nodes);
    assert LinkedAt(r.il, r.nodes, 0);
    var first := r.il.next;
    ghost var body := EnterBody(first.offset, methodId, probe);
    ghost var a := AddEnterArguments(r, first, first.offset, methodId);
    assert At(r.il, r.nodes, 3) == first;
    ghost var b := AddProbe(r, probe.addr, probe.sig, first, 3);
    ghost var xs := a + b;
    assert r.nodes == xs + nodes;
    assert Contents(r.nodes) == Contents(xs) + cs;
    assert HoldsBody(Contents(xs), 0, body);
    EnterShown(g, body, nodes, cs, xs, Contents(xs));
    EnterClauses(r.eh, g, body);
    g' := g.(body := Enter(g.body, body));
    EnterPushes(first.offset, methodId, probe);
  }

}
