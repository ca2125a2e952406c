/** The whole of RewriteIL: method body bytes in, method body bytes out. */
module Pipeline {
  import opened Opcodes
  import opened Layout
  import opened Bytes
  import opened Codec
  import opened Splice
  import opened Linking
  import opened Machine
  import opened Rewriting

  // ----- what Import accepts is canonical -----

  lemma {:induction false} ImportedCanonical(il: seq<byte>)
    requires Import(il).Accepted?
    ensures Canonical(Import(il).code)
  {
    hide Size, OperandLength, Parse, LittleEndian, OpcodeBytes;
    var rs := Parse(il, 0).value;
    var c := Import(il).code;
    ParsedOk(il, 0);
    forall i | 0 <= i < |c| ensures EntryCanonical(c, i) {
      assert RawOk(il, rs, i);
      assert c[i] == ResolveEntry(rs, |il|, i);
      assert forall j :: 0 <= j < |c| ==> c[j].op == rs[j].op;
      if HasTarget(rs[i].op) {
        assert Find(rs, |il|, rs[i].arg).Some?;
      }
    }
  }

  // ----- the probes RewriteIL adds -----

  function TwoArgument(u: Setup): set<ProbeCall> {
    {u.probes.coverage, u.probes.stsfld, u.probes.branch, u.probes.leave, u.probes.leaveMain,
     u.probes.call, u.probes.tailcall, u.probes.throw}
  }

  function AllProbes(u: Setup): set<ProbeCall> {
    TwoArgument(u) + {u.probes.enter, u.probes.enterMain}
  }

  /** Probe signatures as registered: two arguments, three for the enter probes;
      tokens, ids and addresses fit their operands. */
  ghost predicate SetupOk(u: Setup) {
    && Fits(u.methodId, 4)
    && (forall p :: p in AllProbes(u) ==> Fits(p.addr, 8) && Fits(p.sig, 4))
    && (forall p :: p in TwoArgument(u) ==> p.arity == 2)
    && u.probes.enter.arity == 3 && u.probes.enterMain.arity == 3
  }

  ghost predicate BodyOk(u: Setup, limit: nat, body: seq<Instr>) {
    exists o: nat, p :: o <= limit && ((p in TwoArgument(u) && body == CoverageBody(o, u.methodId, p))
                                       || (p == u.Enter() && body == EnterBody(o, u.methodId, p)))
  }

  ghost predicate BodiesOk(u: Setup, limit: nat, items: seq<Item>) {
    forall a :: 0 <= a < |items| && items[a].Probe? ==> BodyOk(u, limit, items[a].body)
  }

  predicate Aimed(u: Setup, limit: nat, n: Insertion) {
    n.probe in TwoArgument(u) && n.offset <= limit
  }

  lemma {:induction false} PriorityKnown(orig: Code, u: Setup, i: nat, tail: bool, next: nat)
    requires i <= |orig|
    ensures forall n :: n in Priority(orig, u, i, tail, next) ==> Aimed(u, 10 * |orig|, n)
    decreases |orig| - i
  {
    hide Offset;
    if i < |orig| {
      PriorityKnown(orig, u, i + 1, TailAfter(orig[i].op, tail), if orig[i].op == TAILCALL then next + 1 else next);
      forall n | n in Wanted(orig, u, i, tail, next) ensures Aimed(u, 10 * |orig|, n) {
      }
    }
  }

  lemma {:induction false} CoverKnown(orig: Code, u: Setup, ts: seq<nat>, covered: set<nat>)
    ensures forall n :: n in Cover(orig, u, ts, covered) ==> Aimed(u, 10 * |orig|, n)
    decreases |ts|
  {
    hide Offset;
    if ts != [] {
      if !(ts[0] == 0 || ts[0] > |orig| || NodeOffset(orig, ts[0] - 1) in covered) {
        CoverKnown(orig, u, ts[1..], covered + {NodeOffset(orig, ts[0] - 1)});
      } else {
        CoverKnown(orig, u, ts[1..], covered);
      }
    }
  }

  lemma {:induction false} InsertionsKnown(orig: Code, eh: seq<Clause>, u: Setup)
    ensures forall n :: n in Insertions(orig, u, eh) ==> Aimed(u, 10 * |orig|, n)
  {
    hide Priority, Cover, Targets, Offset;
    PriorityKnown(orig, u, 0, false, |orig| + 1);
    CoverKnown(orig, u, Targets(orig, 0), OffsetsOf(First(orig, u, eh)));
  }

  lemma {:induction false} ApplyBodies(orig: Code, b: Body, e: Edit, u: Setup, limit: nat)
    requires BodiesOk(u, limit, b.items) && Where(b.items, e.id) < |b.items|
    requires !e.Split? ==> BodyOk(u, limit, e.body)
    ensures BodiesOk(u, limit, Apply(orig, b, e).items)
  {
    hide Where, BodyOk;
    var a := Where(b.items, e.id);
    var t := Apply(orig, b, e).items;
    var r := Replacement(b.items[a], e, b.next);
    forall p | 0 <= p < |t| && t[p].Probe? ensures BodyOk(u, limit, t[p].body) {
      if p < a {
        assert t[p] == b.items[p];
      } else if p < a + |r| {
        assert t[p] == r[p - a];
      } else {
        assert t[p] == b.items[p - |r| + 1];
      }
    }
  }

  lemma {:induction false} ApplyAllBodies(orig: Code, b: Body, es: seq<Edit>, u: Setup, limit: nat)
    requires BodiesOk(u, limit, b.items)
    requires forall e :: e in es && !e.Split? ==> BodyOk(u, limit, e.body)
    ensures BodiesOk(u, limit, ApplyAll(orig, b, es).items)
    decreases |es|
  {
    hide BodiesOk, BodyOk, Apply, Where;
    if es != [] {
      if Where(b.items, es[0].id) >= |b.items| {
        ApplyAllBodies(orig, b, es[1..], u, limit);
      } else {
        assert es[0] in es;
        ApplyBodies(orig, b, es[0], u, limit);
        ApplyAllBodies(orig, Apply(orig, b, es[0]), es[1..], u, limit);
      }
    }
  }

  lemma {:induction false} RewriteBodies(orig: Code, eh: seq<Clause>, maxStack: nat, u: Setup)
    requires |orig| > 0
    ensures BodiesOk(u, 10 * |orig|, Rewrite(orig, eh, maxStack, u).items)
  {
    hide ApplyAll, Insertions, Splits, EditOf, CoverageBody, EnterBody, Offset;
    var limit := 10 * |orig|;
    var ns := Insertions(orig, u, eh);
    InsertionsKnown(orig, eh, u);
    SplitsOnly(orig, 0);
    var es := Splits(orig, 0) + EditsOf(u, ns);
    forall e | e in es && !e.Split? ensures BodyOk(u, limit, e.body) {
      var k :| 0 <= k < |es| && es[k] == e;
      if k >= |Splits(orig, 0)| {
        var n := ns[k - |Splits(orig, 0)|];
        assert n in ns && Aimed(u, limit, n);
        EditBody(u, limit, n);
      }
    }
    var b := ApplyAll(orig, Imported(orig, eh, maxStack), es);
    ApplyAllBodies(orig, Imported(orig, eh, maxStack), es, u, limit);
    var body := EnterBody(NodeOffset(orig, 0), u.methodId, u.Enter());
    assert NodeOffset(orig, 0) <= limit by { EnterOffset(orig); }
    assert BodyOk(u, limit, body);
    var t := Enter(b, body).items;
    forall p | 0 <= p < |t| && t[p].Probe? ensures BodyOk(u, limit, t[p].body) {
      if p > 0 {
        assert t[p] == b.items[p - 1];
      }
    }
  }

  lemma {:induction false} EnterOffset(orig: Code)
    requires |orig| > 0
    ensures NodeOffset(orig, 0) <= 10 * |orig|
  {
  }

  lemma {:induction false} EditBody(u: Setup, limit: nat, n: Insertion)
    requires Aimed(u, limit, n)
    ensures !EditOf(u, n).Split? && BodyOk(u, limit, EditOf(u, n).body)
  {
  }

  lemma {:induction false} BodyShape(u: Setup, limit: nat, body: seq<Instr>)
    requires SetupOk(u) && BodyOk(u, limit, body) && limit < 0x8000_0000
    ensures ProbeShape(body, AllProbes(u)) && 2 <= |body| <= 5
    ensures forall j :: 0 <= j < |body| ==>
              Decodable(body[j].op) && !HasTarget(body[j].op) && body[j].op != SWITCH && body[j].target == 0
              && Fits(body[j].arg, OperandLength(body[j].op))
  {
    hide Fits;
    var o: nat, p :| o <= limit && ((p in TwoArgument(u) && body == CoverageBody(o, u.methodId, p))
                                    || (p == u.Enter() && body == EnterBody(o, u.methodId, p)));
    assert Fits(o, 4) by { FitsOffset(o); }
    assert Fits(0, 0) by { FitsZero(); }
    assert p in AllProbes(u);
    assert Fits(p.addr, 8) && Fits(p.sig, 4);
  }

  lemma {:induction false} FitsOffset(o: nat)
    requires o < 0x8000_0000
    ensures Fits(o, 4)
  {
    assert Half(1) == 128 && Half(2) == 0x8000 && Half(3) == 0x80_0000 && Half(4) == 0x8000_0000;
  }

  lemma {:induction false} FitsZero()
    ensures Fits(0, 0)
  {
  }

  lemma {:induction false} BodiesAreProbes(u: Setup, limit: nat, items: seq<Item>)
    requires SetupOk(u) && BodiesOk(u, limit, items) && limit < 0x8000_0000
    ensures ProbesOk(items, AllProbes(u))
    ensures forall a :: 0 <= a < |items| && items[a].Probe? ==> 2 <= |items[a].body| <= 5
  {
    hide SetupOk, BodyOk, ProbeShape;
    forall a | 0 <= a < |items| && items[a].Probe?
      ensures ProbeShape(items[a].body, AllProbes(u)) && 2 <= |items[a].body| <= 5
    {
      BodyShape(u, limit, items[a].body);
    }
  }

  // ----- how much longer the list gets -----

  /** An edit adds a probe call and one more node at most. */
  lemma {:induction false} ApplyGrows(orig: Code, b: Body, e: Edit)
    requires Where(b.items, e.id) < |b.items| && (!e.Split? ==> |e.body| == 4)
    ensures var t := Apply(orig, b, e).items; Place(t, |t|) <= Place(b.items, |b.items|) + 5
  {
    hide Where, Place;
    var a := Where(b.items, e.id);
    var r, t := Replacement(b.items[a], e, b.next), Apply(orig, b, e).items;
    assert Swapped(b.items, a, r, t);
    PlaceBehind(b.items, a, r, t, |b.items|);
    assert Place(r, |r|) <= 6 by { ReplacementLength(b.items[a], e, b.next); }
  }

  lemma {:induction false} ReplacementLength(x: Item, e: Edit, n: nat)
    requires !x.Probe? && (!e.Split? ==> |e.body| == 4)
    ensures var r := Replacement(x, e, n); Place(r, |r|) <= 6
  {
    var r := Replacement(x, e, n);
    assert Place(r, 1) == 1;
    assert Place(r, 2) == 1 + Len(r[1]);
  }

  lemma {:induction false} ApplyAllGrows(orig: Code, b: Body, es: seq<Edit>)
    requires forall e :: e in es && !e.Split? ==> |e.body| == 4
    ensures var t := ApplyAll(orig, b, es).items; Place(t, |t|) <= Place(b.items, |b.items|) + 5 * |es|
    decreases |es|
  {
    hide Where, Apply, Place;
    if es != [] {
      if Where(b.items, es[0].id) >= |b.items| {
        ApplyAllGrows(orig, b, es[1..]);
      } else {
        assert es[0] in es;
        ApplyGrows(orig, b, es[0]);
        ApplyAllGrows(orig, Apply(orig, b, es[0]), es[1..]);
      }
    }
  }

  lemma {:induction false} SplitsCount(orig: Code, i: nat)
    requires i <= |orig|
    ensures |Splits(orig, i)| <= |orig| - i
    decreases |orig| - i
  {
    if i < |orig| {
      SplitsCount(orig, i + 1);
    }
  }

  lemma {:induction false} PriorityCount(orig: Code, u: Setup, i: nat, tail: bool, next: nat)
    requires i <= |orig|
    ensures |Priority(orig, u, i, tail, next)| <= 2 * (|orig| - i)
    decreases |orig| - i
  {
    hide Offset, NodeOffset;
    if i < |orig| {
      PriorityCount(orig, u, i + 1, TailAfter(orig[i].op, tail), if orig[i].op == TAILCALL then next + 1 else next);
    }
  }

  lemma {:induction false} CoverCount(orig: Code, u: Setup, ts: seq<nat>, covered: set<nat>)
    ensures |Cover(orig, u, ts, covered)| <= |ts|
    decreases |ts|
  {
    hide NodeOffset;
    if ts != [] {
      if !(ts[0] == 0 || ts[0] > |orig| || NodeOffset(orig, ts[0] - 1) in covered) {
        CoverCount(orig, u, ts[1..], covered + {NodeOffset(orig, ts[0] - 1)});
      } else {
        CoverCount(orig, u, ts[1..], covered);
      }
    }
  }

  lemma {:induction false} EntryHasNoTargets(orig: Code, i: nat)
    requires i < |orig| && orig[i].op == SWITCH_ARG
    ensures TargetsAt(orig, i) == []
  {
  }

  /** The entries of a switch table ask for no probes of their own. */
  lemma {:induction false} TableHasNoTargets(orig: Code, i: nat, k: nat)
    requires i + k <= |orig| && forall j :: i <= j < i + k ==> orig[j].op == SWITCH_ARG
    ensures Targets(orig, i) == Targets(orig, i + k)
    decreases k
  {
    hide TargetsAt;
    if k > 0 {
      EntryHasNoTargets(orig, i);
      TableHasNoTargets(orig, i + 1, k - 1);
      assert [] + Targets(orig, i + 1) == Targets(orig, i + 1);
    }
  }

  lemma {:induction false} TableFits(orig: Code, eh: seq<Clause>, i: nat)
    requires Instrumentable(orig, eh) && i < |orig| && orig[i].op == SWITCH
    ensures 0 <= orig[i].arg < |orig| - i && forall j :: i < j <= i + orig[i].arg ==> orig[j].op == SWITCH_ARG
  {
    hide WellFormed, PrefixOk, TargetOk, ClauseOk;
    assert TableOk(orig, i);
  }

  lemma {:induction false} TargetsAtCount(orig: Code, i: nat)
    requires i < |orig|
    ensures orig[i].op == SWITCH && 0 <= orig[i].arg < |orig| - i ==> |TargetsAt(orig, i)| == orig[i].arg
    ensures orig[i].op != SWITCH ==> |TargetsAt(orig, i)| <= 1
  {
  }

  lemma {:induction false} TargetsCount(orig: Code, eh: seq<Clause>, i: nat)
    requires Instrumentable(orig, eh) && i <= |orig|
    ensures |Targets(orig, i)| <= |orig| - i
    decreases |orig| - i
  {
    hide Instrumentable, TargetsAt;
    if i < |orig| {
      TargetsAtCount(orig, i);
      if orig[i].op == SWITCH {
        TableFits(orig, eh, i);
        TableHasNoTargets(orig, i + 1, orig[i].arg);
        TargetsCount(orig, eh, i + 1 + orig[i].arg);
      } else {
        TargetsCount(orig, eh, i + 1);
      }
    }
  }

  lemma {:induction false} EditLength(u: Setup, n: Insertion)
    ensures !EditOf(u, n).Split? && |EditOf(u, n).body| == 4
  {
  }

  /** The rewritten list is longer by a constant factor at most. */
  lemma {:induction false} RewriteGrows(orig: Code, eh: seq<Clause>, maxStack: nat, u: Setup)
    requires Instrumentable(orig, eh) && |orig| > 0
    ensures var t := Rewrite(orig, eh, maxStack, u).items; Place(t, |t|) <= 21 * |orig| + 5 * |eh| + 5
  {
    hide Instrumentable, ApplyAll, Priority, Cover, Targets, Splits, EditOf, NodeOffset, Place, EnterBody, Imported;
    var ns := Insertions(orig, u, eh);
    PriorityCount(orig, u, 0, false, |orig| + 1);
    TargetsCount(orig, eh, 0);
    CoverCount(orig, u, Targets(orig, 0), OffsetsOf(First(orig, u, eh)));
    SplitsCount(orig, 0);
    SplitsOnly(orig, 0);
    var es := Splits(orig, 0) + EditsOf(u, ns);
    forall e | e in es && !e.Split? ensures |e.body| == 4 {
      var k :| 0 <= k < |es| && es[k] == e;
      if k >= |Splits(orig, 0)| {
        EditLength(u, ns[k - |Splits(orig, 0)|]);
      }
    }
    var b := Imported(orig, eh, maxStack);
    ApplyAllGrows(orig, b, es);
    ImportedLength(orig, eh, maxStack, |orig|);
    var body := EnterBody(NodeOffset(orig, 0), u.methodId, u.Enter());
    EnterLength(ApplyAll(orig, b, es), body, NodeOffset(orig, 0), u);
  }

  lemma {:induction false} ImportedLength(orig: Code, eh: seq<Clause>, m: nat, a: nat)
    requires a <= |orig|
    ensures |Imported(orig, eh, m).items| == |orig| && Place(Imported(orig, eh, m).items, a) == a
  {
    if a > 0 {
      ImportedLength(orig, eh, m, a - 1);
    }
  }

  lemma {:induction false} EnterLength(b: Body, body: seq<Instr>, o: int, u: Setup)
    requires body == EnterBody(o, u.methodId, u.Enter())
    ensures var t := Enter(b, body).items; Place(t, |t|) == Place(b.items, |b.items|) + 5
  {
    EnterPlace(b.items, body, |b.items|);
  }
}
