/** What leaves Export means what entered Import. */
module Meaning {
  import opened Wrappers
  import opened Opcodes
  import opened Layout
  import opened Bytes
  import opened Codec
  import opened Splice
  import opened Linking
  import opened Machine
  import opened Rewriting
  import opened Pipeline

  // ----- the linked list can be exported -----

  /** Every position lies in some item. */
  lemma {:induction false} Locate(items: seq<Item>, n: nat, p: nat) returns (a: nat, k: nat)
    requires n <= |items| && p < Place(items, n)
    ensures a < n && k < Len(items[a]) && p == Place(items, a) + k
  {
    if p >= Place(items, n - 1) {
      a, k := n - 1, p - Place(items, n - 1);
    } else {
      a, k := Locate(items, n - 1, p);
    }
  }

  /** A position that starts an item, if that item is not an entry of a switch table. */
  lemma {:induction false} StartsNoTable(orig: Code, items: seq<Item>, u: Setup, limit: nat, a: nat)
    requires InRange(orig, items) && a < |items| && SetupOk(u) && BodiesOk(u, limit, items) && limit < 0x8000_0000
    requires items[a].Keep? ==> orig[items[a].i].op != SWITCH_ARG
    ensures Place(items, a) < |Linked(orig, items)| && Linked(orig, items)[Place(items, a)].op != SWITCH_ARG
  {
    hide SetupOk, BodyOk, Place;
    if items[a].Probe? {
      BodyShape(u, limit, items[a].body);
    }
    EmitAt(orig, items, |items|, a, 0);
  }

  /** A node that a branch or a clause may name is never an entry of a switch table. */
  lemma {:induction false} AnchorNoTable(orig: Code, items: seq<Item>, u: Setup, limit: nat, t: nat)
    requires ErasesTo(orig, items) && Anchored(orig, items) && InRange(orig, items)
    requires SetupOk(u) && BodiesOk(u, limit, items) && limit < 0x8000_0000
    requires t <= |orig| && (t < |orig| ==> orig[t].op != SWITCH_ARG)
    ensures var c := Linked(orig, items); var p := PlaceOf(|orig|, items, t);
            p <= |c| && (p < |c| ==> c[p].op != SWITCH_ARG)
  {
    hide SetupOk, BodiesOk, Place;
    if t < |orig| {
      assert AnchoredAt(items, t);
      StartsNoTable(orig, items, u, limit, Where(items, t));
    }
  }

  ghost predicate Ready(orig: Code, eh: seq<Clause>, b: Body, u: Setup, limit: nat) {
    && Inv(orig, eh, b) && InRange(orig, b.items)
    && SetupOk(u) && BodiesOk(u, limit, b.items) && limit < 0x8000_0000
    && Canonical(orig) && Tables(orig)
  }

  lemma {:induction false} KeptCanonical(orig: Code, eh: seq<Clause>, b: Body, u: Setup, limit: nat, a: nat)
    requires Ready(orig, eh, b, u, limit) && a < |b.items| && b.items[a].Keep?
    ensures Place(b.items, a) < |Linked(orig, b.items)|
    ensures EntryCanonical(Linked(orig, b.items), Place(b.items, a))
  {
    hide SetupOk, BodiesOk, Place, OperandLength, Linked, Rank, Where, ClauseKept, Unbroken, PlaceOf;
    var c, i := Linked(orig, b.items), b.items[a].i;
    EmitKeep(orig, b.items, a);
    assert EntryCanonical(orig, i);
    if HasTarget(orig[i].op) {
      AnchorNoTable(orig, b.items, u, limit, orig[i].target);
    }
    if orig[i].op == SWITCH {
      KeptSwitch(orig, eh, b, u, limit, a);
    }
    if orig[i].op == SWITCH_ARG {
      assert Glued(orig, i);
      TablePredecessor(orig, b.items, a);
      EmitKeep(orig, b.items, a - 1);
      NextPlace(b.items, a - 1);
    }
  }

  lemma {:induction false} EmitKeep(orig: Code, items: seq<Item>, a: nat)
    requires InRange(orig, items) && a < |items| && items[a].Keep?
    ensures Place(items, a) < |Linked(orig, items)|
    ensures Linked(orig, items)[Place(items, a)] ==
            (if HasTarget(orig[items[a].i].op) then orig[items[a].i].(target := PlaceOf(|orig|, items, orig[items[a].i].target))
             else orig[items[a].i])
  {
    EmitAt(orig, items, |items|, a, 0);
  }

  lemma {:induction false} KeptSwitch(orig: Code, eh: seq<Clause>, b: Body, u: Setup, limit: nat, a: nat)
    requires Ready(orig, eh, b, u, limit) && a < |b.items| && b.items[a].Keep? && orig[b.items[a].i].op == SWITCH
    ensures var c := Linked(orig, b.items); var p := Place(b.items, a); var n := orig[b.items[a].i].arg;
            && 0 <= n && p + n < |c|
            && (forall j :: p < j <= p + n ==> c[j].op == SWITCH_ARG)
            && (p + n + 1 < |c| ==> c[p + n + 1].op != SWITCH_ARG)
  {
    hide SetupOk, BodiesOk, Place, OperandLength, Linked, Rank, Where, ClauseKept, Unbroken, PlaceOf;
    var c, i := Linked(orig, b.items), b.items[a].i;
    var p, n := Place(b.items, a), orig[i].arg;
    assert EntryCanonical(orig, i);
    TableFollows(orig, b.items, a, n);
    EmitKeep(orig, b.items, a);
    EmitKeep(orig, b.items, a + n);
    NextPlace(b.items, a + n);
    forall j | p < j <= p + n ensures c[j].op == SWITCH_ARG {
      TableFollows(orig, b.items, a, j - p);
      TableFollows(orig, b.items, a, j - p - 1);
      EmitKeep(orig, b.items, a + (j - p));
    }
    if a + n + 1 < |b.items| {
      if b.items[a + n + 1].Keep? {
        KeepRank(orig, b.items, a + n + 1);
      }
      StartsNoTable(orig, b.items, u, limit, a + n + 1);
    } else {
      assert |c| == Place(b.items, |b.items|) by { LinkedLength(orig, b.items); }
    }
  }

  lemma {:induction false} LinkedLength(orig: Code, items: seq<Item>)
    requires InRange(orig, items)
    ensures |Linked(orig, items)| == Place(items, |items|)
  {
  }

  /** The list RewriteIL builds is one that Export handles. */
  lemma {:induction false} LinkedCanonical(orig: Code, eh: seq<Clause>, b: Body, u: Setup, limit: nat)
    requires Ready(orig, eh, b, u, limit)
    ensures Canonical(Linked(orig, b.items))
  {
    hide SetupOk, BodyOk, Place, Linked, Rank, Where, Inv, Tables, Canonical, EntryCanonical, OperandLength;
    var c := Linked(orig, b.items);
    LinkedLength(orig, b.items);
    forall p | 0 <= p < |c| ensures EntryCanonical(c, p) {
      var a, k := Locate(b.items, |b.items|, p);
      if b.items[a].Keep? {
        KeptCanonical(orig, eh, b, u, limit, a);
      } else {
        AddedCanonical(orig, b.items, u, limit, a, k);
      }
    }
    AllCanonical(c);
  }

  lemma {:induction false} AllCanonical(c: Code)
    requires forall p :: 0 <= p < |c| ==> EntryCanonical(c, p)
    ensures Canonical(c)
  {
  }

  lemma {:induction false} LinkedEntry(orig: Code, items: seq<Item>, a: nat, k: nat)
    requires InRange(orig, items) && a < |items| && k < Len(items[a])
    ensures Place(items, a) + k < |Linked(orig, items)|
    ensures Linked(orig, items)[Place(items, a) + k] == EmitItem(orig, items, items[a])[k]
  {
    hide Place, EmitItem;
    EmitAt(orig, items, |items|, a, k);
  }

  lemma {:induction false} AddedCanonical(orig: Code, items: seq<Item>, u: Setup, limit: nat, a: nat, k: nat)
    requires InRange(orig, items) && SetupOk(u) && BodiesOk(u, limit, items) && limit < 0x8000_0000
    requires a < |items| && !items[a].Keep? && k < Len(items[a])
    ensures Place(items, a) + k < |Linked(orig, items)|
    ensures EntryCanonical(Linked(orig, items), Place(items, a) + k)
  {
    hide SetupOk, BodyOk, Place, OperandLength, Fits, HasTarget, Linked, Decodable;
    LinkedEntry(orig, items, a, k);
    if items[a].Probe? {
      BodyShape(u, limit, items[a].body);
    } else {
      NopCanonical();
    }
  }

  lemma {:induction false} NopCanonical()
    ensures Decodable(NOP) && !HasTarget(NOP) && Fits(0, OperandLength(NOP))
  {
  }

  lemma {:induction false} WidenedCanonical(c: Code, d: Code)
    requires Canonical(c) && Widens(c, d)
    ensures Canonical(d)
  {
    hide OperandSize;
    forall i | 0 <= i < |d| ensures EntryCanonical(d, i) {
      assert EntryCanonical(c, i) && SameOrLonger(c[i], d[i]);
      assert forall j :: 0 <= j < |c| ==> SameOrLonger(c[j], d[j]);
    }
  }

  // ----- widening changes no run -----

  lemma {:induction false} WidenedSuccessor(c: Code, d: Code, eh: seq<Region>, pc: nat, pending: seq<nat>, k: Control)
    requires Widens(c, d) && pc < |c|
    ensures |c| == |d| && Successor(Program(d, eh), pc, pending, k) == Successor(Program(c, eh), pc, pending, k)
  {
    hide Longer;
    assert SameOrLonger(c[pc], d[pc]);
    if k.Arm? && pc + 1 + k.k < |c| {
      assert SameOrLonger(c[pc + 1 + k.k], d[pc + 1 + k.k]);
    }
    if k.Resume? && pending != [] && pending[|pending| - 1] < |c| {
      assert SameOrLonger(c[pending[|pending| - 1]], d[pending[|pending| - 1]]);
    }
  }

  /** Either form of an instruction does the same. */
  lemma {:induction false} WidenedMeaning<W(!new)>(sem: Semantics<W>, probes: set<ProbeCall>, x: Instr, y: Instr, s: State<W>)
    requires Sound(sem, probes) && SameOrLonger(x, y)
    ensures sem(y.op, y.arg, s) == sem(x.op, x.arg, s)
  {
    hide Longer;
    if x != y {
      LongerByOpcode(x.op, x.op);
      assert sem(x.op, x.arg, s) == sem(Longer(x.op), x.arg, s);
    }
  }

  lemma {:induction false} WidenedStep<W(!new)>(sem: Semantics<W>, probes: set<ProbeCall>, c: Code, d: Code, eh: seq<Region>, x: Conf<W>)
    requires Sound(sem, probes) && Widens(c, d)
    ensures Step(Program(d, eh), sem, x) == Step(Program(c, eh), sem, x)
  {
    hide Successor, Sound;
    if x.At? && x.pc < |c| {
      assert SameOrLonger(c[x.pc], d[x.pc]);
      WidenedMeaning(sem, probes, c[x.pc], d[x.pc], x.s);
      var (k, _) := sem(c[x.pc].op, c[x.pc].arg, x.s);
      WidenedSuccessor(c, d, eh, x.pc, x.pending, k);
    }
  }

  lemma {:induction false} WidenedRun<W(!new)>(sem: Semantics<W>, probes: set<ProbeCall>, c: Code, d: Code, eh: seq<Region>, x: Conf<W>, n: nat)
    requires Sound(sem, probes) && Widens(c, d)
    ensures Run(Program(d, eh), sem, x, n) == Run(Program(c, eh), sem, x, n)
  {
    hide Sound, Widens, Step;
    if n > 0 {
      WidenedRun(sem, probes, c, d, eh, x, n - 1);
      WidenedStep(sem, probes, c, d, eh, Run(Program(c, eh), sem, x, n - 1));
    }
  }

  // ----- exception clauses by offset -----

  /** A clause as the method body stores it. */
  datatype OffsetClause = OffsetClause(flags: int, tryOffset: int, tryLength: int, handlerOffset: int, handlerLength: int,
                                       isFilter: bool, filterOffset: int, token: int)

  datatype MethodBody = MethodBody(il: seq<byte>, eh: seq<OffsetClause>, maxStack: nat)

  /** ImportEH: bounds become positions; a bound inside an entry is not accepted. */
  function LoadClause(rs: seq<Raw>, size: nat, k: OffsetClause): Option<Region> {
    var tb, te := Find(rs, size, k.tryOffset), Find(rs, size, k.tryOffset + k.tryLength);
    var hb, he := Find(rs, size, k.handlerOffset), Find(rs, size, k.handlerOffset + k.handlerLength);
    var f := if k.isFilter then Find(rs, size, k.filterOffset) else Some(0);
    if tb.None? || te.None? || hb.None? || he.None? || f.None? then None
    else Some(Region(k.flags, tb.value, te.value, hb.value, he.value, k.isFilter, f.value, k.token))
  }

  ghost predicate ClausesLoad(rs: seq<Raw>, size: nat, eh: seq<OffsetClause>) {
    forall k :: 0 <= k < |eh| ==> LoadClause(rs, size, eh[k]).Some?
  }

  ghost function LoadClauses(rs: seq<Raw>, size: nat, eh: seq<OffsetClause>): (r: seq<Region>)
    requires ClausesLoad(rs, size, eh)
    ensures |r| == |eh| && forall k :: 0 <= k < |eh| ==> LoadClause(rs, size, eh[k]) == Some(r[k])
  {
    seq(|eh|, k requires 0 <= k < |eh| => LoadClause(rs, size, eh[k]).value)
  }

  ghost function Load(m: MethodBody): Option<Program> {
    var rs := Parse(m.il, 0);
    if !Import(m.il).Accepted? || !ClausesLoad(rs.value, |m.il|, m.eh) then None
    else Some(Program(Import(m.il).code, LoadClauses(rs.value, |m.il|, m.eh)))
  }

  /** The EH section that Export writes. */
  function StoreClause(c: Code, r: Region): OffsetClause
    requires r.tryBegin <= |c| && r.tryEnd <= |c| && r.handlerBegin <= |c| && r.handlerEnd <= |c| && r.filter <= |c|
  {
    OffsetClause(r.flags, Offset(c, r.tryBegin), Offset(c, r.tryEnd) - Offset(c, r.tryBegin),
                 Offset(c, r.handlerBegin), Offset(c, r.handlerEnd) - Offset(c, r.handlerBegin),
                 r.isFilter, if r.isFilter then Offset(c, r.filter) else 0, r.token)
  }

  predicate NameableAt(c: Code, p: nat) {
    p <= |c| && (p < |c| ==> c[p].op != SWITCH_ARG)
  }

  predicate Nameable(c: Code, r: Region) {
    && NameableAt(c, r.tryBegin) && NameableAt(c, r.tryEnd) && NameableAt(c, r.handlerBegin)
    && NameableAt(c, r.handlerEnd) && NameableAt(c, r.filter) && (!r.isFilter ==> r.filter == 0)
  }

  lemma {:induction false} LoadOfStore(c: Code, r: Region)
    requires WellFormed(c) && Nameable(c, r)
    ensures LoadClause(RawsOf(c, 0), Offset(c, |c|), StoreClause(c, r)) == Some(r)
  {
    hide Find, RawsOf, Offset;
    FindOffset(c, r.tryBegin);
    FindOffset(c, r.tryEnd);
    FindOffset(c, r.handlerBegin);
    FindOffset(c, r.handlerEnd);
    if r.isFilter {
      FindOffset(c, r.filter);
    }
  }

  /** The clause with its handler's last instruction instead of its end. */
  function ClauseOf(r: Region): Clause
    requires r.handlerEnd > 0
  {
    Clause(r.flags, r.tryBegin, r.tryEnd, r.handlerBegin, r.handlerEnd - 1, r.isFilter, r.filter, r.token)
  }

  function ClausesOf(eh: seq<Region>): (r: seq<Clause>)
    requires forall k :: 0 <= k < |eh| ==> eh[k].handlerEnd > 0
    ensures |r| == |eh|
  {
    seq(|eh|, k requires 0 <= k < |eh| => ClauseOf(eh[k]))
  }

  lemma {:induction false} LoadedNameable(rs: seq<Raw>, size: nat, c: Code, k: OffsetClause)
    requires |rs| == |c| && (forall i :: 0 <= i < |c| ==> c[i].op == rs[i].op)
    requires LoadClause(rs, size, k).Some? && (|c| > 0 ==> c[0].op != SWITCH_ARG)
    ensures Nameable(c, LoadClause(rs, size, k).value)
  {
  }

  /** A loaded body is canonical and its clauses name entries. */
  lemma {:induction false} LoadedOk(m: MethodBody)
    requires Load(m).Some?
    ensures var p := Load(m).value;
            && Canonical(p.code) && WellFormed(p.code)
            && (forall k :: 0 <= k < |p.eh| ==> Nameable(p.code, p.eh[k]))
  {
    hide Canonical, Parse, LoadClause, Nameable;
    var p, rs := Load(m).value, Parse(m.il, 0).value;
    ImportedCanonical(m.il);
    CanonicalWellFormed(p.code);
    assert |p.code| > 0 ==> p.code[0].op != SWITCH_ARG by { FirstNoTable(p.code); }
    assert forall i :: 0 <= i < |p.code| ==> p.code[i] == ResolveEntry(rs, |m.il|, i);
    forall k | 0 <= k < |p.eh| ensures Nameable(p.code, p.eh[k]) {
      assert LoadClause(rs, |m.il|, m.eh[k]).Some?;
      LoadedNameable(rs, |m.il|, p.code, m.eh[k]);
    }
  }

  lemma {:induction false} FirstNoTable(c: Code)
    requires Canonical(c)
    ensures |c| > 0 ==> c[0].op != SWITCH_ARG
  {
    if |c| > 0 {
      assert EntryCanonical(c, 0);
    }
  }

  // ----- RewriteIL -----

  /** A method body RewriteIL is meant for. */
  ghost predicate Acceptable(m: MethodBody, u: Setup) {
    && Load(m).Some? && SetupOk(u)
    && var p := Load(m).value;
    && (forall k :: 0 <= k < |p.eh| ==> p.eh[k].handlerEnd > 0)
    && Instrumentable(p.code, ClausesOf(p.eh))
    && 10 * |p.code| < 0x8000_0000
  }

  ghost function Input(m: MethodBody, u: Setup): Program
    requires Acceptable(m, u)
  {
    Load(m).value
  }

  ghost function InputClauses(m: MethodBody, u: Setup): seq<Clause>
    requires Acceptable(m, u)
  {
    ClausesOf(Input(m, u).eh)
  }

  /** The list after all insertions, before Export. */
  ghost function Output(m: MethodBody, u: Setup): Body
    requires Acceptable(m, u)
  {
    Rewrite(Input(m, u).code, InputClauses(m, u), m.maxStack, u)
  }

  lemma {:induction false} CanonicalTables(orig: Code)
    requires Canonical(orig) && WellFormed(orig)
    ensures Tables(orig)
  {
    hide WellFormed, OperandLength;
    forall i | 0 <= i < |orig| && orig[i].op == SWITCH
      ensures 0 <= orig[i].arg < |orig| - i && forall j :: i < j <= i + orig[i].arg ==> orig[j].op == SWITCH_ARG
    {
      assert EntryCanonical(orig, i);
    }
  }

  lemma {:induction false} ClausesInRange(orig: Code, eh: seq<Clause>)
    requires Instrumentable(orig, eh)
    ensures forall k :: 0 <= k < |eh| ==> ClauseInRange(|orig|, eh[k])
  {
    forall k | 0 <= k < |eh| ensures ClauseInRange(|orig|, eh[k]) {
      assert ClauseOk(orig, eh[k]);
    }
  }

  lemma {:induction false} OutputReady(m: MethodBody, u: Setup)
    requires Acceptable(m, u)
    ensures var p := Input(m, u); var eh := InputClauses(m, u); var b := Output(m, u);
            && Ready(p.code, eh, b, u, 10 * |p.code|) && Linkable(p.code, eh, b)
            && ProbesOk(b.items, AllProbes(u)) && Original(p.code, eh) == p
            && (forall a :: 0 <= a < |b.items| && b.items[a].Probe? ==> 2 <= |b.items[a].body| <= 5)
  {
    hide Load, Canonical, Rewrite, SetupOk, ErasesTo, UniqueIds, Anchored, Unbroken, Instrumentable, Nameable, BodiesOk, InRange, Tables, ProbesOk;
    var p := Input(m, u);
    var eh := InputClauses(m, u);
    var b := Output(m, u);
    LoadedOk(m);
    CanonicalTables(p.code);
    RewriteInv(p.code, eh, m.maxStack, u);
    NonEmpty(p.code, eh);
    RewriteBodies(p.code, eh, m.maxStack, u);
    BodiesAreProbes(u, 10 * |p.code|, b.items);
    InvInRange(p.code, b.items);
    ClausesInRange(p.code, eh);
    forall k | 0 <= k < |p.eh| ensures OriginalRegion(eh[k]) == p.eh[k] {
      FilterZero(p.code, p.eh[k]);
    }
    assert Original(p.code, eh).eh == p.eh;
    forall k | 0 <= k < |eh| ensures Where(b.items, b.eh[k].handlerEnd) < |b.items| {
      assert ClauseKept(b.items, eh[k], b.eh[k]);
    }
  }

  lemma {:induction false} FilterZero(c: Code, r: Region)
    requires Nameable(c, r)
    ensures !r.isFilter ==> r.filter == 0
  {
  }

  function StoreAll(c: Code, eh: seq<Region>): (r: seq<OffsetClause>)
    requires forall k :: 0 <= k < |eh| ==> Nameable(c, eh[k])
    ensures |r| == |eh|
  {
    seq(|eh|, k requires 0 <= k < |eh| && Nameable(c, eh[k]) => StoreClause(c, eh[k]))
  }

  /** Linked clauses name entries that Import can find again. */
  lemma {:induction false} LinkedNameable(orig: Code, eh: seq<Clause>, b: Body, u: Setup, limit: nat, k: nat)
    requires Ready(orig, eh, b, u, limit) && Linkable(orig, eh, b) && k < |eh|
    requires Nameable(orig, OriginalRegion(eh[k]))
    ensures Nameable(Linked(orig, b.items), LinkClause(|orig|, b.items, b.eh[k]))
  {
    hide SetupOk, BodiesOk, Place, Rank, Where, PlaceOf, Tables, Canonical, Linked, Unbroken, UniqueIds;
    var c := Linked(orig, b.items);
    assert ClauseKept(b.items, eh[k], b.eh[k]);
    AnchorNoTable(orig, b.items, u, limit, eh[k].tryBegin);
    AnchorNoTable(orig, b.items, u, limit, eh[k].tryEnd);
    AnchorNoTable(orig, b.items, u, limit, eh[k].handlerBegin);
    if eh[k].isFilter {
      AnchorNoTable(orig, b.items, u, limit, eh[k].filter);
    } else {
      LinkedCanonical(orig, eh, b, u, limit);
      FirstNoTable(c);
    }
    var a := Where(b.items, b.eh[k].handlerEnd) + 1;
    LinkedLength(orig, b.items);
    if a < |b.items| {
      if b.items[a].Keep? {
        KeepRank(orig, b.items, a);
      }
      StartsNoTable(orig, b.items, u, limit, a);
    }
  }

  lemma {:induction false} WidenedNameable(c: Code, d: Code, r: Region)
    requires Widens(c, d) && Nameable(c, r)
    ensures Nameable(d, r)
  {
    forall p | 0 <= p < |c| ensures d[p].op == SWITCH_ARG ==> c[p].op == SWITCH_ARG {
      assert SameOrLonger(c[p], d[p]);
    }
  }

  /** The list as a program, before branches are laid out. */
  ghost function Woven(m: MethodBody, u: Setup): Program
    requires Acceptable(m, u)
  {
    OutputReady(m, u);
    Spliced(Input(m, u).code, Output(m, u))
  }

  lemma {:induction false} WovenIs(m: MethodBody, u: Setup)
    requires Acceptable(m, u) && Linkable(Input(m, u).code, InputClauses(m, u), Output(m, u))
    ensures Woven(m, u) == Spliced(Input(m, u).code, Output(m, u))
    ensures Woven(m, u).code == Linked(Input(m, u).code, Output(m, u).items)
    ensures |Woven(m, u).eh| == |InputClauses(m, u)|
  {
    hide Input, InputClauses, Output, Inv, InRange, Linked, LinkClause;
  }

  lemma {:induction false} WovenCanonical(m: MethodBody, u: Setup)
    requires Acceptable(m, u)
    ensures Canonical(Woven(m, u).code) && WellFormed(Woven(m, u).code)
  {
    hide Acceptable, Input, InputClauses, Output, Ready, Linkable, ProbesOk, Canonical, Woven;
    OutputReady(m, u);
    WovenIs(m, u);
    LinkedCanonical(Input(m, u).code, InputClauses(m, u), Output(m, u), u, 10 * |Input(m, u).code|);
    CanonicalWellFormed(Woven(m, u).code);
  }

  /** The program the exported bytes stand for. */
  ghost function Exported(m: MethodBody, u: Setup): Program
    requires Acceptable(m, u)
  {
    WovenCanonical(m, u);
    Program(Relax(Woven(m, u).code), Woven(m, u).eh)
  }

  lemma {:induction false} ExportedOk(m: MethodBody, u: Setup)
    requires Acceptable(m, u)
    ensures var d := Exported(m, u);
            && Canonical(d.code) && WellFormed(d.code) && Consistent(d.code) && Widens(Woven(m, u).code, d.code)
            && d.eh == Woven(m, u).eh
  {
    hide Acceptable, Woven, Canonical, Widens, Relax;
    WovenCanonical(m, u);
    RelaxIsConsistent(Woven(m, u).code);
    WidenedCanonical(Woven(m, u).code, Relax(Woven(m, u).code));
  }

  lemma {:induction false} InputNameable(m: MethodBody, u: Setup, k: nat)
    requires Acceptable(m, u) && k < |InputClauses(m, u)|
    requires Original(Input(m, u).code, InputClauses(m, u)) == Input(m, u)
    ensures Nameable(Input(m, u).code, OriginalRegion(InputClauses(m, u)[k]))
  {
    hide Canonical, Nameable, Instrumentable, SetupOk;
    LoadedOk(m);
    assert Original(Input(m, u).code, InputClauses(m, u)).eh[k] == OriginalRegion(InputClauses(m, u)[k]);
  }

  lemma {:induction false} ExportedClauses(m: MethodBody, u: Setup)
    requires Acceptable(m, u)
    ensures forall k :: 0 <= k < |Exported(m, u).eh| ==> Nameable(Exported(m, u).code, Exported(m, u).eh[k])
  {
    hide Acceptable, Input, InputClauses, Output, Ready, ProbesOk, Canonical, Consistent, Woven, Exported, Inv, Linked, LinkClause, Nameable, InRange;
    OutputReady(m, u);
    WovenIs(m, u);
    ExportedOk(m, u);
    var p, eh, b := Input(m, u), InputClauses(m, u), Output(m, u);
    var q, d := Woven(m, u), Exported(m, u);
    forall k | 0 <= k < |d.eh| ensures Nameable(d.code, d.eh[k]) {
      InputNameable(m, u, k);
      LinkedNameable(p.code, eh, b, u, 10 * |p.code|, k);
      WidenedNameable(q.code, d.code, q.eh[k]);
    }
  }

  /** What RewriteIL gives to the runtime. */
  ghost function RewriteIL(m: MethodBody, u: Setup): MethodBody
    requires Acceptable(m, u)
  {
    ExportedOk(m, u);
    ExportedClauses(m, u);
    var d := Exported(m, u);
    MethodBody(Encode(d.code, |d.code|), StoreAll(d.code, d.eh), Output(m, u).maxStack)
  }

  /** A stored program loads as itself. */
  lemma {:induction false} StoredLoads(d: Program, maxStack: nat)
    requires WellFormed(d.code) && Exportable(d.code) && forall k :: 0 <= k < |d.eh| ==> Nameable(d.code, d.eh[k])
    ensures Load(MethodBody(Encode(d.code, |d.code|), StoreAll(d.code, d.eh), maxStack)) == Some(d)
  {
    hide Exportable, Nameable, LoadClause, Parse, Offset, StoreClause;
    var r := MethodBody(Encode(d.code, |d.code|), StoreAll(d.code, d.eh), maxStack);
    ImportOfExport(d.code);
    StoredParses(d.code, r.il);
    forall k | 0 <= k < |r.eh| ensures LoadClause(RawsOf(d.code, 0), |r.il|, r.eh[k]) == Some(d.eh[k]) {
      LoadOfStore(d.code, d.eh[k]);
    }
    assert Load(r).value.eh == d.eh;
  }

  lemma {:induction false} StoredParses(c: Code, il: seq<byte>)
    requires WellFormed(c) && Exportable(c) && il == Encode(c, |c|)
    ensures Parse(il, 0) == Some(RawsOf(c, 0)) && |il| == Offset(c, |c|)
  {
    hide Parse, RawsOf, Exportable;
    if c != [] {
      assert Canonical(c) by { CanonicalOf(c); }
      FirstNoTable(c);
    }
    ParseOfEncode(c, il, 0);
  }

  /** A bound on the size of the input that keeps all displacements within four bytes. */
  predicate Compact(p: Program) {
    10 * (21 * |p.code| + 5 * |p.eh| + 5) < 0x8000_0000
  }

  lemma {:induction false} ExportedSmall(m: MethodBody, u: Setup)
    requires Acceptable(m, u) && Compact(Input(m, u))
    ensures Small(Exported(m, u).code)
  {
    hide Acceptable, Input, InputClauses, Ready, ProbesOk, Canonical, Woven, Exported, Inv, Consistent, Widens, Rewrite, Instrumentable;
    OutputReady(m, u);
    WovenIs(m, u);
    ExportedOk(m, u);
    AcceptedNonEmpty(m, u);
    AcceptedInstrumentable(m, u);
    RewriteGrows(Input(m, u).code, InputClauses(m, u), m.maxStack, u);
    LinkedLength(Input(m, u).code, Output(m, u).items);
    assert |InputClauses(m, u)| == |Input(m, u).eh| by { SameClauseCount(m, u); }
    assert |Exported(m, u).code| == |Woven(m, u).code| by { WidensLength(Woven(m, u).code, Exported(m, u).code); }
  }

  lemma {:induction false} WidensLength(c: Code, d: Code)
    requires Widens(c, d)
    ensures |c| == |d|
  {
  }

  lemma {:induction false} SameClauseCount(m: MethodBody, u: Setup)
    requires Acceptable(m, u)
    ensures |InputClauses(m, u)| == |Input(m, u).eh|
  {
  }

  lemma {:induction false} AcceptedInstrumentable(m: MethodBody, u: Setup)
    requires Acceptable(m, u)
    ensures Instrumentable(Input(m, u).code, InputClauses(m, u))
  {
  }

  /** The rewritten bytes load as the laid-out list with its clauses. */
  lemma {:induction false} RewrittenLoads(m: MethodBody, u: Setup)
    requires Acceptable(m, u) && Compact(Input(m, u))
    ensures Load(RewriteIL(m, u)) == Some(Exported(m, u))
  {
    hide Acceptable, Canonical, Consistent, Nameable, Widens, Load, Exported, Input, StoreAll, Encode, Small;
    ExportedOk(m, u);
    ExportedClauses(m, u);
    ExportedSmall(m, u);
    IsExportable(Exported(m, u).code);
    StoredLoads(Exported(m, u), Output(m, u).maxStack);
  }

  lemma {:induction false} IsExportable(c: Code)
    requires WellFormed(c) && Canonical(c) && Consistent(c) && Small(c)
    ensures Exportable(c)
  {
  }

  /** Position j of the rewritten program carries instruction i of the original one,
      up to the width of its branch; behind the end both are. */
  ghost predicate SameInstr(items: seq<Item>, p: Program, i: nat, q: Program, j: nat) {
    if i < |p.code| then
      j < |q.code| && Holds(items, i, j) && SameOrLonger(p.code[i].(target := 0), q.code[j].(target := 0))
    else j >= |q.code|
  }

  /** The exceptions and leaves under way started at the same instructions. */
  ghost predicate SameNotes(items: seq<Item>, p: Program, ps: seq<nat>, q: Program, qs: seq<nat>) {
    |ps| == |qs| && forall k :: 0 <= k < |ps| ==> SameInstr(items, p, ps[k], q, qs[k])
  }

  /** Same point of the same computation: both ended or both at the same
      instruction, with the same exceptions and leaves under way, the same stack
      and the same world. */
  ghost predicate SamePoint<W>(items: seq<Item>, p: Program, c: Conf<W>, q: Program, d: Conf<W>) {
    && c.s == d.s && (c.Ended? <==> d.Ended?)
    && (c.At? && d.At? ==> SameInstr(items, p, c.pc, q, d.pc) && SameNotes(items, p, c.pending, q, d.pending))
  }

  /** The rewritten run is at that point or, the same exceptions and leaves being
      under way, in a probe or nop in front of it with at most extra more values on
      top of the stack. */
  ghost predicate Following<W>(items: seq<Item>, p: Program, c: Conf<W>, q: Program, d: Conf<W>, extra: nat) {
    && (c.Ended? <==> d.Ended?) && d.s.world == c.s.world
    && c.s.stack <= d.s.stack && |d.s.stack| <= |c.s.stack| + extra
    && (c.At? && d.At? ==> SameNotes(items, p, c.pending, q, d.pending))
    && (OnItsOwn(items, d) ==> SamePoint(items, p, c, q, d))
  }

  lemma {:induction false} HeldInstr(m: MethodBody, u: Setup, a: nat)
    requires Acceptable(m, u) && a < |Output(m, u).items| && Output(m, u).items[a].Keep?
    ensures SameInstr(Output(m, u).items, Input(m, u), Output(m, u).items[a].i, Exported(m, u), Place(Output(m, u).items, a))
  {
    hide Acceptable, Canonical, Place, Consistent, ProbesOk, Input, Output, Woven, Exported, InputClauses, Linked, Inv, PlaceOf, HasTarget;
    OutputReady(m, u);
    WovenIs(m, u);
    ExportedOk(m, u);
    var p, b := Input(m, u), Output(m, u);
    EmitKeep(p.code, b.items, a);
    HoldsHere(b.items, a);
    assert SameOrLonger(Woven(m, u).code[Place(b.items, a)], Exported(m, u).code[Place(b.items, a)]);
  }

  lemma {:induction false} HeldNotes(m: MethodBody, u: Setup, ps: seq<nat>, qs: seq<nat>)
    requires Acceptable(m, u) && SamePending(Output(m, u).items, ps, qs)
    ensures SameNotes(Output(m, u).items, Input(m, u), ps, Exported(m, u), qs)
  {
    hide Acceptable, Input, Output, Exported, SameInstr;
    var items := Output(m, u).items;
    forall k | 0 <= k < |ps| ensures SameInstr(items, Input(m, u), ps[k], Exported(m, u), qs[k]) {
      assert Holds(items, ps[k], qs[k]);
      var a :| 0 <= a < |items| && items[a].Keep? && items[a].i == ps[k] && Place(items, a) == qs[k];
      HeldInstr(m, u, a);
    }
  }

  lemma {:induction false} ExportedLength(m: MethodBody, u: Setup)
    requires Acceptable(m, u)
    ensures |Exported(m, u).code| == Place(Output(m, u).items, |Output(m, u).items|)
    ensures ErasesTo(Input(m, u).code, Output(m, u).items)
  {
    hide Acceptable, Canonical, Place, Consistent, ProbesOk, Input, Output, Woven, Exported, InputClauses, Linked, Widens;
    OutputReady(m, u);
    WovenIs(m, u);
    ExportedOk(m, u);
    LinkedLength(Input(m, u).code, Output(m, u).items);
    WidensLength(Woven(m, u).code, Exported(m, u).code);
  }

  lemma {:induction false} ExactlySamePoint<W>(m: MethodBody, u: Setup, c: Conf<W>, d: Conf<W>)
    requires Acceptable(m, u) && Exactly(Output(m, u).items, c, d)
    ensures SamePoint(Output(m, u).items, Input(m, u), c, Exported(m, u), d)
  {
    hide Acceptable, Rank, Place, Input, Output, Exported, SamePending, SameNotes, Holds;
    var items := Output(m, u).items;
    ExportedLength(m, u);
    if c.At? {
      var a: nat :| OnTheWay(items, a, 0, c, d) && (a == |items| || items[a].Keep?);
      WayState(Input(m, u).code, items, a, c, d);
      HeldNotes(m, u, c.pending, d.pending);
      if a < |items| {
        HeldInstr(m, u, a);
        KeepsInRange(Input(m, u).code, items, a);
      }
    }
  }

  lemma {:induction false} RelatedFollowing<W>(m: MethodBody, u: Setup, c: Conf<W>, d: Conf<W>)
    requires Acceptable(m, u) && Related(Output(m, u).items, c, d)
    ensures Following(Output(m, u).items, Input(m, u), c, Exported(m, u), d, 4)
  {
    hide Acceptable, Input, Output, Exported, SamePending, SameNotes, SamePoint, Related, Ready, Linkable, Exactly, OnItsOwn;
    OutputReady(m, u);
    RelatedDepth(Output(m, u).items, c, d, 4);
    ExactlyIsOwn(Output(m, u).items, AllProbes(u), c, d);
    if c.At? && d.At? {
      HeldNotes(m, u, c.pending, d.pending);
    }
    if OnItsOwn(Output(m, u).items, d) {
      ExactlySamePoint(m, u, c, d);
    }
  }

  /** The program the rewritten bytes stand for. */
  ghost function Rewritten(m: MethodBody, u: Setup): Program
    requires Acceptable(m, u) && Compact(Input(m, u))
  {
    RewrittenLoads(m, u);
    Load(RewriteIL(m, u)).value
  }

  lemma {:induction false} RewrittenRun<W(!new)>(m: MethodBody, u: Setup, sem: Semantics<W>, s: State<W>, k: nat)
    requires Acceptable(m, u) && Compact(Input(m, u)) && Sound(sem, AllProbes(u))
    ensures Rewritten(m, u) == Exported(m, u) && Run(Rewritten(m, u), sem, Begin(s), k) == Run(Woven(m, u), sem, Begin(s), k)
    ensures OwnSteps(Output(m, u).items, Rewritten(m, u), sem, Begin(s), k) == OwnSteps(Output(m, u).items, Woven(m, u), sem, Begin(s), k)
  {
    hide Acceptable, Canonical, Consistent, Sound, RewriteIL, Exported, Woven, Output, Input, Compact, Run, OnItsOwn;
    ExportedOk(m, u);
    RewrittenLoads(m, u);
    var q, d := Woven(m, u), Exported(m, u);
    assert d == Program(d.code, q.eh) && q == Program(q.code, q.eh);
    WidenedRun(sem, AllProbes(u), q.code, d.code, q.eh, Begin(s), k);
    if k > 0 {
      RewrittenRun(m, u, sem, s, k - 1);
    }
  }

  /** Every state of the original method's run, through finally handlers, filters and
      catch handlers too, is a state of the rewritten method's run, reached after the
      same number of original instructions. */
  lemma {:induction false} RewrittenDoesAll<W(!new)>(m: MethodBody, u: Setup, sem: Semantics<W>, s: State<W>, n: nat) returns (k: nat)
    requires Acceptable(m, u) && Compact(Input(m, u)) && Sound(sem, AllProbes(u))
    ensures OwnSteps(Output(m, u).items, Rewritten(m, u), sem, Begin(s), k) == n
    ensures SamePoint(Output(m, u).items, Input(m, u), Run(Input(m, u), sem, Begin(s), n),
                      Rewritten(m, u), Run(Rewritten(m, u), sem, Begin(s), k))
  {
    hide Acceptable, Compact, Sound, Rewritten, Exported, SamePoint, Exactly, Woven, Output, Input, InputClauses, Ready, Linkable, ProbesOk, Run, OwnSteps;
    k := WovenDoesAll(m, u, sem, s, n);
    RewrittenRun(m, u, sem, s, k);
    ExactlySamePoint(m, u, Run(Input(m, u), sem, Begin(s), n), Run(Woven(m, u), sem, Begin(s), k));
  }

  lemma {:induction false} WovenDoesAll<W(!new)>(m: MethodBody, u: Setup, sem: Semantics<W>, s: State<W>, n: nat) returns (k: nat)
    requires Acceptable(m, u) && Sound(sem, AllProbes(u))
    ensures OwnSteps(Output(m, u).items, Woven(m, u), sem, Begin(s), k) == n
    ensures Exactly(Output(m, u).items, Run(Input(m, u), sem, Begin(s), n), Run(Woven(m, u), sem, Begin(s), k))
  {
    hide Acceptable, Input, Output, InputClauses, ProbesOk, Sound, Exactly, Woven, Original, Linked, LinkClause, Inv, OwnSteps, Run;
    OutputReady(m, u);
    WovenIs(m, u);
    k := OriginalFollowsSpliced(Input(m, u).code, InputClauses(m, u), Output(m, u), sem, AllProbes(u), s, n);
  }

  lemma {:induction false} WovenDoesNoMore<W(!new)>(m: MethodBody, u: Setup, sem: Semantics<W>, s: State<W>, k: nat)
    requires Acceptable(m, u) && Sound(sem, AllProbes(u))
    ensures Related(Output(m, u).items, Run(Input(m, u), sem, Begin(s), OwnSteps(Output(m, u).items, Woven(m, u), sem, Begin(s), k)),
                    Run(Woven(m, u), sem, Begin(s), k))
  {
    hide Acceptable, Input, Output, InputClauses, ProbesOk, Sound, Related, Woven, Original, Linked, LinkClause, Inv, OwnSteps, Run;
    OutputReady(m, u);
    WovenIs(m, u);
    SplicedFollowsOriginal(Input(m, u).code, InputClauses(m, u), Output(m, u), sem, AllProbes(u), s, k);
  }

  /** Conversely the rewritten run does nothing else: after any k steps it follows the
      original run after as many steps as there were original instructions among them,
      a number that grows by one with each of these and stays the same in probes and nops. */
  lemma {:induction false} RewrittenDoesNoMore<W(!new)>(m: MethodBody, u: Setup, sem: Semantics<W>, s: State<W>, k: nat)
    requires Acceptable(m, u) && Compact(Input(m, u)) && Sound(sem, AllProbes(u))
    ensures var n := OwnSteps(Output(m, u).items, Rewritten(m, u), sem, Begin(s), k);
            Following(Output(m, u).items, Input(m, u), Run(Input(m, u), sem, Begin(s), n),
                      Rewritten(m, u), Run(Rewritten(m, u), sem, Begin(s), k), 4)
    ensures OwnSteps(Output(m, u).items, Rewritten(m, u), sem, Begin(s), k + 1)
            == OwnSteps(Output(m, u).items, Rewritten(m, u), sem, Begin(s), k)
               + if OnItsOwn(Output(m, u).items, Run(Rewritten(m, u), sem, Begin(s), k)) then 1 else 0
  {
    hide Acceptable, Compact, Sound, Rewritten, Exported, Following, Related, Woven, Output, Input, Run, OnItsOwn;
    WovenDoesNoMore(m, u, sem, s, k);
    RewrittenRun(m, u, sem, s, k);
    var n := OwnSteps(Output(m, u).items, Woven(m, u), sem, Begin(s), k);
    RelatedFollowing(m, u, Run(Input(m, u), sem, Begin(s), n), Run(Woven(m, u), sem, Begin(s), k));
  }

  // ----- the stack limit -----

  lemma {:induction false} ApplyAllStack(orig: Code, b: Body, es: seq<Edit>)
    ensures ApplyAll(orig, b, es).maxStack >= b.maxStack
    decreases |es|
  {
    hide Where, EditPushes;
    if es != [] {
      if Where(b.items, es[0].id) >= |b.items| {
        ApplyAllStack(orig, b, es[1..]);
      } else {
        ApplyAllStack(orig, Apply(orig, b, es[0]), es[1..]);
      }
    }
  }

  lemma {:induction false} OutputStack(m: MethodBody, u: Setup)
    requires Acceptable(m, u)
    ensures Output(m, u).maxStack >= m.maxStack + 5
  {
    hide Acceptable, Input, InputClauses, ApplyAll, Insertions, Splits, Offset;
    var orig, eh := Input(m, u).code, InputClauses(m, u);
    assert |orig| > 0 by { AcceptedNonEmpty(m, u); }
    var es := Splits(orig, 0) + EditsOf(u, Insertions(orig, u, eh));
    ApplyAllStack(orig, Imported(orig, eh, m.maxStack), es);
    EnterPushes(NodeOffset(orig, 0), u.methodId, u.Enter());
  }

  lemma {:induction false} AcceptedNonEmpty(m: MethodBody, u: Setup)
    requires Acceptable(m, u)
    ensures |Input(m, u).code| > 0
  {
  }

  /** If the original method keeps within its stack limit, so does the rewritten
      one within the limit it is given, inside probes too. */
  lemma {:induction false} RewrittenStackBound<W(!new)>(m: MethodBody, u: Setup, sem: Semantics<W>, s: State<W>, k: nat)
    requires Acceptable(m, u) && Compact(Input(m, u)) && Sound(sem, AllProbes(u))
    requires forall n: nat :: |Run(Input(m, u), sem, Begin(s), n).s.stack| <= m.maxStack
    ensures |Run(Rewritten(m, u), sem, Begin(s), k).s.stack| <= RewriteIL(m, u).maxStack
  {
    hide Acceptable, Compact, Sound, Exported, Run, Input, Output, Rewritten, OwnSteps, OnItsOwn, SamePoint, SameNotes;
    RewrittenDoesNoMore(m, u, sem, s, k);
    OutputStack(m, u);
  }
}
