/** Runs of a method body under an arbitrary instruction semantics, and the
    proof that the spliced body and the original one simulate each other. */
module Machine {
  import opened Opcodes
  import opened Layout
  import opened Splice
  import opened Linking

  /** What the running method can observe: its evaluation stack and everything else. */
  datatype State<W> = State(stack: seq<int>, world: W)

  /** What an instruction decides about control. Besides falling through, jumping and
      choosing an arm of a switch it can enter the handler or the filter of an
      exception clause. What is entered belongs to an exception or a leave that
      starts here, or to one that is still under way; forget counts those that are
      over then. Resume ends a finally handler by going where its leave led. */
  datatype Control =
    | Fall
    | Jump
    | Arm(k: nat)
    | Handle(clause: nat, filter: bool, here: bool, forget: nat)
    | Resume
    | Stop

  type Semantics<!W> = (nat, int, State<W>) -> (Control, State<W>)

  datatype Program = Program(code: Code, eh: seq<Region>)

  /** A running method: where it is, and the instructions whose exception or leave
      is still under way, the innermost last. */
  datatype Conf<W> = At(pc: nat, pending: seq<nat>, s: State<W>) | Ended(s: State<W>)

  function Begin<W>(s: State<W>): Conf<W> { At(0, [], s) }

  /** Where control goes; Leave when the method is left. */
  datatype Next = Leave | Goto(pc: nat, pending: seq<nat>)

  function Entries(e: Instr): nat {
    if e.op == SWITCH && e.arg >= 0 then 1 + e.arg else 1
  }

  predicate Covers(r: Region, pc: nat) {
    r.tryBegin <= pc < r.tryEnd
  }

  /** A clause may be entered if its try range covers the instruction concerned. */
  predicate MayEnter(p: Program, d: Control, noted: seq<nat>)
    requires d.Handle?
  {
    && noted != [] && d.forget <= |noted| && d.clause < |p.eh|
    && Covers(p.eh[d.clause], noted[|noted| - 1]) && (d.filter ==> p.eh[d.clause].isFilter)
  }

  function Noted(pc: nat, pending: seq<nat>, d: Control): seq<nat>
    requires d.Handle?
  {
    if d.here then pending + [pc] else pending
  }

  function Successor(p: Program, pc: nat, pending: seq<nat>, d: Control): Next
    requires pc < |p.code|
  {
    var e := p.code[pc];
    match d
    case Fall => Goto(pc + Entries(e), pending)
    case Jump => if HasTarget(e.op) then Goto(e.target, pending) else Leave
    case Arm(k) =>
      if e.op == SWITCH && k < e.arg && pc + 1 + k < |p.code| then Goto(p.code[pc + 1 + k].target, pending) else Leave
    case Handle(c, filter, _, forget) =>
      var noted := Noted(pc, pending, d);
      if !MayEnter(p, d, noted) then Leave
      else Goto(if filter then p.eh[c].filter else p.eh[c].handlerBegin, noted[..|noted| - forget])
    case Resume =>
      if pending == [] then Leave else
      var n := |pending| - 1;
      if pending[n] < |p.code| && HasTarget(p.code[pending[n]].op) then Goto(p.code[pending[n]].target, pending[..n]) else Leave
    case Stop => Leave
  }

  function Step<W>(p: Program, sem: Semantics<W>, c: Conf<W>): Conf<W> {
    if c.Ended? || c.pc >= |p.code| then Ended(c.s)
    else
      var (d, s) := sem(p.code[c.pc].op, p.code[c.pc].arg, c.s);
      match Successor(p, c.pc, c.pending, d)
      case Goto(pc, pending) => At(pc, pending, s)
      case Leave => Ended(s)
  }

  function Run<W>(p: Program, sem: Semantics<W>, c: Conf<W>, n: nat): Conf<W>
    decreases n
  {
    if n == 0 then c else Step(p, sem, Run(p, sem, c, n - 1))
  }

  function Push<W>(s: State<W>, v: int): State<W> {
    s.(stack := s.stack + [v])
  }

  /** What is assumed of instructions, by opcode: nop (0x00) does nothing, ldc.i4 (0x20),
      ldc.i4.0 (0x16) and ldc.i8 (0x21) push their constant, a probe called by calli
      (0x29) pops its arguments and address and has no effect the method can see, and
      br to blt.un (0x38 to 0x44) and leave (0xDD) mean what br.s to blt.un.s (0x2B to
      0x37) and leave.s (0xDE) mean. */
  ghost predicate Sound<W(!new)>(sem: Semantics<W>, probes: set<ProbeCall>) {
    && (forall a, s :: sem(0x00, a, s) == (Fall, s))
    && (forall a, s :: sem(0x20, a, s) == (Fall, Push(s, a)))
    && (forall a, s :: sem(0x16, a, s) == (Fall, Push(s, 0)))
    && (forall a, s :: sem(0x21, a, s) == (Fall, Push(s, a)))
    && (forall p, s: State<W>, args: seq<int> {:trigger State(s.stack + args + [p.addr], s.world)} :: p in probes && |args| == p.arity ==>
          sem(0x29, p.sig, State(s.stack + args + [p.addr], s.world)) == (Fall, s))
    && (forall op: nat, a, s :: 0x2B <= op <= 0x37 ==> sem(op + 13, a, s) == sem(op, a, s))
    && (forall a, s :: sem(0xDD, a, s) == sem(0xDE, a, s))
  }

  /** A probe pushes its arguments and its address, then calls. */
  predicate ProbeShape(body: seq<Instr>, probes: set<ProbeCall>) {
    && |body| >= 2
    && (forall j :: 0 <= j < |body| - 1 ==>
          body[j].op == LDC_I4 || body[j].op == LDC_I8 || (body[j].op == LDC_I4_0 && body[j].arg == 0))
    && body[|body| - 1].op == CALLI
    && exists p :: p in probes && body[|body| - 1].arg == p.sig && body[|body| - 2].arg == p.addr
                   && p.arity == |body| - 2
  }

  ghost predicate ProbesOk(items: seq<Item>, probes: set<ProbeCall>) {
    forall a :: 0 <= a < |items| && items[a].Probe? ==> ProbeShape(items[a].body, probes)
  }

  function Pushed(body: seq<Instr>, k: nat): (vs: seq<int>)
    requires k <= |body|
    ensures |vs| == k
  {
    seq(k, j requires 0 <= j < k => body[j].arg)
  }

  /** The state inside an item after k of its instructions. */
  function Midway<W>(x: Item, k: nat, s: State<W>): State<W>
    requires k < Len(x)
  {
    if x.Probe? then s.(stack := s.stack + Pushed(x.body, k)) else s
  }

  // ----- the simulation relation -----

  /** Position q of the spliced list carries original instruction i. */
  ghost predicate Holds(items: seq<Item>, i: nat, q: nat) {
    exists a :: 0 <= a < |items| && items[a].Keep? && items[a].i == i && Place(items, a) == q
  }

  /** The same exceptions and leaves are under way. */
  ghost predicate SamePending(items: seq<Item>, ps: seq<nat>, qs: seq<nat>) {
    |ps| == |qs| && forall j :: 0 <= j < |ps| ==> Holds(items, ps[j], qs[j])
  }

  /** The spliced run d is k nodes into item a, on its way to the original
      instruction Rank(a) that the original run c is at. */
  ghost predicate OnTheWay<W>(items: seq<Item>, a: nat, k: nat, c: Conf<W>, d: Conf<W>) {
    && c.At? && d.At? && a <= |items|
    && (if a == |items| then k == 0 else k < Len(items[a]))
    && Rank(items, a) == c.pc && d.pc == Place(items, a) + k
    && d.s == (if a == |items| then c.s else Midway(items[a], k, c.s))
    && SamePending(items, c.pending, d.pending)
  }

  ghost predicate Related<W>(items: seq<Item>, c: Conf<W>, d: Conf<W>) {
    match c
    case Ended(_) => d == c
    case At(_, _, _) => exists a: nat, k: nat :: OnTheWay(items, a, k, c, d)
  }

  /** The position carries an original instruction or is the end of the code. */
  ghost predicate Own(items: seq<Item>, q: nat) {
    exists a :: 0 <= a <= |items| && Place(items, a) == q && (a == |items| || items[a].Keep?)
  }

  /** The run is not inside inserted nodes. */
  ghost predicate OnItsOwn<W>(items: seq<Item>, d: Conf<W>) {
    d.At? ==> Own(items, d.pc)
  }

  /** The spliced run is exactly at the node that carries the instruction the original run is at. */
  ghost predicate Exactly<W>(items: seq<Item>, c: Conf<W>, d: Conf<W>) {
    match c
    case Ended(_) => d == c
    case At(_, _, _) => exists a: nat :: OnTheWay(items, a, 0, c, d) && (a == |items| || items[a].Keep?)
  }

  /** Original instructions among the first k steps of the spliced run. */
  ghost function OwnSteps<W>(items: seq<Item>, q: Program, sem: Semantics<W>, c: Conf<W>, k: nat): (n: nat)
    ensures n <= k
  {
    if k == 0 then 0
    else OwnSteps(items, q, sem, c, k - 1) + if OnItsOwn(items, Run(q, sem, c, k - 1)) then 1 else 0
  }

  function Original(orig: Code, eh: seq<Clause>): Program {
    Program(orig, seq(|eh|, k requires 0 <= k < |eh| => OriginalRegion(eh[k])))
  }

  ghost predicate Linkable(orig: Code, eh: seq<Clause>, b: Body) {
    && Inv(orig, eh, b) && InRange(orig, b.items) && |b.eh| == |eh|
    && (forall k :: 0 <= k < |eh| ==> ClauseInRange(|orig|, eh[k]) && Where(b.items, b.eh[k].handlerEnd) < |b.items|)
  }

  function Spliced(orig: Code, b: Body): Program
    requires InRange(orig, b.items)
    requires forall k :: 0 <= k < |b.eh| ==> Where(b.items, b.eh[k].handlerEnd) < |b.items|
  {
    Program(Linked(orig, b.items),
            seq(|b.eh|, k requires 0 <= k < |b.eh| => LinkClause(|orig|, b.items, b.eh[k])))
  }

  /** The switch tables of the original list, and targets inside the list. */
  predicate Tables(orig: Code) {
    && WellFormed(orig)
    && (forall i :: 0 <= i < |orig| && orig[i].op == SWITCH ==> 0 <= orig[i].arg < |orig| - i)
    && (forall i, j :: 0 <= i < |orig| && orig[i].op == SWITCH && i < j <= i + orig[i].arg ==> orig[j].op == SWITCH_ARG)
  }

  // ----- stepping over inserted nodes -----

  lemma {:induction false} ProbeStep<W(!new)>(sem: Semantics<W>, probes: set<ProbeCall>, x: Item, k: nat, s: State<W>)
    requires Sound(sem, probes) && x.Probe? && ProbeShape(x.body, probes) && k < Len(x)
    ensures sem(x.body[k].op, x.body[k].arg, Midway(x, k, s))
            == (Fall, if k + 1 < Len(x) then Midway(x, k + 1, s) else s)
  {
    var n := |x.body| - 1;
    if k < n {
      assert s.stack + Pushed(x.body, k) + [x.body[k].arg] == s.stack + Pushed(x.body, k + 1);
    } else {
      var p :| p in probes && x.body[n].arg == p.sig && x.body[n - 1].arg == p.addr && p.arity == n - 1;
      var args := Pushed(x.body, n - 1);
      assert s.stack + Pushed(x.body, n) == s.stack + args + [p.addr];
      assert Midway(x, n, s) == State(s.stack + args + [p.addr], s.world);
    }
  }

  /** One step inside inserted nodes leaves the original run where it is. */
  lemma {:induction false} InsertedStep<W(!new)>(orig: Code, eh: seq<Clause>, b: Body, sem: Semantics<W>, probes: set<ProbeCall>,
                                                a: nat, k: nat, c: Conf<W>, d: Conf<W>)
    requires Linkable(orig, eh, b) && Sound(sem, probes) && ProbesOk(b.items, probes)
    requires OnTheWay(b.items, a, k, c, d) && a < |b.items| && !b.items[a].Keep?
    ensures var d' := Step(Spliced(orig, b), sem, d);
            d.pc < |Linked(orig, b.items)|
            && if k + 1 < Len(b.items[a]) then OnTheWay(b.items, a, k + 1, c, d')
               else OnTheWay(b.items, a + 1, 0, c, d')
  {
    hide Inv, Where, LinkClause, PlaceOf, ProbeShape, SamePending;
    var s := c.s;
    var q := Spliced(orig, b);
    var x := b.items[a];
    EmitAt(orig, b.items, |b.items|, a, k);
    assert q.code[d.pc] == EmitItem(orig, b.items, x)[k];
    if x.Probe? {
      ProbeStep(sem, probes, x, k, s);
      assert q.code[d.pc].op != SWITCH by { ProbeHasNoSwitch(x.body, probes, k); }
    }
    if k + 1 == Len(x) && a + 1 < |b.items| {
      if b.items[a + 1].Probe? {
        ProbeNonEmpty(b.items[a + 1].body, probes);
      }
      MidwayStart(b.items[a + 1], s);
    }
  }

  lemma {:induction false} ProbeHasNoSwitch(body: seq<Instr>, probes: set<ProbeCall>, k: nat)
    requires ProbeShape(body, probes) && k < |body|
    ensures body[k].op != SWITCH
  {
    if k < |body| - 1 {
      assert body[k].op == LDC_I4 || body[k].op == LDC_I8 || body[k].op == LDC_I4_0;
    }
  }

  lemma {:induction false} ProbeNonEmpty(body: seq<Instr>, probes: set<ProbeCall>)
    requires ProbeShape(body, probes)
    ensures |body| >= 2
  {
  }

  lemma {:induction false} MidwayStart<W>(x: Item, s: State<W>)
    requires 0 < Len(x)
    ensures Midway(x, 0, s) == s
  {
    if x.Probe? {
      assert s.stack + Pushed(x.body, 0) == s.stack;
    }
  }

  // ----- stepping through original instructions -----

  lemma {:induction false} Landing<W>(items: seq<Item>, probes: set<ProbeCall>, a: nat, ps: seq<nat>, qs: seq<nat>, s: State<W>)
    requires ProbesOk(items, probes) && a <= |items| && SamePending(items, ps, qs)
    ensures OnTheWay(items, a, 0, At(Rank(items, a), ps, s), At(Place(items, a), qs, s))
  {
    hide SamePending;
    if a < |items| {
      MidwayStart(items[a], s);
    }
  }

  /** Entering at an original node leads to its instruction. */
  lemma {:induction false} LandsAt<W>(orig: Code, items: seq<Item>, probes: set<ProbeCall>, id: nat, ps: seq<nat>, qs: seq<nat>, s: State<W>)
    requires ErasesTo(orig, items) && Anchored(orig, items) && ProbesOk(items, probes) && id <= |orig| && SamePending(items, ps, qs)
    ensures Related(items, At(id, ps, s), At(PlaceOf(|orig|, items, id), qs, s))
  {
    hide SamePending;
    var a := if id == |orig| then |items| else Where(items, id);
    assert id < |orig| ==> AnchoredAt(items, id);
    Landing(items, probes, a, ps, qs, s);
  }

  /** The table of a switch stays glued to it. */
  lemma {:induction false} TableFollows(orig: Code, items: seq<Item>, a: nat, k: nat)
    requires ErasesTo(orig, items) && Unbroken(orig, items) && InRange(orig, items) && Tables(orig)
    requires a < |items| && items[a].Keep? && orig[items[a].i].op == SWITCH && k <= orig[items[a].i].arg
    ensures a + k < |items| && items[a + k].Keep? && items[a + k].i == items[a].i + k
    ensures Place(items, a + k + 1) == Place(items, a) + k + 1 && Rank(items, a + k + 1) == items[a].i + k + 1
  {
    hide Tables, Unbroken, ErasesTo;
    KeepRank(orig, items, a);
    if k > 0 {
      TableFollows(orig, items, a, k - 1);
      TableEntry(orig, items[a].i, k);
      var c := KeepOf(orig, items, items[a].i + k);
      KeepRank(orig, items, c);
      TablePredecessor(orig, items, c);
      KeepUnique(orig, items, c - 1, a + k - 1);
    }
  }

  lemma {:induction false} KeepRank(orig: Code, items: seq<Item>, a: nat)
    requires ErasesTo(orig, items) && a < |items| && items[a].Keep?
    ensures items[a].i == Rank(items, a)
  {
  }

  lemma {:induction false} TableEntry(orig: Code, i: nat, k: nat)
    requires Tables(orig) && i < |orig| && orig[i].op == SWITCH && 0 < k <= orig[i].arg
    ensures i + k < |orig| && orig[i + k].op == SWITCH_ARG
  {
  }

  lemma {:induction false} TablePredecessor(orig: Code, items: seq<Item>, c: nat)
    requires ErasesTo(orig, items) && Unbroken(orig, items)
    requires c < |items| && items[c].Keep? && items[c].i < |orig| && orig[items[c].i].op == SWITCH_ARG
    ensures c > 0 && items[c - 1].Keep? && items[c - 1].i == items[c].i - 1
  {
  }

  lemma {:induction false} KeepUnique(orig: Code, items: seq<Item>, a: nat, c: nat)
    requires ErasesTo(orig, items) && a < |items| && c < |items|
    requires items[a].Keep? && items[c].Keep? && items[a].i == items[c].i
    ensures a == c
  {
    if a < c {
      RankMonotone(items, a + 1, c);
    } else if c < a {
      RankMonotone(items, c + 1, a);
    }
  }

  lemma {:induction false} KeepOf(orig: Code, items: seq<Item>, i: nat) returns (a: nat)
    requires ErasesTo(orig, items) && i < |orig|
    ensures a < |items| && items[a].Keep? && items[a].i == i
  {
    a := FindRank(items, |items|, i);
  }

  lemma {:induction false} FindRank(items: seq<Item>, n: nat, i: nat) returns (a: nat)
    requires n <= |items| && i < Rank(items, n)
    ensures a < n && items[a].Keep? && Rank(items, a) == i
  {
    if i < Rank(items, n - 1) {
      a := FindRank(items, n - 1, i);
    } else {
      a := n - 1;
    }
  }

  lemma {:induction false} FallsTo<W>(orig: Code, items: seq<Item>, probes: set<ProbeCall>, a: nat, ps: seq<nat>, qs: seq<nat>, s: State<W>)
    requires ErasesTo(orig, items) && Unbroken(orig, items) && InRange(orig, items) && Tables(orig)
    requires ProbesOk(items, probes) && a < |items| && items[a].Keep? && SamePending(items, ps, qs)
    ensures Related(items, At(items[a].i + Entries(orig[items[a].i]), ps, s),
                           At(Place(items, a) + Entries(orig[items[a].i]), qs, s))
  {
    hide ProbesOk, Unbroken, OnTheWay, SamePending;
    var e := orig[items[a].i];
    var n := Entries(e);
    if e.op == SWITCH {
      TableFollows(orig, items, a, e.arg);
    }
    assert a + n <= |items| && Place(items, a + n) == Place(items, a) + n && Rank(items, a + n) == items[a].i + n;
    Landing(items, probes, a + n, ps, qs, s);
  }

  lemma {:induction false} ProbesOkNonEmpty(items: seq<Item>, probes: set<ProbeCall>)
    requires ProbesOk(items, probes)
    ensures ProbesNonEmpty(items)
  {
  }

  /** Both programs go on alike from the node that carries instruction i. */
  ghost predicate SameWay<W>(orig: Code, eh: seq<Clause>, b: Body, a: nat, d: Control, ps: seq<nat>, qs: seq<nat>, s: State<W>)
    requires Linkable(orig, eh, b) && a < |b.items| && b.items[a].Keep?
  {
    && Place(b.items, a) < |Linked(orig, b.items)|
    && var was, now := Successor(Original(orig, eh), b.items[a].i, ps, d), Successor(Spliced(orig, b), Place(b.items, a), qs, d);
       if was.Leave? then now.Leave? else now.Goto? && Related(b.items, At(was.pc, was.pending, s), At(now.pc, now.pending, s))
  }

  lemma {:induction false} HoldsHere(items: seq<Item>, a: nat)
    requires a < |items| && items[a].Keep?
    ensures Holds(items, items[a].i, Place(items, a))
  {
  }

  lemma {:induction false} PendingMore(items: seq<Item>, ps: seq<nat>, qs: seq<nat>, i: nat, q: nat)
    requires SamePending(items, ps, qs) && Holds(items, i, q)
    ensures SamePending(items, ps + [i], qs + [q])
  {
    hide Holds;
  }

  lemma {:induction false} PendingLess(items: seq<Item>, ps: seq<nat>, qs: seq<nat>, n: nat)
    requires SamePending(items, ps, qs) && n <= |ps|
    ensures |ps| == |qs| && SamePending(items, ps[..n], qs[..n])
  {
    hide Holds;
  }

  lemma {:induction false} PendingLast(items: seq<Item>, ps: seq<nat>, qs: seq<nat>) returns (a: nat)
    requires SamePending(items, ps, qs) && ps != []
    ensures |qs| == |ps| && a < |items| && items[a].Keep? && items[a].i == ps[|ps| - 1] && Place(items, a) == qs[|qs| - 1]
  {
    assert Holds(items, ps[|ps| - 1], qs[|ps| - 1]);
    a :| 0 <= a < |items| && items[a].Keep? && items[a].i == ps[|ps| - 1] && Place(items, a) == qs[|ps| - 1];
  }

  /** The clauses that may be entered are the same on both sides. */
  lemma {:induction false} SameClause(orig: Code, eh: seq<Clause>, b: Body, probes: set<ProbeCall>, d: Control, ps: seq<nat>, qs: seq<nat>)
    requires Linkable(orig, eh, b) && ProbesOk(b.items, probes) && d.Handle? && SamePending(b.items, ps, qs)
    ensures MayEnter(Original(orig, eh), d, ps) <==> MayEnter(Spliced(orig, b), d, qs)
    ensures MayEnter(Original(orig, eh), d, ps) ==> SameBounds(eh[d.clause], b.eh[d.clause])
  {
    hide Rank, Where, ProbesOk, PlaceOf, Linked, ProbesNonEmpty, ClauseKept, SamePending;
    var c := d.clause;
    assert |ps| == |qs| by { PendingLess(b.items, ps, qs, 0); }
    if ps != [] && c < |eh| {
      var a := PendingLast(b.items, ps, qs);
      ProbesOkNonEmpty(b.items, probes);
      ClauseCoverage(orig, eh, b, c, a);
      assert ClauseKept(b.items, eh[c], b.eh[c]);
      KeptBounds(b.items, eh[c], b.eh[c]);
      assert Original(orig, eh).eh[c] == OriginalRegion(eh[c]) && Spliced(orig, b).eh[c] == LinkClause(|orig|, b.items, b.eh[c]);
    }
  }

  lemma {:induction false} SameEntry<W>(orig: Code, eh: seq<Clause>, b: Body, probes: set<ProbeCall>,
                                       a: nat, d: Control, ps: seq<nat>, qs: seq<nat>, s: State<W>)
    requires Linkable(orig, eh, b) && ProbesOk(b.items, probes)
    requires a < |b.items| && b.items[a].Keep? && SamePending(b.items, ps, qs) && d.Handle?
    ensures SameWay(orig, eh, b, a, d, ps, qs, s)
  {
    hide Inv, OnTheWay, ProbesOk, PlaceOf, Linked, SamePending, Related, MayEnter, LinkClause, Place;
    EmittedSwitch(orig, b.items, a);
    var i, q := b.items[a].i, Place(b.items, a);
    HoldsHere(b.items, a);
    PendingMore(b.items, ps, qs, i, q);
    var ps', qs' := Noted(i, ps, d), Noted(q, qs, d);
    SameClause(orig, eh, b, probes, d, ps', qs');
    if MayEnter(Original(orig, eh), d, ps') {
      MayForget(Original(orig, eh), d, ps');
      var n := |ps'| - d.forget;
      PendingLess(b.items, ps', qs', n);
      ClauseLands(orig, eh, b, probes, d.clause, d.filter, ps'[..n], qs'[..n], s);
    }
  }

  /** Handler and filter of a clause start at the same original instruction. */
  lemma {:induction false} ClauseLands<W>(orig: Code, eh: seq<Clause>, b: Body, probes: set<ProbeCall>, c: nat, filter: bool,
                                         ps: seq<nat>, qs: seq<nat>, s: State<W>)
    requires Linkable(orig, eh, b) && ProbesOk(b.items, probes) && c < |eh| && SameBounds(eh[c], b.eh[c]) && SamePending(b.items, ps, qs)
    requires filter ==> eh[c].isFilter
    ensures var was, now := Original(orig, eh).eh[c], Spliced(orig, b).eh[c];
      Related(b.items, At(if filter then was.filter else was.handlerBegin, ps, s), At(if filter then now.filter else now.handlerBegin, qs, s))
  {
    hide Rank, Where, ProbesOk, PlaceOf, Linked, SamePending, Related, ErasesTo, Anchored, UniqueIds, Unbroken, ClauseKept;
    LandsAt(orig, b.items, probes, if filter then eh[c].filter else eh[c].handlerBegin, ps, qs, s);
    assert Original(orig, eh).eh[c] == OriginalRegion(eh[c]) && Spliced(orig, b).eh[c] == LinkClause(|orig|, b.items, b.eh[c]);
  }

  lemma {:induction false} MayForget(p: Program, d: Control, noted: seq<nat>)
    requires d.Handle? && MayEnter(p, d, noted)
    ensures d.forget <= |noted| && d.clause < |p.eh| && (d.filter ==> p.eh[d.clause].isFilter)
  {
  }

  /** A leave taken up again leads where the original one leads. */
  lemma {:induction false} SameResumption<W>(orig: Code, eh: seq<Clause>, b: Body, probes: set<ProbeCall>,
                                            a: nat, ps: seq<nat>, qs: seq<nat>, s: State<W>)
    requires Linkable(orig, eh, b) && ProbesOk(b.items, probes) && WellFormed(orig)
    requires a < |b.items| && b.items[a].Keep? && SamePending(b.items, ps, qs)
    ensures SameWay(orig, eh, b, a, Resume, ps, qs, s)
  {
    hide Rank, Where, OnTheWay, ProbesOk, PlaceOf, SamePending, Related, ErasesTo, Anchored, UniqueIds, Unbroken, ClauseKept;
    EmitAt(orig, b.items, |b.items|, a, 0);
    PendingLess(b.items, ps, qs, 0);
    if ps != [] {
      var n := |ps| - 1;
      var o := PendingLast(b.items, ps, qs);
      EmitAt(orig, b.items, |b.items|, o, 0);
      PendingLess(b.items, ps, qs, n);
      LandsAt(orig, b.items, probes, orig[ps[n]].target, ps[..n], qs[..n], s);
    }
  }

  predicate SameBounds(was: Clause, now: Clause) {
    now == was.(handlerEnd := now.handlerEnd)
  }

  lemma {:induction false} KeptBounds(items: seq<Item>, was: Clause, now: Clause)
    requires ClauseKept(items, was, now)
    ensures SameBounds(was, now)
  {
  }

  lemma {:induction false} SameFall<W>(orig: Code, eh: seq<Clause>, b: Body, probes: set<ProbeCall>, a: nat, ps: seq<nat>, qs: seq<nat>, s: State<W>)
    requires Linkable(orig, eh, b) && ProbesOk(b.items, probes) && Tables(orig)
    requires a < |b.items| && b.items[a].Keep? && SamePending(b.items, ps, qs)
    ensures SameWay(orig, eh, b, a, Fall, ps, qs, s)
  {
    hide Rank, Where, Related, ProbesOk, PlaceOf, Unbroken, Anchored, UniqueIds, ErasesTo, ClauseKept, SamePending, Tables, HasTarget;
    EmitAt(orig, b.items, |b.items|, a, 0);
    FallsTo(orig, b.items, probes, a, ps, qs, s);
  }

  lemma {:induction false} SameTarget<W>(orig: Code, eh: seq<Clause>, b: Body, probes: set<ProbeCall>, a: nat, ps: seq<nat>, qs: seq<nat>, s: State<W>)
    requires Linkable(orig, eh, b) && ProbesOk(b.items, probes) && WellFormed(orig)
    requires a < |b.items| && b.items[a].Keep? && SamePending(b.items, ps, qs)
    ensures SameWay(orig, eh, b, a, Jump, ps, qs, s)
  {
    hide Rank, Where, Related, ProbesOk, PlaceOf, Unbroken, Anchored, UniqueIds, ErasesTo, ClauseKept, SamePending, HasTarget, Known;
    EmitAt(orig, b.items, |b.items|, a, 0);
    LandsAt(orig, b.items, probes, orig[b.items[a].i].target, ps, qs, s);
  }

  lemma {:induction false} SameArmTaken<W>(orig: Code, eh: seq<Clause>, b: Body, probes: set<ProbeCall>, a: nat, k: nat, ps: seq<nat>, qs: seq<nat>, s: State<W>)
    requires Linkable(orig, eh, b) && ProbesOk(b.items, probes) && Tables(orig) && WellFormed(orig)
    requires a < |b.items| && b.items[a].Keep? && SamePending(b.items, ps, qs)
    ensures SameWay(orig, eh, b, a, Arm(k), ps, qs, s)
  {
    hide Rank, Where, Related, ProbesOk, PlaceOf, Unbroken, Anchored, UniqueIds, ErasesTo, ClauseKept, SamePending, HasTarget, Known, Tables, Linked;
    var i := b.items[a].i;
    EmittedSwitch(orig, b.items, a);
    if orig[i].op == SWITCH && k < orig[i].arg {
      SameArm(orig, b.items, a, k);
      LandsAt(orig, b.items, probes, orig[i + 1 + k].target, ps, qs, s);
    }
  }

  lemma {:induction false} EmittedSwitch(orig: Code, items: seq<Item>, a: nat)
    requires InRange(orig, items) && a < |items| && items[a].Keep?
    ensures Place(items, a) < |Linked(orig, items)|
    ensures Linked(orig, items)[Place(items, a)].op == orig[items[a].i].op && Linked(orig, items)[Place(items, a)].arg == orig[items[a].i].arg
  {
    EmitAt(orig, items, |items|, a, 0);
  }

  lemma {:induction false} SameJump<W>(orig: Code, eh: seq<Clause>, b: Body, probes: set<ProbeCall>,
                                      a: nat, d: Control, ps: seq<nat>, qs: seq<nat>, s: State<W>)
    requires Linkable(orig, eh, b) && ProbesOk(b.items, probes) && Tables(orig) && WellFormed(orig)
    requires a < |b.items| && b.items[a].Keep? && SamePending(b.items, ps, qs)
    requires d.Fall? || d.Jump? || d.Arm? || d.Stop?
    ensures SameWay(orig, eh, b, a, d, ps, qs, s)
  {
    hide Inv, Related, ProbesOk, SamePending, Tables, WellFormed, Linked;
    EmittedSwitch(orig, b.items, a);
    match d
    case Fall => SameFall(orig, eh, b, probes, a, ps, qs, s);
    case Jump => SameTarget(orig, eh, b, probes, a, ps, qs, s);
    case Arm(k) => SameArmTaken(orig, eh, b, probes, a, k, ps, qs, s);
    case Stop =>
  }

  lemma {:induction false} SameArm(orig: Code, items: seq<Item>, a: nat, k: nat)
    requires ErasesTo(orig, items) && Unbroken(orig, items) && InRange(orig, items) && Tables(orig)
    requires a < |items| && items[a].Keep? && orig[items[a].i].op == SWITCH && k < orig[items[a].i].arg
    ensures items[a].i + 1 + k < |orig| && Place(items, a) + 1 + k < |Linked(orig, items)|
    ensures Linked(orig, items)[Place(items, a) + 1 + k].target == PlaceOf(|orig|, items, orig[items[a].i + 1 + k].target)
  {
    hide Tables, Unbroken, ErasesTo, PlaceOf, Rank;
    TableFollows(orig, items, a, k);
    TableFollows(orig, items, a, k + 1);
    TableEntry(orig, items[a].i, k + 1);
    EmitAt(orig, items, |items|, a + k + 1, 0);
  }

  /** At an original instruction both runs take the same step. */
  lemma {:induction false} KeptStep<W(!new)>(orig: Code, eh: seq<Clause>, b: Body, sem: Semantics<W>, probes: set<ProbeCall>,
                                            a: nat, c: Conf<W>, d: Conf<W>)
    requires Linkable(orig, eh, b) && ProbesOk(b.items, probes) && Tables(orig)
    requires OnTheWay(b.items, a, 0, c, d) && (a == |b.items| || b.items[a].Keep?)
    ensures Related(b.items, Step(Original(orig, eh), sem, c), Step(Spliced(orig, b), sem, d))
  {
    hide Rank, Where, OnTheWay, ProbesOk, PlaceOf, Successor, Tables, SamePending;
    WayState(orig, b.items, a, c, d);
    TablesFormed(orig);
    if a < |b.items| {
      EmitAt(orig, b.items, |b.items|, a, 0);
      var (x, s) := sem(orig[c.pc].op, orig[c.pc].arg, c.s);
      if x.Handle? {
        SameEntry(orig, eh, b, probes, a, x, c.pending, d.pending, s);
      } else if x.Resume? {
        SameResumption(orig, eh, b, probes, a, c.pending, d.pending, s);
      } else {
        SameJump(orig, eh, b, probes, a, x, c.pending, d.pending, s);
      }
    }
  }

  lemma {:induction false} TablesFormed(orig: Code)
    requires Tables(orig)
    ensures WellFormed(orig)
  {
  }

  lemma {:induction false} WayState<W>(orig: Code, items: seq<Item>, a: nat, c: Conf<W>, d: Conf<W>)
    requires ErasesTo(orig, items) && OnTheWay(items, a, 0, c, d) && (a == |items| || items[a].Keep?)
    ensures a <= |items| && c.At? && d == At(Place(items, a), d.pending, c.s) && c.pc == (if a == |items| then |orig| else items[a].i)
    ensures SamePending(items, c.pending, d.pending)
  {
  }

  // ----- whole runs -----

  /** A position belongs to one item only. */
  lemma {:induction false} NotOwn(items: seq<Item>, probes: set<ProbeCall>, a: nat, k: nat)
    requires ProbesOk(items, probes) && a < |items| && !items[a].Keep? && k < Len(items[a])
    ensures !Own(items, Place(items, a) + k)
  {
    hide ProbeShape;
    ProbesOkNonEmpty(items, probes);
    forall e: nat | e <= |items| && (e == |items| || items[e].Keep?) ensures Place(items, e) != Place(items, a) + k {
      if e <= a {
        PlaceMonotone(items, e + 1, a);
        NextPlace(items, e);
      } else {
        NextPlace(items, a);
        PlaceMonotone(items, a + 1, e);
      }
    }
  }

  lemma {:induction false} NextPlace(items: seq<Item>, a: nat)
    requires a < |items|
    ensures Place(items, a + 1) == Place(items, a) + Len(items[a])
  {
  }

  /** Being at the node of the original instruction is being outside inserted nodes. */
  lemma {:induction false} ExactlyIsOwn<W>(items: seq<Item>, probes: set<ProbeCall>, c: Conf<W>, d: Conf<W>)
    requires ProbesOk(items, probes) && Related(items, c, d)
    ensures Exactly(items, c, d) <==> OnItsOwn(items, d)
  {
    hide ProbesOk, Rank, Place, Own, SamePending;
    if c.At? {
      var a: nat, k: nat :| OnTheWay(items, a, k, c, d);
      if a == |items| || items[a].Keep? {
        assert OnTheWay(items, a, 0, c, d);
        IsOwn(items, a);
      } else {
        NotOwn(items, probes, a, k);
        if Exactly(items, c, d) {
          var e: nat :| OnTheWay(items, e, 0, c, d) && (e == |items| || items[e].Keep?);
          IsOwn(items, e);
        }
      }
    }
  }

  lemma {:induction false} IsOwn(items: seq<Item>, a: nat)
    requires a <= |items| && (a == |items| || items[a].Keep?)
    ensures Own(items, Place(items, a))
  {
  }

  /** Every step of the spliced run is a step of the original run or a step over
      inserted nodes, and the latter cannot go on forever. */
  lemma {:induction false} StepRelated<W(!new)>(orig: Code, eh: seq<Clause>, b: Body, sem: Semantics<W>, probes: set<ProbeCall>,
                                               c: Conf<W>, d: Conf<W>)
    requires Linkable(orig, eh, b) && Sound(sem, probes) && ProbesOk(b.items, probes) && Tables(orig)
    requires Related(b.items, c, d)
    ensures var d' := Step(Spliced(orig, b), sem, d);
            if OnItsOwn(b.items, d) then Related(b.items, Step(Original(orig, eh), sem, c), d')
            else Related(b.items, c, d') && d.At? && d'.At? && d.pc < |Linked(orig, b.items)| && d'.pc == d.pc + 1
  {
    hide Inv, Rank, Where, ProbesOk, PlaceOf, Tables, Sound, Place, Linked, Own, SamePending;
    match c
    case Ended(s) =>
      assert Step(Spliced(orig, b), sem, d) == d;
    case At(_, _, _) =>
      var a: nat, k: nat :| OnTheWay(b.items, a, k, c, d);
      if a == |b.items| || b.items[a].Keep? {
        KeptStep(orig, eh, b, sem, probes, a, c, d);
        IsOwn(b.items, a);
      } else {
        InsertedStep(orig, eh, b, sem, probes, a, k, c, d);
        NotOwn(b.items, probes, a, k);
        var d' := Step(Spliced(orig, b), sem, d);
        if k + 1 < Len(b.items[a]) {
          assert OnTheWay(b.items, a, k + 1, c, d');
        } else {
          assert OnTheWay(b.items, a + 1, 0, c, d');
          NextPlace(b.items, a);
        }
      }
  }

  lemma {:induction false} StartRelated<W>(items: seq<Item>, probes: set<ProbeCall>, s: State<W>)
    requires ProbesOk(items, probes)
    ensures Related(items, Begin(s), Begin(s))
  {
    Landing(items, probes, 0, [], [], s);
    assert Rank(items, 0) == 0 && Place(items, 0) == 0;
  }

  /** After any number of steps the spliced run is where the original run is after
      as many steps as original instructions were executed, or on its way there
      through probes and nops. */
  lemma {:induction false} SplicedFollowsOriginal<W(!new)>(orig: Code, eh: seq<Clause>, b: Body, sem: Semantics<W>,
                                                          probes: set<ProbeCall>, s: State<W>, k: nat)
    requires Linkable(orig, eh, b) && Sound(sem, probes) && ProbesOk(b.items, probes) && Tables(orig)
    ensures var n := OwnSteps(b.items, Spliced(orig, b), sem, Begin(s), k);
            Related(b.items, Run(Original(orig, eh), sem, Begin(s), n), Run(Spliced(orig, b), sem, Begin(s), k))
  {
    hide Inv, Sound, ProbesOk, Tables, Related, Step, OnItsOwn;
    if k == 0 {
      StartRelated(b.items, probes, s);
    } else {
      SplicedFollowsOriginal(orig, eh, b, sem, probes, s, k - 1);
      var q := Spliced(orig, b);
      var n := OwnSteps(b.items, q, sem, Begin(s), k - 1);
      StepRelated(orig, eh, b, sem, probes, Run(Original(orig, eh), sem, Begin(s), n), Run(q, sem, Begin(s), k - 1));
    }
  }

  /** From any point the spliced run gets to the next original instruction. */
  lemma {:induction false} CatchUp<W(!new)>(orig: Code, eh: seq<Clause>, b: Body, sem: Semantics<W>, probes: set<ProbeCall>,
                                           s: State<W>, c: Conf<W>, k: nat) returns (k': nat)
    requires Linkable(orig, eh, b) && Sound(sem, probes) && ProbesOk(b.items, probes) && Tables(orig)
    requires Related(b.items, c, Run(Spliced(orig, b), sem, Begin(s), k))
    ensures k <= k' && OnItsOwn(b.items, Run(Spliced(orig, b), sem, Begin(s), k'))
    ensures OwnSteps(b.items, Spliced(orig, b), sem, Begin(s), k') == OwnSteps(b.items, Spliced(orig, b), sem, Begin(s), k)
    decreases var d := Run(Spliced(orig, b), sem, Begin(s), k);
              if d.At? && d.pc <= |Linked(orig, b.items)| then 1 + |Linked(orig, b.items)| - d.pc else 0
  {
    hide Inv, Sound, ProbesOk, Tables, Related, OnItsOwn, Step;
    var d := Run(Spliced(orig, b), sem, Begin(s), k);
    if OnItsOwn(b.items, d) {
      k' := k;
    } else {
      StepRelated(orig, eh, b, sem, probes, c, d);
      k' := CatchUp(orig, eh, b, sem, probes, s, c, k + 1);
    }
  }

  /** Each state of the original run is reached by the spliced run, with the same
      evaluation stack and the same world, after as many original instructions. */
  lemma {:induction false} OriginalFollowsSpliced<W(!new)>(orig: Code, eh: seq<Clause>, b: Body, sem: Semantics<W>,
                                                          probes: set<ProbeCall>, s: State<W>, n: nat) returns (k: nat)
    requires Linkable(orig, eh, b) && Sound(sem, probes) && ProbesOk(b.items, probes) && Tables(orig)
    ensures OwnSteps(b.items, Spliced(orig, b), sem, Begin(s), k) == n
    ensures Exactly(b.items, Run(Original(orig, eh), sem, Begin(s), n), Run(Spliced(orig, b), sem, Begin(s), k))
  {
    hide Inv, Sound, ProbesOk, Tables, Related, Exactly, Step, OnItsOwn;
    var q := Spliced(orig, b);
    if n == 0 {
      StartRelated(b.items, probes, s);
      k := CatchUp(orig, eh, b, sem, probes, s, Begin(s), 0);
    } else {
      k := OriginalFollowsSpliced(orig, eh, b, sem, probes, s, n - 1);
      var c, d := Run(Original(orig, eh), sem, Begin(s), n - 1), Run(q, sem, Begin(s), k);
      ExactlyIsRelated(b.items, c, d);
      ExactlyIsOwn(b.items, probes, c, d);
      StepRelated(orig, eh, b, sem, probes, c, d);
      k := CatchUp(orig, eh, b, sem, probes, s, Step(Original(orig, eh), sem, c), k + 1);
    }
    SplicedFollowsOriginal(orig, eh, b, sem, probes, s, k);
    ExactlyIsOwn(b.items, probes, Run(Original(orig, eh), sem, Begin(s), n), Run(q, sem, Begin(s), k));
  }

  lemma {:induction false} ExactlyIsRelated<W>(items: seq<Item>, c: Conf<W>, d: Conf<W>)
    requires Exactly(items, c, d)
    ensures Related(items, c, d)
  {
  }

  /** Inside a probe the stack holds the constants pushed so far more; the run has
      ended exactly if the original one has, and as many exceptions and leaves are
      under way. */
  lemma {:induction false} RelatedDepth<W>(items: seq<Item>, c: Conf<W>, d: Conf<W>, extra: nat)
    requires Related(items, c, d)
    requires forall a :: 0 <= a < |items| && items[a].Probe? ==> |items[a].body| <= extra + 1
    ensures c.s.stack <= d.s.stack && |d.s.stack| <= |c.s.stack| + extra && d.s.world == c.s.world
    ensures c.Ended? <==> d.Ended?
    ensures c.At? && d.At? ==> SamePending(items, c.pending, d.pending)
  {
    hide Rank, Place, SamePending;
    if c.At? {
      var a: nat, k: nat :| OnTheWay(items, a, k, c, d);
    }
  }
}
