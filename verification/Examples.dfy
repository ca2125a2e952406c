/** Methods and semantics that meet the assumptions of the theorems on rewriting. */
module Examples {
  import opened Wrappers
  import opened Opcodes
  import opened Layout
  import opened Bytes
  import opened Codec
  import opened Splice
  import opened Linking
  import opened Machine
  import opened Rewriting
  import opened Pipeline
  import opened Meaning

  const TWO := ProbeCall(1, 1, 2)
  const THREE := ProbeCall(2, 2, 3)

  const SETUP := Setup(Probes(TWO, TWO, TWO, THREE, THREE, TWO, TWO, TWO, TWO, TWO), 7, false)

  /** A switch with two arms, a try block whose leave goes through a finally handler,
      and a tail call. */
  const CODE: Code := [
    Instr(LDC_I4_0, 0, 0),
    Instr(SWITCH, 2, 0),
    Instr(SWITCH_ARG, 0, 4),
    Instr(SWITCH_ARG, 0, 5),
    Instr(NOP, 0, 0),
    Instr(LEAVE, 0, 8),
    Instr(NOP, 0, 0),
    Instr(ENDFINALLY, 0, 0),
    Instr(TAILCALL, 0, 0),
    Instr(CALL, 1, 0),
    Instr(RET, 0, 0)]

  const FINALLY := Region(2, 4, 6, 6, 8, false, 0, 0)

  const PROGRAM := Program(CODE, [FINALLY])

  lemma {:induction false} Operands()
    ensures !HasTarget(LDC_I4_0) && !HasTarget(SWITCH) && !HasTarget(NOP) && !HasTarget(ENDFINALLY) && !HasTarget(TAILCALL)
            && !HasTarget(CALL) && !HasTarget(RET) && HasTarget(SWITCH_ARG) && HasTarget(LEAVE)
    ensures OperandLength(LDC_I4_0) == 0 && OperandLength(SWITCH) == 4 && OperandLength(NOP) == 0 && OperandLength(ENDFINALLY) == 0
            && OperandLength(TAILCALL) == 0 && OperandLength(CALL) == 4 && OperandLength(RET) == 0
  {
  }

  lemma {:induction false} CodeEntry(i: nat)
    requires i < |CODE|
    ensures EntryCanonical(CODE, i) && Known(CODE[i].op) && CODE[i].target <= |CODE| && !IsShortBranch(CODE[i].op)
  {
    hide OperandSize, Fits, HasTarget, OperandLength;
    Operands();
    SmallFits(1);
    SmallFits(2);
    FitsZero();
    assert CODE[4].op != SWITCH_ARG;
  }

  lemma {:induction false} CodeExportable()
    ensures WellFormed(CODE) && Exportable(CODE)
  {
    hide EntryCanonical, Known, Offset;
    forall i | 0 <= i < |CODE|
      ensures EntryCanonical(CODE, i) && Known(CODE[i].op) && CODE[i].target <= |CODE| && !IsShortBranch(CODE[i].op)
    {
      CodeEntry(i);
    }
  }

  ghost function Example(): MethodBody {
    CodeExportable();
    MethodBody(Encode(CODE, |CODE|), StoreAll(CODE, [FINALLY]), 8)
  }

  lemma {:induction false} ExampleLoads()
    ensures Load(Example()) == Some(PROGRAM)
  {
    hide Exportable, WellFormed, Load, Encode;
    CodeExportable();
    assert Nameable(CODE, FINALLY);
    StoredLoads(PROGRAM, 8);
  }

  lemma {:induction false} PrefixesFit(i: nat)
    requires i < |CODE|
    ensures PrefixOk(CODE, i) && TableOk(CODE, i)
  {
  }

  lemma {:induction false} CodeInstrumentable(eh: seq<Clause>)
    requires eh == ClausesOf([FINALLY])
    ensures Instrumentable(CODE, eh)
  {
    hide PrefixOk, TableOk, HasTarget, Exportable, Glued;
    CodeExportable();
    forall i | 0 <= i < |CODE| ensures PrefixOk(CODE, i) && TableOk(CODE, i) {
      PrefixesFit(i);
    }
    forall i | 0 <= i < |CODE| && HasTarget(CODE[i].op) ensures TargetOk(CODE, CODE[i].target) {
      Operands();
    }
    assert eh == [ClauseOf(FINALLY)];
    assert !Glued(CODE, 6) by { NotGlued(); }
  }

  lemma {:induction false} NotGlued()
    ensures !Glued(CODE, 6)
  {
  }

  lemma {:induction false} SmallFits(v: nat)
    requires v < 128
    ensures Fits(v, 4) && Fits(v, 8)
  {
    assert Half(1) == 128;
    assert Half(2) == 0x8000 && Half(3) == 0x80_0000 && Half(4) == 0x8000_0000;
    assert Half(5) >= 128 && Half(6) >= 128 && Half(7) >= 128 && Half(8) >= 128;
  }

  lemma {:induction false} SetupIsOk()
    ensures SetupOk(SETUP) && AllProbes(SETUP) == {TWO, THREE}
  {
    hide Fits;
    SmallFits(1);
    SmallFits(2);
    SmallFits(7);
    forall p | p in AllProbes(SETUP) ensures Fits(p.addr, 8) && Fits(p.sig, 4) {
      assert p == TWO || p == THREE;
    }
  }

  /** RewriteIL's assumptions on a method can be met. */
  lemma {:induction false} AcceptableExample()
    ensures Acceptable(Example(), SETUP) && Compact(PROGRAM)
  {
    hide Load, Instrumentable, SetupOk, Example;
    ExampleLoads();
    SetupIsOk();
    CodeInstrumentable(ClausesOf([FINALLY]));
  }

  /** Its leave goes through the finally handler and then on to its target ... */
  lemma {:induction false} ThroughFinally()
    ensures Successor(PROGRAM, 5, [], Handle(0, false, true, 0)) == Goto(6, [5])
    ensures Successor(PROGRAM, 7, [5], Resume) == Goto(8, [])
  {
    hide OperandSize;
    assert Covers(FINALLY, 5);
    assert HasTarget(LEAVE);
  }

  /** ... and in any program a filter that accepts leads to its handler, with what was
      under way before the exception still under way. */
  lemma {:induction false} ThroughFilter(p: Program, pc: nat, end: nat, pending: seq<nat>, c: nat)
    requires pc < |p.code| && end < |p.code| && c < |p.eh| && p.eh[c].isFilter && Covers(p.eh[c], pc)
    ensures Successor(p, pc, pending, Handle(c, true, true, 0)) == Goto(p.eh[c].filter, pending + [pc])
    ensures Successor(p, end, pending + [pc], Handle(c, false, false, 1)) == Goto(p.eh[c].handlerBegin, pending)
  {
    assert (pending + [pc])[..|pending|] == pending && (pending + [pc])[..|pending| + 1] == pending + [pc];
  }

  function Drop(s: State<int>, n: nat): State<int> {
    if n <= |s.stack| then s.(stack := s.stack[..|s.stack| - n]) else s
  }

  /** A machine that knows constants, nops and the two probes. */
  function Tiny(op: nat, arg: int, s: State<int>): (Control, State<int>) {
    if op == NOP then (Fall, s)
    else if op == LDC_I4 || op == LDC_I8 then (Fall, Push(s, arg))
    else if op == LDC_I4_0 then (Fall, Push(s, 0))
    else if op == CALLI && arg == 1 then (Fall, Drop(s, 3))
    else if op == CALLI && arg == 2 then (Fall, Drop(s, 4))
    else (Stop, s)
  }

  /** ... and so can the assumptions on instructions. */
  lemma {:induction false} SoundExample()
    ensures Sound(Tiny, AllProbes(SETUP))
  {
    SetupIsOk();
    forall p, s: State<int>, args: seq<int> {:trigger State(s.stack + args + [p.addr], s.world)} | p in {TWO, THREE} && |args| == p.arity
      ensures Tiny(CALLI, p.sig, State(s.stack + args + [p.addr], s.world)) == (Fall, s)
    {
      var t := State(s.stack + args + [p.addr], s.world);
      assert Drop(t, p.arity + 1).stack == s.stack;
    }
  }
}
