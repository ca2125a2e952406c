/** Import: the decoder builds the linked list and resolves branches to nodes. */
module Importing {
  import opened Wrappers
  import opened Opcodes
  import opened Layout
  import opened Bytes
  import opened Codec
  import opened Splice
  import opened InstrList
  import opened Probing
  import opened Exporting

  /** The nodes decoded so far hold the raw entries, targets still as byte offsets. */
  ghost predicate Decoded(cs: seq<Content>, raws: seq<Raw>) {
    |cs| == |raws| && forall k :: 0 <= k < |cs| ==> cs[k].op == raws[k].op && cs[k].arg == raws[k].arg
  }

  /** The offset table knows the start of every instruction and nothing else. */
  ghost predicate Tabulated(table: seq<ILInstr?>, nodes: seq<ILInstr>, raws: seq<Raw>) {
    |nodes| == |raws| && |table| > 0
    && forall o :: 0 <= o < |table| - 1 ==>
      table[o] == if FindStart(raws, o).Some? then nodes[FindStart(raws, o).value] else null
  }

  lemma {:induction false} FindAppend(raws: seq<Raw>, x: Raw, o: int)
    ensures FindStart(raws + [x], o) == if x.start == o && x.op != SWITCH_ARG then Some(|raws|) else FindStart(raws, o)
  {
    assert (raws + [x])[..|raws|] == raws;
  }

  lemma {:induction false} DecodedMore(cs: seq<Content>, raws: seq<Raw>, x: Content, y: Raw)
    requires Decoded(cs, raws) && x.op == y.op && x.arg == y.arg
    ensures Decoded(cs + [x], raws + [y])
  {
  }

  lemma {:induction false} TabulatedMore(table: seq<ILInstr?>, table': seq<ILInstr?>, nodes: seq<ILInstr>, n: ILInstr, raws: seq<Raw>, x: Raw)
    requires Tabulated(table, nodes, raws) && x.start < |table| - 1
    requires table' == if x.op == SWITCH_ARG then table else table[x.start := n]
    ensures Tabulated(table', nodes + [n], raws + [x])
  {
    forall o | 0 <= o < |table| - 1
      ensures table'[o] == if FindStart(raws + [x], o).Some? then (nodes + [n])[FindStart(raws + [x], o).value] else null
    {
      FindAppend(raws, x, o);
    }
  }

  lemma {:induction false} PushesMore(c: seq<Instr>, x: Instr)
    ensures BodyPushes(c + [x]) == BodyPushes(c) + Pushes(x.op)
    decreases |c|
  {
    if c != [] {
      assert (c + [x])[1..] == c[1..] + [x];
      PushesMore(c[1..], x);
    } else {
      assert (c + [x])[1..] == [];
    }
  }

  function RawPushes(raws: seq<Raw>): nat {
    if raws == [] then 0 else RawPushes(raws[..|raws| - 1]) + Pushes(raws[|raws| - 1].op)
  }

  lemma {:induction false} RawPushesMore(raws: seq<Raw>, x: Raw)
    ensures RawPushes(raws + [x]) == RawPushes(raws) + Pushes(x.op)
  {
    assert (raws + [x])[..|raws|] == raws;
  }

  /** Everything the decoder has built when it has read the entries raws. */
  ghost predicate Built(r: ILRewriter, table: seq<ILInstr?>, stack: nat, raws: seq<Raw>)
    reads r`nodes, r`maxStack, r`nInstrs, r.nodes`op, r.nodes`arg, r.nodes`target
  {
    && Decoded(Contents(r.nodes), raws) && Tabulated(table, r.nodes, raws)
    && r.maxStack == stack + RawPushes(raws) && r.nInstrs == |r.nodes|
  }

  /** One more entry at the end of the list, entered in the table unless it belongs to a switch. */
  method Append(r: ILRewriter, table: array<ILInstr?>, start: nat, op: nat, arg: int, ghost stack: nat, ghost raws: seq<Raw>, ghost x: Raw)
    requires r.Valid() && Built(r, table[..], stack, raws)
    requires x.start == start && x.op == op && x.arg == arg && start < table.Length - 1
    modifies table, r`nodes, r`maxStack, r`nInstrs, r.il`next, r.il`prev, r.nodes`next, r.nodes`prev
    ensures r.Valid() && Built(r, table[..], stack, raws + [x])
    ensures forall k :: 0 <= k < |r.nodes| ==> r.nodes[k] in old(r.nodes) || fresh(r.nodes[k])
    ensures table[table.Length - 1] == old(table[table.Length - 1])
  {
    hide Contents, Pushes, Tabulated, RawPushes, LinkedAt;
    ghost var nodes, t := r.nodes, table[..];
    var n := r.NewILInstr();
    n.op := op;
    n.arg := arg;
    r.InsertBefore(r.il, n, |r.nodes|);
    assert r.nodes == nodes + [n];
    if op != SWITCH_ARG {
      table[start] := n;
      assert table[..] == t[start := n];
    } else {
      assert table[..] == t;
    }
    TabulatedMore(t, table[..], nodes, n, raws, x);
    assert Contents(r.nodes) == old(Contents(r.nodes)) + [ContentOf(n)];
    DecodedMore(old(Contents(r.nodes)), raws, ContentOf(n), x);
    RawPushesMore(raws, x);
  }

  lemma {:induction false} ArmsMore(il: seq<byte>, q: nat, i: nat, base: nat)
    requires q + 4 * (i + 1) <= |il|
    ensures ReadArms(il, q, i + 1, base)
            == ReadArms(il, q, i, base) + [Raw(q + 4 * i, SWITCH_ARG, base + Signed(il[q + 4 * i..q + 4 * i + 4]), base)]
  {
  }

  /** The table of a switch: one entry per arm, or an error where the code ends too early. */
  method ImportArms(r: ILRewriter, table: array<ILInstr?>, il: seq<byte>, q: nat, n: nat, base: nat, ghost stack: nat, ghost raws: seq<Raw>)
    returns (ok: bool)
    requires r.Valid() && Built(r, table[..], stack, raws) && table.Length == |il| + 1 && q <= |il|
    modifies table, r`nodes, r`maxStack, r`nInstrs, r.il`next, r.il`prev, r.nodes`next, r.nodes`prev
    ensures r.Valid() && (ok <==> q + 4 * n <= |il|)
    ensures ok ==> Built(r, table[..], stack, raws + ReadArms(il, q, n, base))
    ensures forall k :: 0 <= k < |r.nodes| ==> r.nodes[k] in old(r.nodes) || fresh(r.nodes[k])
    ensures table[|il|] == old(table[|il|])
  {
    hide ILRewriter.Valid, Built, Signed;
    var i := 0;
    assert raws + ReadArms(il, q, 0, base) == raws;
    while i < n
      invariant 0 <= i <= n && q + 4 * i <= |il|
      invariant r.Valid() && Built(r, table[..], stack, raws + ReadArms(il, q, i, base))
      invariant forall k :: 0 <= k < |r.nodes| ==> r.nodes[k] in old(r.nodes) || fresh(r.nodes[k])
      invariant table[|il|] == old(table[|il|])
    {
      var offset := q + 4 * i;
      if offset + 4 > |il| { return false; }
      var v := Signed(il[offset..offset + 4]);
      ghost var x := Raw(offset, SWITCH_ARG, base + v, base);
      Append(r, table, offset, SWITCH_ARG, base + v, stack, raws + ReadArms(il, q, i, base), x);
      ArmsMore(il, q, i, base);
      assert raws + ReadArms(il, q, i, base) + [x] == raws + ReadArms(il, q, i + 1, base);
      i := i + 1;
    }
    ok := true;
  }

  /** One instruction of the stream, with its table if it is a switch. */
  method ImportInstr(r: ILRewriter, table: array<ILInstr?>, il: seq<byte>, start: nat, op: nat, p: nat, ghost stack: nat, ghost raws: seq<Raw>)
    returns (ok: bool, next: nat)
    requires r.Valid() && Built(r, table[..], stack, raws) && table.Length == |il| + 1
    requires start < p == start + OpcodeLength(op) <= |il| && op < COUNT
    modifies table, r`nodes, r`maxStack, r`nInstrs, r.il`next, r.il`prev, r.nodes`next, r.nodes`prev
    ensures r.Valid() && (ok <==> ReadEntry(il, start, op, p).Some?)
    ensures ok ==> next == ReadEntry(il, start, op, p).value.1 && Built(r, table[..], stack, raws + ReadEntry(il, start, op, p).value.0)
    ensures forall k :: 0 <= k < |r.nodes| ==> r.nodes[k] in old(r.nodes) || fresh(r.nodes[k])
    ensures table[|il|] == old(table[|il|])
  {
    hide ILRewriter.Valid, Built, Signed, OperandSize, HasTarget, OpcodeLength;
    next := p + OperandLength(op);
    if next > |il| { return false, next; }
    var v := Signed(il[p..next]);
    ghost var x := Raw(start, op, if HasTarget(op) then next + v else v, if HasTarget(op) then next else 0);
    if op == SWITCH {
      if v < 0 { return false, next; }
      NoTargetSwitch();
      Append(r, table, start, op, v, stack, raws, x);
      ok := ImportArms(r, table, il, next, v, next + 4 * v, stack, raws + [x]);
      next := next + 4 * v;
      if ok {
        assert raws + [x] + ReadArms(il, p + OperandLength(op), v, next) == raws + ([x] + ReadArms(il, p + OperandLength(op), v, next));
      }
    } else if HasTarget(op) {
      Append(r, table, start, op, next + v, stack, raws, x);
      ok := true;
    } else {
      Append(r, table, start, op, v, stack, raws, x);
      ok := true;
    }
  }

  lemma {:induction false} NoTargetSwitch()
    ensures !HasTarget(SWITCH)
  {
  }

  /** The opcode at an offset: one byte, or two behind the lead byte 0xFE. */
  method ImportOpcode(il: seq<byte>, start: nat) returns (ok: bool, op: nat, next: nat)
    requires start < |il|
    ensures ok <==> ReadOpcode(il, start).Some?
    ensures ok ==> ReadOpcode(il, start) == Some((op, next))
  {
    op, next := il[start], start + 1;
    if op == PREFIX1 {
      if next >= |il| { return false, op, next; }
      op := 0x100 + il[next] as int;
      next := next + 1;
    }
    if PREFIX7 <= op <= PREFIX2 { return false, op, next; }
    if op >= COUNT { return false, op, next; }
    ok := true;
  }

  /** The loop over the stream. */
  method Decode(r: ILRewriter, table: array<ILInstr?>, il: seq<byte>, ghost stack: nat) returns (ok: bool)
    requires r.Valid() && Built(r, table[..], stack, []) && table.Length == |il| + 1
    modifies table, r`nodes, r`maxStack, r`nInstrs, r.il`next, r.il`prev, r.nodes`next, r.nodes`prev
    ensures r.Valid() && (ok <==> Parse(il, 0).Some?)
    ensures ok ==> Built(r, table[..], stack, Parse(il, 0).value)
    ensures forall k :: 0 <= k < |r.nodes| ==> r.nodes[k] in old(r.nodes) || fresh(r.nodes[k])
    ensures table[|il|] == old(table[|il|])
  {
    hide ILRewriter.Valid, Built, ReadEntry, OpcodeLength, OperandLength, ReadOpcode;
    var offset := 0;
    ghost var raws := [];
    ghost var whole := Parse(il, 0);
    PrependNothing(whole);
    while offset < |il|
      invariant 0 <= offset <= |il| && r.Valid() && Built(r, table[..], stack, raws)
      invariant whole == Prepend(raws, Parse(il, offset))
      invariant forall k :: 0 <= k < |r.nodes| ==> r.nodes[k] in old(r.nodes) || fresh(r.nodes[k])
      invariant table[|il|] == old(table[|il|])
      decreases |il| - offset
    {
      var start := offset;
      var more, op;
      more, op, offset := ImportOpcode(il, start);
      if !more { return false; }
      ghost var p := offset;
      more, offset := ImportInstr(r, table, il, start, op, offset, stack, raws);
      if !more { return false; }
      ghost var head := ReadEntry(il, start, op, p).value.0;
      PrependMore(raws, head, Parse(il, offset));
      raws := raws + head;
    }
    ok := true;
    PrependNone(raws);
  }

  lemma {:induction false} PrependNothing(tail: Option<seq<Raw>>)
    ensures Prepend([], tail) == tail
  {
    if tail.Some? {
      assert [] + tail.value == tail.value;
    }
  }

  lemma {:induction false} PrependNone(raws: seq<Raw>)
    ensures Prepend(raws, Some([])) == Some(raws)
  {
    assert raws + [] == raws;
  }

  lemma {:induction false} PrependMore(a: seq<Raw>, b: seq<Raw>, tail: Option<seq<Raw>>)
    ensures Prepend(a, Prepend(b, tail)) == Prepend(a + b, tail)
  {
    if tail.Some? {
      assert a + (b + tail.value) == a + b + tail.value;
    }
  }

  // ----- targets -----

  /** What an offset leads to: a node, the sentinel behind the last one, or nothing. */
  ghost function Named(il: ILInstr, nodes: seq<ILInstr>, raws: seq<Raw>, size: nat, o: int): ILInstr? {
    if Find(raws, size, o).Some? then At(il, nodes, Find(raws, size, o).value) else null
  }

  lemma {:induction false} FindInside(il: seq<byte>, raws: seq<Raw>, o: int)
    requires RawsOk(il, raws, 0) && Find(raws, |il|, o).Some?
    ensures 0 <= o <= |il|
  {
    hide RawOk;
    if o != |il| {
      var k := FindStart(raws, o).value;
      assert RawOk(il, raws, k);
      StartInside(il, raws, k);
    }
  }

  lemma {:induction false} StartInside(il: seq<byte>, raws: seq<Raw>, k: nat)
    requires k < |raws| && RawOk(il, raws, k)
    ensures raws[k].start <= |il|
  {
    hide OperandSize, LittleEndian, OpcodeBytes, Fits, Tabled;
  }

  method GetInstrFromOffset(table: array<ILInstr?>, codeSize: nat, offset: int, ghost r: ILRewriter, ghost il: seq<byte>, ghost raws: seq<Raw>)
    returns (p: ILInstr?)
    requires table.Length == |il| + 1 && codeSize == |il| && table[|il|] == r.il
    requires Tabulated(table[..], r.nodes, raws) && RawsOk(il, raws, 0)
    ensures p == Named(r.il, r.nodes, raws, |il|, offset)
  {
    hide FindStart, RawOk;
    p := null;
    if 0 <= offset <= codeSize {
      p := table[offset];
      assert offset < |il| ==> table[..][offset] == p;
    } else if Find(raws, |il|, offset).Some? {
      FindInside(il, raws, offset);
    }
  }

  ghost predicate Resolved(il: ILInstr, nodes: seq<ILInstr>, cs: seq<Content>, raws: seq<Raw>, size: nat, n: nat) {
    |cs| == |raws| && forall k :: 0 <= k < n && k < |cs| ==>
      (HasTarget(cs[k].op) ==> cs[k].target == Named(il, nodes, raws, size, raws[k].arg))
  }

  /** The branches among the first n entries lead somewhere. */
  ghost predicate FoundUpTo(raws: seq<Raw>, size: nat, n: nat) {
    forall k :: 0 <= k < |raws| && k < n && HasTarget(raws[k].op) ==> Find(raws, size, raws[k].arg).Some?
  }

  lemma {:induction false} FoundStart(raws: seq<Raw>, size: nat)
    ensures FoundUpTo(raws, size, 0) && (FoundUpTo(raws, size, |raws|) <==> Resolvable(raws, size))
  {
    hide Find, HasTarget;
  }

  lemma {:induction false} FoundStep(il: ILInstr, nodes: seq<ILInstr>, raws: seq<Raw>, size: nat, i: nat)
    requires i < |raws|
    ensures FoundUpTo(raws, size, i + 1) <==>
      FoundUpTo(raws, size, i) && (HasTarget(raws[i].op) ==> Named(il, nodes, raws, size, raws[i].arg) != null)
  {
    hide Find, HasTarget;
  }

  method ResolveNode(ghost r: ILRewriter, p: ILInstr, table: array<ILInstr?>, codeSize: nat, ghost il: seq<byte>, ghost raws: seq<Raw>) returns (found: bool)
    requires table.Length == |il| + 1 && codeSize == |il| && table[|il|] == r.il
    requires Tabulated(table[..], r.nodes, raws) && RawsOk(il, raws, 0)
    modifies p`target
    ensures HasTarget(p.op) ==> p.target == Named(r.il, r.nodes, raws, |il|, p.arg)
    ensures found <==> (HasTarget(p.op) ==> Named(r.il, r.nodes, raws, |il|, p.arg) != null)
  {
    hide Tabulated, RawsOk, Named, HasTarget;
    found := true;
    if HasTarget(p.op) {
      p.target := GetInstrFromOffset(table, codeSize, p.arg, r, il, raws);
      found := p.target != null;
    }
  }

  /** The loop over all branches; whether each of them leads somewhere. */
  method ResolveTargets(r: ILRewriter, table: array<ILInstr?>, codeSize: nat, ghost il: seq<byte>, ghost stack: nat, ghost raws: seq<Raw>)
    returns (all: bool)
    requires r.Valid() && Built(r, table[..], stack, raws)
    requires table.Length == |il| + 1 && codeSize == |il| && table[|il|] == r.il && RawsOk(il, raws, 0)
    modifies r.nodes`target
    ensures Built(r, table[..], stack, raws) && Resolved(r.il, r.nodes, Contents(r.nodes), raws, |il|, |raws|)
    ensures all <==> Resolvable(raws, |il|)
  {
    hide ILRewriter.Valid, Tabulated, RawsOk, Contents, HasTarget, RawPushes, Named, FoundUpTo, Resolvable;
    var p := r.il.next;
    ghost var i := 0;
    all := true;
    FoundStart(raws, |il|);
    Walk(r, 0);
    while p != r.il
      invariant 0 <= i <= |r.nodes| && p == At(r.il, r.nodes, i)
      invariant forall k :: 0 <= k < |r.nodes| ==> r.nodes[k].op == raws[k].op && r.nodes[k].arg == raws[k].arg
      invariant forall k :: 0 <= k < i && HasTarget(r.nodes[k].op) ==> r.nodes[k].target == Named(r.il, r.nodes, raws, |il|, raws[k].arg)
      invariant all <==> FoundUpTo(raws, |il|, i)
      decreases |r.nodes| - i
    {
      Walk(r, i);
      FoundStep(r.il, r.nodes, raws, |il|, i);
      var found := ResolveNode(r, p, table, codeSize, il, raws);
      all := all && found;
      p := p.next;
      i := i + 1;
      Walk(r, i);
    }
  }

  lemma {:induction false} ResolvedDepicts(il: ILInstr, nodes: seq<ILInstr>, cs: seq<Content>, raws: seq<Raw>, size: nat)
    requires Resolvable(raws, size) && Decoded(cs, raws) && |nodes| == |cs| && Resolved(il, nodes, cs, raws, size, |raws|)
    ensures Depicts(il, nodes, cs, Resolve(raws, size))
  {
    hide OperandSize, Find, HasTarget;
    var c := Resolve(raws, size);
    forall k | 0 <= k < |c| ensures DepictsAt(il, nodes, cs[k], c[k]) {
      assert c[k] == ResolveEntry(raws, size, k);
      if HasTarget(raws[k].op) {
        assert Find(raws, size, raws[k].arg).Some?;
      }
    }
  }

  lemma {:induction false} ResolvedPushes(raws: seq<Raw>, size: nat, n: nat)
    requires Resolvable(raws, size) && n <= |raws|
    ensures RawPushes(raws[..n]) == BodyPushes(Resolve(raws, size)[..n])
  {
    hide Pushes, Find, HasTarget;
    if n > 0 {
      var c := Resolve(raws, size);
      ResolvedPushes(raws, size, n - 1);
      assert raws[..n] == raws[..n - 1] + [raws[n - 1]];
      assert c[..n] == c[..n - 1] + [c[n - 1]];
      RawPushesMore(raws[..n - 1], raws[n - 1]);
      PushesMore(c[..n - 1], c[n - 1]);
      assert c[n - 1] == ResolveEntry(raws, size, n - 1);
    }
  }

  /** Import of the code: an error exactly where the stream is invalid; else the
      list, whose branches lead to the nodes they name, or nowhere if they dangle. */
  method ImportIL(r: ILRewriter, il: seq<byte>, ghost stack: nat) returns (ok: bool, resolved: bool, table: array<ILInstr?>)
    requires r.Valid() && r.nodes == [] && r.maxStack == stack && r.nInstrs == 0
    modifies r`nodes, r`maxStack, r`nInstrs, r.il`next, r.il`prev
    ensures r.Valid() && table.Length == |il| + 1 && table[|il|] == r.il
    ensures ok <==> !Import(il).Invalid?
    ensures ok && resolved <==> Import(il).Accepted?
    ensures ok ==> Parse(il, 0).Some? && RawsOk(il, Parse(il, 0).value, 0) && Tabulated(table[..], r.nodes, Parse(il, 0).value)
    ensures ok ==> Resolved(r.il, r.nodes, Contents(r.nodes), Parse(il, 0).value, |il|, |Parse(il, 0).value|)
    ensures Import(il).Accepted? ==> Depicts(r.il, r.nodes, Contents(r.nodes), Import(il).code)
    ensures Import(il).Accepted? ==> r.maxStack == stack + BodyPushes(Import(il).code) && r.nInstrs == |r.nodes|
    ensures forall k :: 0 <= k < |r.nodes| ==> fresh(r.nodes[k])
    ensures fresh(table)
  {
    hide ILRewriter.Valid, Tabulated, RawsOk, Contents, Parse, RawPushes, BodyPushes, Resolvable, Depicts, Resolved, LinkedAt;
    table := new ILInstr?[|il| + 1](_ => null);
    table[|il|] := r.il;
    EmptyTable(table[..], r.nodes);
    NoPushes();
    resolved := false;
    ok := Decode(r, table, il, stack);
    if !ok { return; }
    ghost var raws := Parse(il, 0).value;
    ParsedOk(il, 0);
    resolved := ResolveTargets(r, table, |il|, il, stack, raws);
    if Import(il).Accepted? {
      ResolvedDepicts(r.il, r.nodes, Contents(r.nodes), raws, |il|);
      ResolvedPushes(raws, |il|, |raws|);
      assert raws[..|raws|] == raws && Resolve(raws, |il|)[..|raws|] == Resolve(raws, |il|);
    }
  }

  lemma {:induction false} EmptyTable(table: seq<ILInstr?>, nodes: seq<ILInstr>)
    requires |table| > 0 && nodes == [] && forall o :: 0 <= o < |table| - 1 ==> table[o] == null
    ensures Tabulated(table, nodes, [])
  {
  }

  lemma {:induction false} NoPushes()
    ensures RawPushes([]) == 0
  {
  }
}
