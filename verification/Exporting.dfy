/** Export: two passes over the list, repeated until no branch was widened. */
module Exporting {
  import opened Opcodes
  import opened Layout
  import opened Bytes
  import opened Codec
  import opened InstrList
  import opened Probing

  /** The nodes hold the entries of c, branches leading to the nodes that c's targets name. */
  ghost predicate Depicts(il: ILInstr, nodes: seq<ILInstr>, cs: seq<Content>, c: Code) {
    |nodes| == |cs| == |c| && forall k :: 0 <= k < |c| ==> DepictsAt(il, nodes, cs[k], c[k])
  }

  predicate DepictsAt(il: ILInstr, nodes: seq<ILInstr>, x: Content, e: Instr) {
    && x.op == e.op
    && (HasTarget(e.op) ==> x.target == At(il, nodes, e.target))
    && (!HasTarget(e.op) && OperandLength(e.op) > 0 ==> x.arg == e.arg)
  }

  // ----- the output buffer -----

  method WriteInt(buf: array<byte>, at: nat, v: int, w: nat)
    requires at + w <= buf.Length
    modifies buf
    ensures buf[at..at + w] == LittleEndian(v, w)
    ensures buf[..at] == old(buf[..at]) && buf[at + w..] == old(buf[at + w..])
  {
    var i, x := 0, v;
    while i < w
      invariant 0 <= i <= w
      invariant LittleEndian(v, w) == buf[at..at + i] + LittleEndian(x, w - i)
      invariant buf[..at] == old(buf[..at]) && buf[at + w..] == old(buf[at + w..])
    {
      ghost var done := buf[at..at + i];
      buf[at + i] := x % 256;
      assert buf[at..at + i + 1] == done + [x % 256];
      assert done + LittleEndian(x, w - i) == done + [x % 256] + LittleEndian(x / 256, w - i - 1);
      i, x := i + 1, x / 256;
    }
  }

  /** The opcode of entry k is in place. */
  predicate HeadAt(bs: seq<byte>, c: Code, k: nat)
    requires WellFormed(c) && k < |c|
  {
    Offset(c, k + 1) <= |bs| && bs[Offset(c, k)..Offset(c, k) + OpcodeLength(c[k].op)] == OpcodeBytes(c[k].op)
  }

  /** The whole of entry k is in place. */
  predicate DoneAt(bs: seq<byte>, c: Code, k: nat)
    requires WellFormed(c) && k < |c|
  {
    Offset(c, k + 1) <= |bs| && bs[Offset(c, k)..Offset(c, k + 1)] == EncodeEntry(c, k)
  }

  /** What the first pass leaves of entry k: branches lack their displacement. */
  predicate FirstAt(bs: seq<byte>, c: Code, k: nat)
    requires WellFormed(c) && k < |c|
  {
    HeadAt(bs, c, k) && (!HasTarget(c[k].op) ==> DoneAt(bs, c, k))
  }

  ghost predicate SameOutside(bs: seq<byte>, bs': seq<byte>, lo: nat, hi: nat) {
    |bs| == |bs'| && lo <= hi <= |bs| && bs[..lo] == bs'[..lo] && bs[hi..] == bs'[hi..]
  }

  lemma {:induction false} SliceKept(bs: seq<byte>, bs': seq<byte>, lo: nat, hi: nat, x: nat, y: nat)
    requires SameOutside(bs, bs', lo, hi) && x <= y <= |bs| && (y <= lo || hi <= x)
    ensures bs'[x..y] == bs[x..y]
  {
    if y <= lo {
      assert bs[x..y] == bs[..lo][x..y] && bs'[x..y] == bs'[..lo][x..y];
    } else {
      assert bs[x..y] == bs[hi..][x - hi..y - hi] && bs'[x..y] == bs'[hi..][x - hi..y - hi];
    }
  }

  /** Writing inside one entry leaves the others as they were. */
  lemma {:induction false} EntryKept(bs: seq<byte>, bs': seq<byte>, lo: nat, hi: nat, c: Code, i: nat, k: nat)
    requires WellFormed(c) && i < |c| && k < |c| && i != k
    requires SameOutside(bs, bs', lo, hi) && Offset(c, i) <= lo && hi <= Offset(c, i + 1)
    ensures (HeadAt(bs, c, k) ==> HeadAt(bs', c, k)) && (DoneAt(bs, c, k) ==> DoneAt(bs', c, k))
  {
    hide OpcodeBytes, EncodeEntry, Offset, OpcodeLength, SameOutside;
    OffsetNext(c, k);
    if k < i {
      Apart(c, k, i);
    } else {
      Apart(c, i, k);
    }
    if HeadAt(bs, c, k) || DoneAt(bs, c, k) {
      SameLength(bs, bs', lo, hi);
      SliceKept(bs, bs', lo, hi, Offset(c, k), Offset(c, k) + OpcodeLength(c[k].op));
      SliceKept(bs, bs', lo, hi, Offset(c, k), Offset(c, k + 1));
    }
  }

  lemma {:induction false} SameLength(bs: seq<byte>, bs': seq<byte>, lo: nat, hi: nat)
    requires SameOutside(bs, bs', lo, hi)
    ensures |bs| == |bs'|
  {
  }

  lemma {:induction false} Apart(c: Code, i: nat, k: nat)
    requires WellFormed(c) && i < k < |c|
    ensures Offset(c, i + 1) <= Offset(c, k)
  {
    hide Offset;
    if i + 1 < k {
      OffsetsIncrease(c, i + 1, k);
    }
  }

  lemma {:induction false} OffsetNext(c: Code, k: nat)
    requires WellFormed(c) && k < |c|
    ensures Offset(c, k + 1) == Offset(c, k) + OpcodeLength(c[k].op) + OperandLength(c[k].op)
    ensures Offset(c, k + 1) == Offset(c, k) + Size(c[k].op)
  {
  }

  lemma {:induction false} AllDone(bs: seq<byte>, c: Code, n: nat)
    requires WellFormed(c) && n <= |c| && forall k :: 0 <= k < n ==> DoneAt(bs, c, k)
    ensures Offset(c, n) <= |bs| && bs[..Offset(c, n)] == Encode(c, n)
  {
    hide EncodeEntry, Offset, Size, OpcodeLength, OperandLength;
    if n > 0 {
      AllDone(bs, c, n - 1);
      assert DoneAt(bs, c, n - 1);
      OffsetNext(c, n - 1);
      var a, b := Offset(c, n - 1), Offset(c, n);
      assert bs[..b] == bs[..a] + bs[a..b];
    } else {
      OffsetZero(c);
    }
  }

  // ----- first pass: opcodes, operands and offsets -----

  /** One instruction at offset at; the displacement of a branch is left for the second pass. */
  method EmitInstr(buf: array<byte>, at: nat, op: nat, arg: int) returns (next: nat)
    requires Known(op) && at + Size(op) <= buf.Length
    modifies buf
    ensures next == at + Size(op) && SameOutside(old(buf[..]), buf[..], at, next)
    ensures buf[at..at + OpcodeLength(op)] == OpcodeBytes(op)
    ensures !HasTarget(op) ==> buf[at + OpcodeLength(op)..next] == LittleEndian(arg, OperandLength(op))
  {
    hide OperandSize, LittleEndian, HasTarget;
    var offset := at;
    if op < COUNT {
      if op >= 0x100 {
        buf[offset] := PREFIX1;
        offset := offset + 1;
      }
      buf[offset] := op % 0x100;
      offset := offset + 1;
    }
    assert buf[at..offset] == OpcodeBytes(op);
    assert buf[..at] == old(buf[..at]);
    next := offset + OperandLength(op);
    ghost var mid := buf[..];
    if !HasTarget(op) {
      WriteInt(buf, offset, arg, OperandLength(op));
      assert buf[at..offset] == buf[..offset][at..] == mid[..offset][at..];
      assert buf[..at] == buf[..offset][..at] == mid[..offset][..at];
    }
    assert buf[next..] == old(buf[next..]);
  }

  lemma {:induction false} EmitDone(bs: seq<byte>, c: Code, k: nat, arg: int)
    requires WellFormed(c) && k < |c| && Offset(c, k + 1) <= |bs|
    requires Offset(c, k) + Size(c[k].op) == Offset(c, k + 1)
    requires bs[Offset(c, k)..Offset(c, k) + OpcodeLength(c[k].op)] == OpcodeBytes(c[k].op)
    requires !HasTarget(c[k].op) && OperandLength(c[k].op) > 0 ==> arg == c[k].arg
    requires !HasTarget(c[k].op) ==>
      bs[Offset(c, k) + OpcodeLength(c[k].op)..Offset(c, k + 1)] == LittleEndian(arg, OperandLength(c[k].op))
    ensures FirstAt(bs, c, k)
  {
    hide OperandSize, OpcodeBytes, Offset, OpcodeLength;
    if !HasTarget(c[k].op) {
      var a, p, b := Offset(c, k), Offset(c, k) + OpcodeLength(c[k].op), Offset(c, k + 1);
      assert bs[a..b] == bs[a..p] + bs[p..b];
      assert LittleEndian(arg, OperandLength(c[k].op)) == LittleEndian(c[k].arg, OperandLength(c[k].op));
    }
  }

  ghost predicate OffsetsSet(il: ILInstr, nodes: seq<ILInstr>, c: Code)
    reads il`offset, nodes`offset
  {
    |nodes| == |c| && il.offset == Offset(c, |c|) && forall k :: 0 <= k < |nodes| ==> nodes[k].offset == Offset(c, k)
  }

  /** Following next from the sentinel meets the nodes in order. */
  lemma {:induction false} Walk(r: ILRewriter, i: nat)
    requires r.Valid() && i <= |r.nodes|
    ensures r.il.next == At(r.il, r.nodes, 0) && (At(r.il, r.nodes, i) == r.il <==> i == |r.nodes|)
    ensures i < |r.nodes| ==> r.nodes[i].next == At(r.il, r.nodes, i + 1)
    ensures forall k :: 0 <= k < |r.nodes| ==> r.nodes[k] != r.il && (k != i && i < |r.nodes| ==> r.nodes[k] != r.nodes[i])
  {
    assert LinkedAt(r.il, r.nodes, 0);
    if i < |r.nodes| {
      assert LinkedAt(r.il, r.nodes, i + 1);
    }
  }

  lemma {:induction false} DepictsLength(r: ILRewriter, c: Code)
    requires Depicts(r.il, r.nodes, Contents(r.nodes), c)
    ensures |r.nodes| == |c|
  {
  }

  lemma {:induction false} DepictsNode(r: ILRewriter, c: Code, i: nat)
    requires Depicts(r.il, r.nodes, Contents(r.nodes), c) && i < |c| && WellFormed(c)
    ensures |r.nodes| == |c| && DepictsAt(r.il, r.nodes, ContentOf(r.nodes[i]), c[i]) && Known(c[i].op) && c[i].target <= |c|
  {
    assert Contents(r.nodes)[i] == ContentOf(r.nodes[i]);
  }

  ghost predicate FirstUpTo(bs: seq<byte>, c: Code, i: nat)
    requires WellFormed(c)
  {
    forall k :: 0 <= k < |c| && k < i ==> FirstAt(bs, c, k)
  }

  /** The first pass at one node. */
  method EmitNode(p: ILInstr, buf: array<byte>, at: nat, ghost il: ILInstr, ghost nodes: seq<ILInstr>, ghost c: Code, ghost i: nat)
    returns (next: nat)
    requires WellFormed(c) && i < |c| && at == Offset(c, i) && DepictsAt(il, nodes, ContentOf(p), c[i])
    requires 10 * |c| <= buf.Length && FirstUpTo(buf[..], c, i)
    modifies buf, p`offset
    ensures p.offset == at && next == Offset(c, i + 1) && FirstUpTo(buf[..], c, i + 1)
  {
    hide Size, OpcodeLength, OperandLength, OpcodeBytes, EncodeEntry, Offset, FirstAt, HasTarget, SameOutside;
    OffsetNext(c, i);
    OffsetBound(c, i + 1);
    p.offset := at;
    ghost var bs := buf[..];
    next := EmitInstr(buf, at, p.op, p.arg);
    assert buf[..][at..at + OpcodeLength(p.op)] == buf[at..at + OpcodeLength(p.op)];
    EmitDone(buf[..], c, i, p.arg);
    EarlierKept(bs, buf[..], c, i);
  }

  method EmitPass(r: ILRewriter, buf: array<byte>, ghost c: Code) returns (branch: bool, size: nat)
    requires r.Valid() && WellFormed(c) && Depicts(r.il, r.nodes, Contents(r.nodes), c) && 10 * |r.nodes| <= buf.Length
    modifies buf, r.il`offset, r.nodes`offset
    ensures OffsetsSet(r.il, r.nodes, c) && size == Offset(c, |c|)
    ensures forall k :: 0 <= k < |c| ==> FirstAt(buf[..], c, k)
    ensures branch <==> exists k :: 0 <= k < |c| && HasTarget(c[k].op)
  {
    hide Offset, FirstAt, HasTarget, Known, ILRewriter.Valid, Contents, Depicts;
    var p, offset := r.il.next, 0;
    ghost var i := 0;
    branch := false;
    Walk(r, 0);
    OffsetZero(c);
    DepictsLength(r, c);
    while p != r.il
      invariant 0 <= i <= |r.nodes| && p == At(r.il, r.nodes, i) && offset == Offset(c, i)
      invariant forall k :: 0 <= k < i ==> r.nodes[k].offset == Offset(c, k)
      invariant FirstUpTo(buf[..], c, i)
      invariant branch <==> exists k :: 0 <= k < i && HasTarget(c[k].op)
      decreases |r.nodes| - i
    {
      Walk(r, i);
      DepictsNode(r, c, i);
      offset := EmitNode(p, buf, offset, r.il, r.nodes, c, i);
      if HasTarget(p.op) {
        branch := true;
      }
      p := p.next;
      i := i + 1;
      Walk(r, i);
    }
    r.il.offset := offset;
    size := offset;
  }

  lemma {:induction false} OffsetZero(c: Code)
    ensures Offset(c, 0) == 0
  {
  }

  lemma {:induction false} OffsetBound(c: Code, i: nat)
    requires i <= |c|
    ensures Offset(c, i) <= 10 * i
  {
  }

  lemma {:induction false} EarlierKept(bs: seq<byte>, bs': seq<byte>, c: Code, i: nat)
    requires WellFormed(c) && i < |c| && SameOutside(bs, bs', Offset(c, i), Offset(c, i + 1))
    requires forall k :: 0 <= k < i ==> FirstAt(bs, c, k)
    ensures forall k :: 0 <= k < i ==> FirstAt(bs', c, k)
  {
    hide HeadAt, DoneAt, Offset, SameOutside;
    forall k | 0 <= k < i ensures FirstAt(bs', c, k) {
      assert FirstAt(bs, c, k);
      EntryKept(bs, bs', Offset(c, i), Offset(c, i + 1), c, i, k);
    }
  }

  // ----- second pass: displacements, and widening where they do not fit -----

  predicate PatchedAt(bs: seq<byte>, c: Code, k: nat)
    requires WellFormed(c) && k < |c|
  {
    HeadAt(bs, c, k) && (!TooFar(c, k) ==> DoneAt(bs, c, k))
  }

  lemma {:induction false} PatchDone(bs: seq<byte>, bs': seq<byte>, c: Code, i: nat)
    requires WellFormed(c) && i < |c| && HeadAt(bs, c, i)
    requires SameOutside(bs, bs', Offset(c, i) + OpcodeLength(c[i].op), Offset(c, i + 1))
    requires bs'[Offset(c, i) + OpcodeLength(c[i].op)..Offset(c, i + 1)] == LittleEndian(OperandValue(c, i), OperandLength(c[i].op))
    ensures PatchedAt(bs', c, i)
  {
    hide OperandSize, OpcodeBytes, Offset, OpcodeLength, LittleEndian, OperandValue, TooFar;
    var a, p, b := Offset(c, i), Offset(c, i) + OpcodeLength(c[i].op), Offset(c, i + 1);
    OffsetNext(c, i);
    SliceKept(bs, bs', p, b, a, p);
    assert bs'[a..b] == bs'[a..p] + bs'[p..b];
  }

  /** The state of the buffer when the second pass reaches entry i. */
  ghost predicate Halfway(bs: seq<byte>, c: Code, i: nat)
    requires WellFormed(c)
  {
    && (forall k :: 0 <= k < |c| && k < i ==> PatchedAt(bs, c, k))
    && (forall k :: i <= k < |c| ==> FirstAt(bs, c, k))
  }

  lemma {:induction false} HalfwayWritten(bs: seq<byte>, bs': seq<byte>, lo: nat, hi: nat, c: Code, i: nat)
    requires WellFormed(c) && i < |c| && Halfway(bs, c, i) && PatchedAt(bs', c, i)
    requires SameOutside(bs, bs', lo, hi) && Offset(c, i) <= lo && hi <= Offset(c, i + 1)
    ensures Halfway(bs', c, i + 1)
  {
    hide HeadAt, DoneAt, TooFar, Offset, SameOutside, HasTarget;
    forall k | 0 <= k < |c| && k != i ensures (k < i ==> PatchedAt(bs', c, k)) && (k > i ==> FirstAt(bs', c, k)) {
      EntryKept(bs, bs', lo, hi, c, i, k);
      if k < i {
        assert PatchedAt(bs, c, k);
      } else {
        assert FirstAt(bs, c, k);
      }
    }
  }

  lemma {:induction false} HalfwaySkipped(bs: seq<byte>, c: Code, i: nat)
    requires WellFormed(c) && i < |c| && Halfway(bs, c, i) && (!HasTarget(c[i].op) || TooFar(c, i))
    ensures Halfway(bs, c, i + 1)
  {
    hide HeadAt, DoneAt, TooFar, HasTarget;
    assert FirstAt(bs, c, i);
  }

  /** Writes the displacement of entry i. */
  method Patch(buf: array<byte>, at: nat, v: int, w: nat, ghost c: Code, ghost i: nat)
    requires WellFormed(c) && i < |c| && Halfway(buf[..], c, i)
    requires at + w == Offset(c, i + 1) && w == OperandLength(c[i].op) && v == OperandValue(c, i)
    modifies buf
    ensures Halfway(buf[..], c, i + 1)
  {
    hide HeadAt, Offset, OperandLength, OpcodeLength, LittleEndian, OperandValue, PatchedAt;
    ghost var bs := buf[..];
    assert FirstAt(bs, c, i);
    OffsetNext(c, i);
    HeadFits(bs, c, i);
    WriteInt(buf, at, v, w);
    assert SameOutside(bs, buf[..], at, at + w) by {
      assert bs[..at] == buf[..at] && bs[at + w..] == buf[at + w..];
    }
    assert buf[..][at..at + w] == buf[at..at + w];
    PatchDone(bs, buf[..], c, i);
    HalfwayWritten(bs, buf[..], at, at + w, c, i);
  }

  lemma {:induction false} HeadFits(bs: seq<byte>, c: Code, i: nat)
    requires WellFormed(c) && i < |c| && HeadAt(bs, c, i)
    ensures Offset(c, i + 1) <= |bs|
  {
  }

  lemma {:induction false} WidenedDepicts(il: ILInstr, nodes: seq<ILInstr>, cs: seq<Content>, c: Code, cs': seq<Content>)
    requires WellFormed(c) && Depicts(il, nodes, cs, c) && |cs'| == |cs|
    requires forall k :: 0 <= k < |c| ==> cs'[k] == cs[k].(op := WidenPass(c)[k].op)
    ensures Depicts(il, nodes, cs', WidenPass(c))
  {
    hide OperandSize;
    forall k | 0 <= k < |c| ensures DepictsAt(il, nodes, cs'[k], WidenPass(c)[k]) {
      assert DepictsAt(il, nodes, cs[k], c[k]);
    }
  }

  lemma {:induction false} TargetOffset(r: ILRewriter, c: Code, t: nat)
    requires OffsetsSet(r.il, r.nodes, c) && t <= |c|
    ensures At(r.il, r.nodes, t).offset == Offset(c, t)
  {
  }

  /** The node's branch is long now. */
  method Widen(p: ILInstr)
    requires IsShortBranch(p.op)
    modifies p`op
    ensures p.op == Longer(old(p.op))
  {
    if p.op == LEAVE_S {
      p.op := LEAVE;
    } else {
      p.op := p.op - BR_S + BR;
    }
  }

  /** The second pass at one node. */
  method PatchNode(r: ILRewriter, p: ILInstr, buf: array<byte>, switchBase: int, ghost c: Code, ghost i: nat)
    returns (base: int, widened: bool)
    requires r.Valid() && WellFormed(c) && |r.nodes| == |c| && OffsetsSet(r.il, r.nodes, c)
    requires i < |c| && p == r.nodes[i] && DepictsAt(r.il, r.nodes, ContentOf(p), c[i]) && switchBase == SwitchBase(c, i)
    requires Halfway(buf[..], c, i)
    modifies buf, p`op
    ensures Halfway(buf[..], c, i + 1) && base == SwitchBase(c, i + 1)
    ensures widened == TooFar(c, i) && p.op == WidenPass(c)[i].op
  {
    hide OperandSize, Offset, Halfway, ILRewriter.Valid, OffsetsSet, Longer;
    base, widened := switchBase, false;
    TargetOffset(r, c, i);
    if p.op == SWITCH {
      base := p.offset + 1 + 4 * (p.arg + 1);
      HalfwaySkipped(buf[..], c, i);
    } else if HasTarget(p.op) {
      Walk(r, i);
      TargetOffset(r, c, i + 1);
      TargetOffset(r, c, c[i].target);
      OffsetNext(c, i);
      var next, target := p.next, p.target;
      if p.op == SWITCH_ARG {
        Patch(buf, p.offset, target.offset - switchBase, 4, c, i);
      } else {
        var delta := target.offset - next.offset;
        if IsShortBranch(p.op) {
          if !FitsInt8(delta) {
            Widen(p);
            widened := true;
            HalfwaySkipped(buf[..], c, i);
          } else {
            Patch(buf, next.offset - 1, delta, 1, c, i);
          }
        } else {
          Patch(buf, next.offset - 4, delta, 4, c, i);
        }
      }
    } else {
      HalfwaySkipped(buf[..], c, i);
    }
  }

  method PatchPass(r: ILRewriter, buf: array<byte>, ghost c: Code) returns (again: bool)
    requires r.Valid() && WellFormed(c) && Depicts(r.il, r.nodes, Contents(r.nodes), c) && OffsetsSet(r.il, r.nodes, c)
    requires forall k :: 0 <= k < |c| ==> FirstAt(buf[..], c, k)
    modifies buf, r.nodes`op
    ensures Depicts(r.il, r.nodes, Contents(r.nodes), WidenPass(c))
    ensures again <==> WidenPass(c) != c
    ensures !again ==> forall k :: 0 <= k < |c| ==> DoneAt(buf[..], c, k)
  {
    hide Halfway, Far, PatchedAt, FirstAt, DoneAt, TooFar, ILRewriter.Valid, Contents, Depicts, OffsetsSet, SwitchBase, Longer, WidenPass;
    ghost var cs := Contents(r.nodes);
    var p, switchBase := r.il.next, 0;
    ghost var i := 0;
    again := false;
    Walk(r, 0);
    DepictsLength(r, c);
    PatchStart(buf[..], c);
    while p != r.il
      invariant 0 <= i <= |r.nodes| && p == At(r.il, r.nodes, i) && switchBase == SwitchBase(c, i)
      invariant Halfway(buf[..], c, i)
      invariant again == Far(c, i)
      invariant forall k :: 0 <= k < |c| ==> ContentOf(r.nodes[k]) == if k < i then cs[k].(op := WidenPass(c)[k].op) else cs[k]
      decreases |r.nodes| - i
    {
      Walk(r, i);
      DepictedAt(r.il, r.nodes, cs, c, i);
      var widened;
      switchBase, widened := PatchNode(r, p, buf, switchBase, c, i);
      again := again || widened;
      FarStep(c, i);
      p := p.next;
      i := i + 1;
      Walk(r, i);
    }
    WidenedDepicts(r.il, r.nodes, cs, c, Contents(r.nodes));
    PatchEnd(buf[..], c);
  }

  /** Some branch in front of entry i is out of reach. */
  predicate Far(c: Code, i: nat)
    requires WellFormed(c) && i <= |c|
  {
    i > 0 && (Far(c, i - 1) || TooFar(c, i - 1))
  }

  lemma {:induction false} FarStep(c: Code, i: nat)
    requires WellFormed(c) && i < |c|
    ensures Far(c, i + 1) == (Far(c, i) || TooFar(c, i))
  {
  }

  lemma {:induction false} FarMeans(c: Code, i: nat)
    requires WellFormed(c) && i <= |c|
    ensures Far(c, i) <==> exists k :: 0 <= k < i && TooFar(c, k)
  {
    hide TooFar;
    if i > 0 {
      FarMeans(c, i - 1);
    }
  }

  lemma {:induction false} PatchStart(bs: seq<byte>, c: Code)
    requires WellFormed(c) && forall k :: 0 <= k < |c| ==> FirstAt(bs, c, k)
    ensures Halfway(bs, c, 0) && SwitchBase(c, 0) == 0 && !Far(c, 0)
  {
    hide FirstAt, PatchedAt;
  }

  lemma {:induction false} PatchEnd(bs: seq<byte>, c: Code)
    requires WellFormed(c) && Halfway(bs, c, |c|)
    ensures Far(c, |c|) <==> WidenPass(c) != c
    ensures !Far(c, |c|) ==> forall k :: 0 <= k < |c| ==> DoneAt(bs, c, k)
  {
    hide TooFar, PatchedAt, DoneAt;
    WidenPassWidens(c);
    FarMeans(c, |c|);
    assert Consistent(c) <==> !Far(c, |c|);
    if !Far(c, |c|) {
      forall k | 0 <= k < |c| ensures DoneAt(bs, c, k) {
        assert !TooFar(c, k) && PatchedAt(bs, c, k);
        PatchedDone(bs, c, k);
      }
    }
  }

  lemma {:induction false} PatchedDone(bs: seq<byte>, c: Code, k: nat)
    requires WellFormed(c) && k < |c| && PatchedAt(bs, c, k) && !TooFar(c, k)
    ensures DoneAt(bs, c, k)
  {
  }

  lemma {:induction false} DepictedAt(il: ILInstr, nodes: seq<ILInstr>, cs: seq<Content>, c: Code, i: nat)
    requires Depicts(il, nodes, cs, c) && i < |c|
    ensures |nodes| == |cs| == |c| && DepictsAt(il, nodes, cs[i], c[i])
  {
  }

  // ----- both passes until nothing changes -----

  lemma {:induction false} NoBranches(bs: seq<byte>, c: Code)
    requires WellFormed(c) && (forall k :: 0 <= k < |c| ==> !HasTarget(c[k].op) && FirstAt(bs, c, k))
    ensures WidenPass(c) == c && forall k :: 0 <= k < |c| ==> DoneAt(bs, c, k)
  {
    hide HeadAt, DoneAt, Offset;
    forall k | 0 <= k < |c| ensures !TooFar(c, k) && DoneAt(bs, c, k) {
      assert FirstAt(bs, c, k);
    }
    WidenPassWidens(c);
  }

  lemma {:induction false} RelaxStep(c: Code)
    requires WellFormed(c)
    ensures WellFormed(WidenPass(c)) && Relax(WidenPass(c)) == Relax(c)
    ensures WidenPass(c) == c ==> Relax(c) == c
    ensures WidenPass(c) != c ==> ShortCount(WidenPass(c)) < ShortCount(c)
  {
    WidenPassWidens(c);
    WideningDropsShorts(c, WidenPass(c));
  }

  /** The code Export writes: the list in its least consistent layout. Every node
      ends up with its final opcode and offset, and no pass leaves the buffer of
      ten bytes per instruction. */
  method ExportCode(r: ILRewriter, ghost c: Code) returns (code: seq<byte>)
    requires r.Valid() && WellFormed(c) && Depicts(r.il, r.nodes, Contents(r.nodes), c) && r.nInstrs == |r.nodes|
    modifies r.il`offset, r.nodes`offset, r.nodes`op
    ensures code == Encode(Relax(c), |c|)
    ensures OffsetsSet(r.il, r.nodes, Relax(c)) && Depicts(r.il, r.nodes, Contents(r.nodes), Relax(c))
  {
    hide HasTarget, FirstAt, DoneAt, Depicts, Contents, Encode, Relax, Offset, OffsetsSet, ILRewriter.Valid, WidenPass;
    var maxSize := r.nInstrs * 10;
    var buf := new byte[maxSize];
    ghost var d := c;
    var again, size := true, 0;
    while again
      invariant WellFormed(d) && |d| == |c| && Relax(d) == Relax(c) && Depicts(r.il, r.nodes, Contents(r.nodes), d)
      invariant !again ==> Relax(d) == d && OffsetsSet(r.il, r.nodes, d) && size == Offset(d, |d|)
      invariant !again ==> forall k :: 0 <= k < |d| ==> DoneAt(buf[..], d, k)
      decreases ShortCount(d), again
    {
      var branch;
      RelaxStep(d);
      branch, size := EmitPass(r, buf, d);
      if branch {
        again := PatchPass(r, buf, d);
      } else {
        again := false;
        NoBranches(buf[..], d);
      }
      d := WidenPass(d);
    }
    AllDone(buf[..], d, |d|);
    code := buf[..size];
  }
}
