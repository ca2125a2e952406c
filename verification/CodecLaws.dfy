/** What the bytes of a decoded or encoded method say, by literal opcode and offset. */
module CodecLaws {
  import opened Wrappers
  import opened Opcodes
  import opened Layout
  import opened Bytes
  import opened Codec
  import opened Linking
  import opened Pipeline
  import opened Meaning

  /** Integers are little-endian and in two's complement. */
  lemma {:induction false} SignedByPlace(a: byte, b: byte, c: byte, d: byte)
    ensures Signed([a]) == if a < 0x80 then a else a - 0x100
    ensures Signed([a, b]) == a + 0x100 * (if b < 0x80 then b else b - 0x100)
    ensures Signed([a, b, c, d]) == a + 0x100 * b + 0x1_0000 * c + 0x100_0000 * (if d < 0x80 then d else d - 0x100)
  {
    assert [a, b][1..] == [b];
    assert [a, b, c, d][1..] == [b, c, d] && [b, c, d][1..] == [c, d] && [c, d][1..] == [d];
    assert Signed([c, d]) == c + 0x100 * Signed([d]);
    assert Signed([b, c, d]) == b + 0x100 * Signed([c, d]);
  }

  /** The operand of entry i, read from the bytes behind its opcode. */
  lemma {:induction false} OperandBytes(il: seq<byte>, i: nat)
    requires Import(il).Accepted? && i < |Import(il).code|
    ensures var c := Import(il).code; var o := Offset(c, i); var p := o + OpcodeLength(c[i].op);
      && WellFormed(c) && p <= Offset(c, i + 1) <= |il|
      && il[o..p] == OpcodeBytes(c[i].op) && Signed(il[p..Offset(c, i + 1)]) == OperandValue(c, i)
  {
    hide OpcodeLength, OperandLength, OpcodeBytes, Parse, OperandValue, LittleEndian, Offset, Relax, RawOperand, Resolvable;
    var rs := Parse(il, 0).value;
    var c := Import(il).code;
    ExportOfImport(il);
    ParsedOk(il, 0);
    ImportedWellFormed(il, rs);
    ImportedOperand(il, rs, i);
    assert RawOk(il, rs, i) && c[i] == ResolveEntry(rs, |il|, i);
    EncodeSlice(c, i, |c|);
    OffsetStep(c, i);
    SignedOfLittleEndian(OperandValue(c, i), OperandLength(c[i].op));
    var o, p, b := Offset(c, i), Offset(c, i) + OpcodeLength(c[i].op), Offset(c, i + 1);
    EncodeLength(c);
    SliceInTwo(il, o, p, b);
  }

  lemma {:induction false} OffsetStep(c: Code, i: nat)
    requires i < |c|
    ensures Offset(c, i + 1) == Offset(c, i) + OpcodeLength(c[i].op) + OperandLength(c[i].op)
  {
  }

  lemma {:induction false} EncodeLength(c: Code)
    requires WellFormed(c)
    ensures |Encode(c, |c|)| == Offset(c, |c|)
  {
  }

  /** Opcodes below 0x100 are one byte, the others follow the byte 0xFE. A branch (br.s to
      blt.un, leave, leave.s) holds the offset of its target less that of the next
      instruction, a switch (0x45) the number of its arms. */
  lemma {:induction false} InstructionBytes(il: seq<byte>, i: nat)
    requires Import(il).Accepted? && i < |Import(il).code|
    ensures var c := Import(il).code; var op := c[i].op; var o := Offset(c, i); var next := Offset(c, i + 1);
      && next <= |il|
      && (op < 0x100 ==> o < next && il[o] == op)
      && (0x100 <= op < 294 ==> o + 1 < next && il[o] == 0xFE && il[o + 1] == op - 0x100)
      && (0x2B <= op <= 0x44 || op == 0xDD || op == 0xDE ==>
            o < next && c[i].target <= |c| && Signed(il[o + 1..next]) == Offset(c, c[i].target) - next)
      && (op == 0x45 ==> next == o + 5 && Signed(il[o + 1..o + 5]) == c[i].arg)
  {
    hide OperandSize, Parse, Offset, Signed, Resolvable;
    OperandBytes(il, i);
    var c := Import(il).code;
    OffsetStep(c, i);
    var o, p := Offset(c, i), Offset(c, i) + OpcodeLength(c[i].op);
    assert p > o ==> il[o] == il[o..p][0];
    assert p > o + 1 ==> il[o + 1] == il[o..p][1];
  }

  /** Arm k of the switch at entry s stands behind the count, four bytes an arm, and holds
      the offset of its target less that of the end of the table. */
  lemma {:induction false} ArmBytes(il: seq<byte>, s: nat, k: nat)
    requires Import(il).Accepted? && s < |Import(il).code| && Import(il).code[s].op == 0x45 && k < Import(il).code[s].arg
    ensures var c := Import(il).code; var o := Offset(c, s) + 5 + 4 * k;
      && o + 4 <= |il| && s + 1 + k < |c| && c[s + 1 + k].target <= |c|
      && Signed(il[o..o + 4]) == Offset(c, c[s + 1 + k].target) - (Offset(c, s) + 5 + 4 * c[s].arg)
  {
    hide Import, Offset, Signed, OperandValue, Canonical, OpcodeLength, OpcodeBytes;
    var c := Import(il).code;
    ImportedCanonical(il);
    CanonicalWellFormed(c);
    ArmEntry(c, s, k);
    OperandBytes(il, s + 1 + k);
  }

  lemma {:induction false} ArmEntry(c: Code, s: nat, k: nat)
    requires Canonical(c) && WellFormed(c) && s < |c| && c[s].op == 0x45 && k < c[s].arg
    ensures s + 1 + k < |c| && OpcodeLength(c[s + 1 + k].op) == 0
    ensures Offset(c, s + 1 + k) == Offset(c, s) + 5 + 4 * k && Offset(c, s + 2 + k) == Offset(c, s + 1 + k) + 4
    ensures OperandValue(c, s + 1 + k) == Offset(c, c[s + 1 + k].target) - (Offset(c, s) + 5 + 4 * c[s].arg)
  {
    hide OperandSize, Offset, SwitchBase, Fits, Canonical;
    assert EntryCanonical(c, s) by { EntryOf(c, s); }
    TableBase(c, s, s + 1 + k);
    OffsetStep(c, s + 1 + k);
    assert c[s + 1 + k].op == SWITCH_ARG;
  }

  lemma {:induction false} EntryOf(c: Code, i: nat)
    requires Canonical(c) && i < |c|
    ensures EntryCanonical(c, i)
  {
  }

  /** The opcodes that are decoded: all of the table but the lead bytes 0xF8 to 0xFE. */
  lemma {:induction false} DecodableByOpcode(op: nat)
    ensures Decodable(op) <==> op < 0xF8 || 0xFE < op < 294
  {
  }

  lemma {:induction false} FoundOffset(il: seq<byte>, o: int)
    requires Import(il).Accepted? && Find(Parse(il, 0).value, |il|, o).Some?
    ensures var i := Find(Parse(il, 0).value, |il|, o).value; i <= |Import(il).code| && Offset(Import(il).code, i) == o
  {
    hide Parse, Resolvable, Offset, RawOk;
    var rs := Parse(il, 0).value;
    ParsedOk(il, 0);
    ImportedOffset(il, rs, Find(rs, |il|, o).value);
  }

  /** The bounds of a loaded clause are the instructions at its offsets: where the try
      block and the handler start, and where they end, a length behind. */
  lemma {:induction false} ClauseBytes(m: MethodBody, k: nat)
    requires Load(m).Some? && k < |m.eh|
    ensures var c := Load(m).value.code; var r := Load(m).value.eh[k]; var x := m.eh[k];
      && r.tryBegin <= |c| && Offset(c, r.tryBegin) == x.tryOffset
      && r.tryEnd <= |c| && Offset(c, r.tryEnd) == x.tryOffset + x.tryLength
      && r.handlerBegin <= |c| && Offset(c, r.handlerBegin) == x.handlerOffset
      && r.handlerEnd <= |c| && Offset(c, r.handlerEnd) == x.handlerOffset + x.handlerLength
      && (x.isFilter ==> r.filter <= |c| && Offset(c, r.filter) == x.filterOffset)
      && r.flags == x.flags && r.isFilter == x.isFilter && r.token == x.token
  {
    hide Parse, Find, Offset, Resolvable;
    var rs, x := Parse(m.il, 0).value, m.eh[k];
    assert LoadClause(rs, |m.il|, x).Some?;
    FoundOffset(m.il, x.tryOffset);
    FoundOffset(m.il, x.tryOffset + x.tryLength);
    FoundOffset(m.il, x.handlerOffset);
    FoundOffset(m.il, x.handlerOffset + x.handlerLength);
    if x.isFilter {
      FoundOffset(m.il, x.filterOffset);
    }
  }

  // ----- branch relaxation by opcode -----

  /** br.s to blt.un.s and leave.s hold their displacement in one byte. */
  predicate ReachesByByte(c: Code, i: nat)
    requires i < |c| && c[i].target <= |c|
  {
    0x2B <= c[i].op <= 0x37 || c[i].op == 0xDE ==> -128 <= Offset(c, c[i].target) - Offset(c, i + 1) <= 127
  }

  /** The same entry, or the branch of the same condition with four bytes. */
  predicate SameBranch(a: Instr, b: Instr) {
    || b == a
    || (0x2B <= a.op <= 0x37 && b == Instr(a.op + 13, a.arg, a.target))
    || (a.op == 0xDE && b == Instr(0xDD, a.arg, a.target))
  }

  lemma {:induction false} SameBranchIs(a: Instr, b: Instr)
    ensures SameBranch(a, b) <==> SameOrLonger(a, b)
  {
  }

  lemma {:induction false} ReachesIs(c: Code, i: nat)
    requires i < |c| && c[i].target <= |c|
    ensures ReachesByByte(c, i) <==> !TooFar(c, i)
  {
    hide Offset;
  }

  /** Relaxation changes nothing but short branches into their long forms, and every branch
      left short reaches its target ... */
  lemma {:induction false} RelaxedByOpcode(c: Code, i: nat)
    requires WellFormed(c) && i < |c|
    ensures var d := Relax(c); SameBranch(c[i], d[i]) && d[i].target <= |d| && ReachesByByte(d, i)
  {
    hide Relax, SameOrLonger, SameBranch, ReachesByByte, TooFar;
    RelaxIsConsistent(c);
    var d := Relax(c);
    SameBranchIs(c[i], d[i]);
    ReachesIs(d, i);
  }

  /** ... and no branch is made long that could have stayed short: one that is long
      afterwards is long in every such layout. */
  lemma {:induction false} RelaxedNoMore(c: Code, d: Code, i: nat)
    requires WellFormed(c) && WellFormed(d) && |c| == |d| && i < |c|
    requires forall j :: 0 <= j < |c| ==> SameBranch(c[j], d[j]) && ReachesByByte(d, j)
    ensures SameBranch(Relax(c)[i], d[i])
  {
    hide Relax, SameOrLonger, SameBranch, ReachesByByte, TooFar;
    forall j | 0 <= j < |c| ensures SameOrLonger(c[j], d[j]) && !TooFar(d, j) {
      SameBranchIs(c[j], d[j]);
      ReachesIs(d, j);
    }
    RelaxIsLeast(c, d);
    SameBranchIs(Relax(c)[i], d[i]);
  }
}
