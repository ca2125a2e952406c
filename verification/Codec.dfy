/** The instruction stream: what ImportIL reads and Export writes. */
module Codec {
  import opened Wrappers
  import opened Opcodes
  import opened Layout
  import opened Bytes

  // ----- writing -----

  function OpcodeBytes(op: nat): (bs: seq<byte>)
    requires Known(op)
    ensures |bs| == OpcodeLength(op)
  {
    if op >= COUNT then [] else if op >= 0x100 then [PREFIX1, op - 0x100] else [op]
  }

  /** What the entries of a switch table are relative to: the end of the table
      of the last switch before entry i. */
  function SwitchBase(c: Code, i: nat): int
    requires i <= |c|
  {
    if i == 0 then 0
    else if c[i - 1].op == SWITCH then Offset(c, i - 1) + 1 + 4 * (c[i - 1].arg + 1)
    else SwitchBase(c, i - 1)
  }

  function OperandValue(c: Code, i: nat): int
    requires WellFormed(c) && i < |c|
  {
    if c[i].op == SWITCH_ARG then Offset(c, c[i].target) - SwitchBase(c, i)
    else if HasTarget(c[i].op) then Delta(c, i)
    else c[i].arg
  }

  function EncodeEntry(c: Code, i: nat): (bs: seq<byte>)
    requires WellFormed(c) && i < |c|
    ensures |bs| == Size(c[i].op)
  {
    OpcodeBytes(c[i].op) + LittleEndian(OperandValue(c, i), OperandLength(c[i].op))
  }

  /** The bytes of the first n entries. */
  function Encode(c: Code, n: nat): (bs: seq<byte>)
    requires WellFormed(c) && n <= |c|
    ensures |bs| == Offset(c, n)
  {
    if n == 0 then [] else Encode(c, n - 1) + EncodeEntry(c, n - 1)
  }

  // ----- reading -----

  /** A decoded entry before targets are resolved. For a branch, arg is the
      absolute byte offset of the target and base the offset it is relative to. */
  datatype Raw = Raw(start: nat, op: nat, arg: int, base: int)

  /** Opcode at offset o and the offset after it. */
  function ReadOpcode(il: seq<byte>, o: nat): (r: Option<(nat, nat)>)
    requires o < |il|
    ensures r.Some? ==> Decodable(r.value.0) && r.value.1 == o + OpcodeLength(r.value.0) <= |il|
                        && il[o..r.value.1] == OpcodeBytes(r.value.0)
  {
    if il[o] == PREFIX1 then
      if o + 1 >= |il| || 0x100 + il[o + 1] as int >= COUNT then None else Some((0x100 + il[o + 1] as int, o + 2))
    else if PREFIX7 <= il[o] <= PREFIX2 then None
    else Some((il[o], o + 1))
  }

  function ReadArms(il: seq<byte>, o: nat, n: nat, base: nat): (arms: seq<Raw>)
    requires o + 4 * n <= |il|
    ensures |arms| == n
  {
    seq(n, j requires 0 <= j < n =>
      Raw(o + 4 * j, SWITCH_ARG, base + Signed(il[o + 4 * j..o + 4 * j + 4]), base))
  }

  function Prepend(head: seq<Raw>, tail: Option<seq<Raw>>): Option<seq<Raw>> {
    if tail.None? then None else Some(head + tail.value)
  }

  /** The entries decoded at offset p for opcode op that started at o, and where they end. */
  function ReadEntry(il: seq<byte>, o: nat, op: nat, p: nat): (r: Option<(seq<Raw>, nat)>)
    requires p == o + OpcodeLength(op) <= |il| && op < COUNT
    ensures r.Some? ==> o < r.value.1 <= |il|
  {
    if p + OperandLength(op) > |il| then None else
    var q := p + OperandLength(op);
    var v := Signed(il[p..q]);
    if op == SWITCH then
      if v < 0 || q + 4 * v > |il| then None
      else Some(([Raw(o, op, v, 0)] + ReadArms(il, q, v, q + 4 * v), q + 4 * v))
    else if HasTarget(op) then Some(([Raw(o, op, q + v, q)], q))
    else Some(([Raw(o, op, v, 0)], q))
  }

  /** All entries from offset o on, or None where the decoder reports an invalid program. */
  function Parse(il: seq<byte>, o: nat): Option<seq<Raw>>
    requires o <= |il|
    decreases |il| - o
  {
    if o == |il| then Some([]) else
    var opcode := ReadOpcode(il, o);
    if opcode.None? then None else
    var entry := ReadEntry(il, o, opcode.value.0, opcode.value.1);
    if entry.None? then None else Prepend(entry.value.0, Parse(il, entry.value.1))
  }

  /** Position of the entry that starts at a byte offset; the code size stands for the end. */
  function Find(raws: seq<Raw>, size: nat, o: int): (r: Option<nat>)
    ensures r.Some? ==> r.value <= |raws|
  {
    if o == size then Some(|raws|) else FindStart(raws, o)
  }

  function FindStart(raws: seq<Raw>, o: int): (r: Option<nat>)
    ensures r.Some? ==> r.value < |raws| && raws[r.value].start == o && raws[r.value].op != SWITCH_ARG
    ensures r.None? ==> forall i :: 0 <= i < |raws| && raws[i].start == o ==> raws[i].op == SWITCH_ARG
  {
    if raws == [] then None
    else
      var n := |raws| - 1;
      if raws[n].start == o && raws[n].op != SWITCH_ARG then Some(n)
      else
        var r := FindStart(raws[..n], o);
        r
  }

  datatype Decoding =
    | Invalid                // the decoder reports an invalid program
    | Dangling               // a branch does not lead to the start of an entry
    | Accepted(code: Code)

  predicate Resolvable(raws: seq<Raw>, size: nat) {
    forall i :: 0 <= i < |raws| && HasTarget(raws[i].op) ==> Find(raws, size, raws[i].arg).Some?
  }

  function ResolveEntry(raws: seq<Raw>, size: nat, i: nat): Instr
    requires Resolvable(raws, size) && i < |raws|
  {
    if HasTarget(raws[i].op) then Instr(raws[i].op, 0, Find(raws, size, raws[i].arg).value)
    else Instr(raws[i].op, raws[i].arg, 0)
  }

  function Resolve(raws: seq<Raw>, size: nat): (c: Code)
    requires Resolvable(raws, size)
    ensures |c| == |raws|
    ensures forall i :: 0 <= i < |c| ==> c[i] == ResolveEntry(raws, size, i)
  {
    seq(|raws|, i requires 0 <= i < |raws| => ResolveEntry(raws, size, i))
  }

  function Import(il: seq<byte>): Decoding {
    var raws := Parse(il, 0);
    if raws.None? then Invalid
    else if !Resolvable(raws.value, |il|) then Dangling
    else Accepted(Resolve(raws.value, |il|))
  }

  // ----- what the decoder's output looks like -----

  function RawEnd(r: Raw): nat { r.start + Size(r.op) }

  function RawOperand(r: Raw): int {
    if HasTarget(r.op) then r.arg - r.base else r.arg
  }

  /** The bytes of an entry are its opcode and its operand. */
  predicate Written(il: seq<byte>, r: Raw) {
    && (Decodable(r.op) || r.op == SWITCH_ARG)
    && RawEnd(r) <= |il|
    && il[r.start..RawEnd(r)] == OpcodeBytes(r.op) + LittleEndian(RawOperand(r), OperandLength(r.op))
    && Fits(RawOperand(r), OperandLength(r.op))
    && (HasTarget(r.op) && r.op != SWITCH_ARG ==> r.base == RawEnd(r))
  }

  /** A switch is followed by exactly its table, whose entries share the table's base. */
  predicate Tabled(rs: seq<Raw>, i: nat)
    requires i < |rs|
  {
    var r := rs[i];
    && (r.op == SWITCH ==> r.arg >= 0 && i + r.arg < |rs|
                           && (forall j :: i < j <= i + r.arg ==> rs[j].op == SWITCH_ARG)
                           && (i + r.arg + 1 < |rs| ==> rs[i + r.arg + 1].op != SWITCH_ARG))
    && (r.op == SWITCH_ARG ==>
          i > 0 && ((rs[i - 1].op == SWITCH && r.base == rs[i - 1].start + 5 + 4 * rs[i - 1].arg)
                    || (rs[i - 1].op == SWITCH_ARG && r.base == rs[i - 1].base)))
  }

  /** Entry i holds its own bytes and is followed directly by the next entry. */
  predicate RawOk(il: seq<byte>, rs: seq<Raw>, i: nat)
    requires i < |rs|
  {
    && Written(il, rs[i])
    && RawEnd(rs[i]) == (if i + 1 < |rs| then rs[i + 1].start else |il|)
    && Tabled(rs, i)
  }

  ghost predicate RawsOk(il: seq<byte>, rs: seq<Raw>, o: nat) {
    && (if rs == [] then o == |il| else rs[0].start == o)
    && (forall i :: 0 <= i < |rs| ==> RawOk(il, rs, i))
  }

  /** Reading four or fewer bytes back gives the operand they were written from. */
  lemma {:induction false} OperandOk(il: seq<byte>, p: nat, q: nat)
    requires p <= q <= |il|
    ensures Fits(Signed(il[p..q]), q - p) && LittleEndian(Signed(il[p..q]), q - p) == il[p..q]
  {
    SignedFits(il[p..q]);
    LittleEndianOfSigned(il[p..q]);
  }

  lemma {:induction false} ArmOk(il: seq<byte>, head: seq<Raw>, m: nat, n: nat, i: nat)
    requires m + 4 * n == |il| && |head| == n + 1 && head[0].op == SWITCH && head[0].start + 5 == m
    requires head[0].arg == n && head[1..] == ReadArms(il, m, n, |il|)
    requires 1 <= i <= n
    ensures RawOk(il, head, i)
  {
    hide OperandSize, Signed, LittleEndian, Half;
    var s := m + 4 * (i - 1);
    OperandOk(il, s, s + 4);
    assert head[i] == head[1..][i - 1] == Raw(s, SWITCH_ARG, |il| + Signed(il[s..s + 4]), |il|);
    assert i > 1 ==> head[i - 1] == head[1..][i - 2];
    assert i < n ==> head[i + 1] == head[1..][i];
    assert OpcodeBytes(SWITCH_ARG) + il[s..s + 4] == il[s..s + 4];
    assert Written(il, head[i]);
    assert RawEnd(head[i]) == (if i + 1 < |head| then head[i + 1].start else |il|);
    assert Tabled(head, i);
  }

  lemma {:induction false} EntryOk(il: seq<byte>, o: nat, op: nat, p: nat)
    requires o < p == o + OpcodeLength(op) <= |il| && Decodable(op) && il[o..p] == OpcodeBytes(op)
    requires ReadEntry(il, o, op, p).Some? && ReadEntry(il, o, op, p).value.1 == |il|
    ensures var head := ReadEntry(il, o, op, p).value.0;
            |head| > 0 && head[0].start == o && head[0].op == op
            && (forall i :: 0 <= i < |head| ==> RawOk(il, head, i))
  {
    hide OperandSize, Signed, LittleEndian, Half, OpcodeBytes;
    var head := ReadEntry(il, o, op, p).value.0;
    var m := p + OperandLength(op);
    OperandOk(il, p, m);
    assert il[o..m] == il[o..p] + il[p..m];
    assert RawOperand(head[0]) == Signed(il[p..m]);
    assert RawEnd(head[0]) == m;
    if op == SWITCH {
      var n := Signed(il[p..m]);
      assert head[1..] == ReadArms(il, m, n, |il|);
      forall i | 1 <= i <= n ensures RawOk(il, head, i) && head[i].op == SWITCH_ARG {
        ArmOk(il, head, m, n, i);
        assert head[i] == head[1..][i - 1];
      }
      assert n > 0 ==> head[1] == head[1..][0];
      assert RawOk(il, head, 0);
    }
  }

  /** An entry does not look past its own end. */
  lemma {:induction false} EntryIsLocal(il: seq<byte>, o: nat, op: nat, p: nat)
    requires o < p == o + OpcodeLength(op) <= |il| && Decodable(op)
    requires ReadEntry(il, o, op, p).Some?
    ensures var q := ReadEntry(il, o, op, p).value.1;
            p <= q && ReadEntry(il[..q], o, op, p) == ReadEntry(il, o, op, p)
  {
    var (head, q) := ReadEntry(il, o, op, p).value;
    var m := p + OperandLength(op);
    var front := il[..q];
    assert front[p..m] == il[p..m];
    if op == SWITCH {
      var n := Signed(il[p..m]);
      forall j | 0 <= j < n ensures front[m + 4 * j..m + 4 * j + 4] == il[m + 4 * j..m + 4 * j + 4] {
      }
      assert ReadArms(front, m, n, q) == ReadArms(il, m, n, q);
    }
  }

  lemma {:induction false} PrefixSlice(s: seq<byte>, q: nat, a: nat, b: nat)
    requires a <= b <= q <= |s|
    ensures s[..q][a..b] == s[a..b]
  {
  }

  lemma {:induction false} RawsOkAppend(il: seq<byte>, head: seq<Raw>, q: nat, rest: seq<Raw>)
    requires q <= |il| && |head| > 0
    requires forall i :: 0 <= i < |head| ==> RawOk(il[..q], head, i)
    requires RawsOk(il, rest, q) && (rest != [] ==> rest[0].op != SWITCH_ARG)
    ensures RawsOk(il, head + rest, head[0].start)
  {
    hide OperandLength, OpcodeBytes, LittleEndian, Fits, HasTarget;
    var rs := head + rest;
    forall i | 0 <= i < |rs| ensures RawOk(il, rs, i) {
      if i < |head| {
        assert RawOk(il[..q], head, i);
        var r := head[i];
        PrefixSlice(il, q, r.start, RawEnd(r));
      } else {
        assert RawOk(il, rest, i - |head|);
        assert rs[i] == rest[i - |head|];
      }
    }
  }

  lemma {:induction false} ParsedOk(il: seq<byte>, o: nat)
    requires o <= |il| && Parse(il, o).Some?
    ensures RawsOk(il, Parse(il, o).value, o)
    ensures Parse(il, o).value != [] ==> Parse(il, o).value[0].op != SWITCH_ARG
    decreases |il| - o
  {
    if o < |il| {
      var (op, p) := ReadOpcode(il, o).value;
      var (head, q) := ReadEntry(il, o, op, p).value;
      EntryIsLocal(il, o, op, p);
      assert il[..q][o..p] == il[o..p];
      EntryOk(il[..q], o, op, p);
      ParsedOk(il, q);
      RawsOkAppend(il, head, q, Parse(il, q).value);
    }
  }

  // ----- Export after Import is the identity -----

  function StartOf(il: seq<byte>, rs: seq<Raw>, i: nat): nat
    requires i <= |rs|
  {
    if i < |rs| then rs[i].start else |il|
  }

  lemma {:induction false} ImportedOffset(il: seq<byte>, rs: seq<Raw>, i: nat)
    requires RawsOk(il, rs, 0) && Resolvable(rs, |il|) && i <= |rs|
    ensures Offset(Resolve(rs, |il|), i) == StartOf(il, rs, i)
  {
    hide Size;
    if i > 0 {
      ImportedOffset(il, rs, i - 1);
      assert RawOk(il, rs, i - 1);
    }
  }

  lemma {:induction false} ImportedBase(il: seq<byte>, rs: seq<Raw>, i: nat)
    requires RawsOk(il, rs, 0) && Resolvable(rs, |il|) && i < |rs| && rs[i].op == SWITCH_ARG
    ensures SwitchBase(Resolve(rs, |il|), i) == rs[i].base
  {
    hide Size, OperandSize;
    assert RawOk(il, rs, i);
    ImportedOffset(il, rs, i - 1);
    if rs[i - 1].op == SWITCH_ARG {
      ImportedBase(il, rs, i - 1);
    }
  }

  lemma {:induction false} ImportedWellFormed(il: seq<byte>, rs: seq<Raw>)
    requires RawsOk(il, rs, 0) && Resolvable(rs, |il|)
    ensures WellFormed(Resolve(rs, |il|))
  {
    hide Size, OperandSize;
    var c := Resolve(rs, |il|);
    forall i | 0 <= i < |c| ensures Known(c[i].op) && c[i].target <= |c| {
      assert RawOk(il, rs, i);
    }
  }

  lemma {:induction false} ImportedOperand(il: seq<byte>, rs: seq<Raw>, i: nat)
    requires RawsOk(il, rs, 0) && Resolvable(rs, |il|) && i < |rs| && WellFormed(Resolve(rs, |il|))
    ensures OperandValue(Resolve(rs, |il|), i) == RawOperand(rs[i])
  {
    hide Size, OperandSize;
    var c := Resolve(rs, |il|);
    assert RawOk(il, rs, i);
    assert c[i] == ResolveEntry(rs, |il|, i);
    ImportedOffset(il, rs, i + 1);
    if HasTarget(rs[i].op) {
      assert Find(rs, |il|, rs[i].arg).Some?;
      ImportedOffset(il, rs, c[i].target);
      if rs[i].op == SWITCH_ARG {
        ImportedBase(il, rs, i);
      }
    }
  }

  lemma {:induction false} ImportedBytes(il: seq<byte>, rs: seq<Raw>, n: nat)
    requires RawsOk(il, rs, 0) && Resolvable(rs, |il|) && n <= |rs| && WellFormed(Resolve(rs, |il|))
    ensures StartOf(il, rs, n) <= |il|
    ensures Encode(Resolve(rs, |il|), n) == il[..StartOf(il, rs, n)]
  {
    hide OperandLength, OpcodeBytes, OperandValue, RawOperand, LittleEndian, Offset, Fits, HasTarget, Tabled;
    if n > 0 {
      ImportedBytes(il, rs, n - 1);
      ImportedOperand(il, rs, n - 1);
      assert RawOk(il, rs, n - 1);
      var a, b := rs[n - 1].start, StartOf(il, rs, n);
      assert il[..b] == il[..a] + il[a..b];
    }
  }

  lemma {:induction false} ImportedConsistent(il: seq<byte>, rs: seq<Raw>)
    requires RawsOk(il, rs, 0) && Resolvable(rs, |il|) && WellFormed(Resolve(rs, |il|))
    ensures Consistent(Resolve(rs, |il|))
  {
    hide OperandSize;
    var c := Resolve(rs, |il|);
    forall i | 0 <= i < |c| ensures !TooFar(c, i) {
      assert RawOk(il, rs, i);
      assert c[i] == ResolveEntry(rs, |il|, i);
      ImportedOperand(il, rs, i);
    }
  }

  /** Whatever Import accepts, Export writes back byte for byte, with no branch widened. */
  lemma {:induction false} ExportOfImport(il: seq<byte>)
    requires Import(il).Accepted?
    ensures var c := Import(il).code;
            && WellFormed(c)
            && Relax(c) == c
            && Encode(c, |c|) == il
  {
    var rs := Parse(il, 0).value;
    ParsedOk(il, 0);
    ImportedWellFormed(il, rs);
    ImportedConsistent(il, rs);
    var c := Resolve(rs, |il|);
    WidenPassWidens(c);
    ImportedBytes(il, rs, |rs|);
  }

  // ----- Import after Export is the identity -----

  /** The lists Export is meant for: operands fit their width, targets are
      entries a branch may name, and every switch carries exactly its table. */
  predicate EntryCanonical(c: Code, i: nat)
    requires i < |c|
  {
    var e := c[i];
    && (Decodable(e.op) || e.op == SWITCH_ARG)
    && (if HasTarget(e.op) then
          e.arg == 0 && e.target <= |c| && (e.target < |c| ==> c[e.target].op != SWITCH_ARG)
        else e.target == 0 && Fits(e.arg, OperandLength(e.op)))
    && (e.op == SWITCH ==> e.arg >= 0 && i + e.arg < |c|
                           && (forall j :: i < j <= i + e.arg ==> c[j].op == SWITCH_ARG)
                           && (i + e.arg + 1 < |c| ==> c[i + e.arg + 1].op != SWITCH_ARG))
    && (e.op == SWITCH_ARG ==> i > 0 && (c[i - 1].op == SWITCH || c[i - 1].op == SWITCH_ARG))
  }

  ghost predicate Canonical(c: Code) {
    forall i :: 0 <= i < |c| ==> EntryCanonical(c, i)
  }

  lemma {:induction false} CanonicalWellFormed(c: Code)
    requires Canonical(c)
    ensures WellFormed(c)
  {
    hide OperandLength;
    forall i | 0 <= i < |c| ensures Known(c[i].op) && c[i].target <= |c| {
      assert EntryCanonical(c, i);
    }
  }

  /** Small enough that every displacement fits four bytes. */
  predicate Small(c: Code) {
    10 * |c| < 0x8000_0000
  }

  /** A list in its final layout, ready to be written out. */
  ghost predicate Exportable(c: Code)
    requires WellFormed(c)
  {
    Canonical(c) && Consistent(c) && Small(c)
  }

  lemma {:induction false} CanonicalOf(c: Code)
    requires WellFormed(c) && Exportable(c)
    ensures Canonical(c)
  {
  }

  lemma {:induction false} CanonicalAt(c: Code, i: nat)
    requires WellFormed(c) && Exportable(c) && i < |c|
    ensures EntryCanonical(c, i)
  {
  }

  lemma {:induction false} OffsetsIncrease(c: Code, i: nat, j: nat)
    requires WellFormed(c) && i < j <= |c|
    ensures Offset(c, i) < Offset(c, j)
  {
    hide Size;
    if i < j - 1 {
      OffsetsIncrease(c, i, j - 1);
    }
  }

  /** What Parse finds at entry i. */
  function RawOf(c: Code, i: nat): Raw
    requires WellFormed(c) && i < |c|
  {
    if c[i].op == SWITCH_ARG then Raw(Offset(c, i), c[i].op, Offset(c, c[i].target), SwitchBase(c, i))
    else if HasTarget(c[i].op) then Raw(Offset(c, i), c[i].op, Offset(c, c[i].target), Offset(c, i + 1))
    else Raw(Offset(c, i), c[i].op, c[i].arg, 0)
  }

  function RawsOf(c: Code, i: nat): (rs: seq<Raw>)
    requires WellFormed(c) && i <= |c|
    ensures |rs| == |c| - i
  {
    seq(|c| - i, k requires 0 <= k < |c| - i => RawOf(c, i + k))
  }

  lemma {:induction false} EncodeSlice(c: Code, i: nat, n: nat)
    requires WellFormed(c) && i < n <= |c|
    ensures Offset(c, i) <= Offset(c, i + 1) <= Offset(c, n)
    ensures Encode(c, n)[Offset(c, i)..Offset(c, i + 1)] == EncodeEntry(c, i)
  {
    hide Size, OperandLength, EncodeEntry;
    if i < n - 1 {
      EncodeSlice(c, i, n - 1);
      OffsetsIncrease(c, n - 1, n);
    }
  }

  lemma {:induction false} TableBase(c: Code, s: nat, j: nat)
    requires Canonical(c) && WellFormed(c) && s < |c| && c[s].op == SWITCH
    requires s < j <= s + c[s].arg < |c|
    ensures SwitchBase(c, j) == Offset(c, s) + 5 + 4 * c[s].arg
    ensures Offset(c, j) == Offset(c, s) + 5 + 4 * (j - s - 1)
  {
    assert EntryCanonical(c, s);
    if j > s + 1 {
      TableBase(c, s, j - 1);
    }
  }

  lemma {:induction false} OperandFits(c: Code, i: nat)
    requires WellFormed(c) && Exportable(c) && i < |c|
    ensures Fits(OperandValue(c, i), OperandLength(c[i].op))
  {
    hide OperandSize;
    CanonicalAt(c, i);
    assert Half(1) == 128 && Half(2) == 0x8000 && Half(3) == 0x80_0000 && Half(4) == 0x8000_0000;
    assert !TooFar(c, i);
    if c[i].op == SWITCH_ARG {
      SwitchBaseBound(c, i);
    }
  }

  lemma {:induction false} SwitchBaseBound(c: Code, i: nat)
    requires Canonical(c) && WellFormed(c) && i < |c| && c[i].op == SWITCH_ARG
    ensures exists s :: 0 <= s < i <= s + c[s].arg < |c| && c[s].op == SWITCH
                        && SwitchBase(c, i) == Offset(c, s + c[s].arg + 1)
    ensures 0 <= SwitchBase(c, i) <= 10 * |c|
  {
    var s := TableOf(c, i);
    TableBase(c, s, i);
    TableBase(c, s, s + c[s].arg);
    assert EntryCanonical(c, s);
    assert c[s + c[s].arg].op == SWITCH_ARG;
    assert SwitchBase(c, i) == Offset(c, s + c[s].arg + 1);
  }

  /** The switch that entry i of a table belongs to. */
  lemma {:induction false} TableOf(c: Code, i: nat) returns (s: nat)
    requires Canonical(c) && i < |c| && c[i].op == SWITCH_ARG
    ensures s < i <= s + c[s].arg < |c| && c[s].op == SWITCH
  {
    assert EntryCanonical(c, i);
    assert EntryCanonical(c, i - 1);
    if c[i - 1].op == SWITCH {
      s := i - 1;
    } else {
      s := TableOf(c, i - 1);
      assert EntryCanonical(c, s);
    }
  }

  lemma {:induction false} ReadBackOperand(c: Code, il: seq<byte>, i: nat)
    requires WellFormed(c) && Exportable(c) && i < |c| && il == Encode(c, |c|)
    ensures Offset(c, i) + OpcodeLength(c[i].op) + OperandLength(c[i].op) == Offset(c, i + 1) <= |il|
    ensures il[Offset(c, i)..Offset(c, i) + OpcodeLength(c[i].op)] == OpcodeBytes(c[i].op)
    ensures Signed(il[Offset(c, i) + OpcodeLength(c[i].op)..Offset(c, i + 1)]) == OperandValue(c, i)
  {
    hide OpcodeLength, OperandLength, OpcodeBytes, Exportable, Encode;
    EncodeSlice(c, i, |c|);
    OperandFits(c, i);
    SignedOfLittleEndian(OperandValue(c, i), OperandLength(c[i].op));
    var a, p, b := Offset(c, i), Offset(c, i) + OpcodeLength(c[i].op), Offset(c, i + 1);
    SliceInTwo(il, a, p, b);
  }

  lemma {:induction false} SliceInTwo(s: seq<byte>, a: nat, p: nat, b: nat)
    requires a <= p <= b <= |s|
    ensures s[a..p] == s[a..b][..p - a] && s[p..b] == s[a..b][p - a..]
  {
  }

  lemma {:induction false} ReadBackOpcode(c: Code, il: seq<byte>, i: nat)
    requires WellFormed(c) && Exportable(c) && i < |c| && il == Encode(c, |c|)
    requires c[i].op != SWITCH_ARG
    ensures Offset(c, i) < |il|
    ensures ReadOpcode(il, Offset(c, i)) == Some((c[i].op, Offset(c, i) + OpcodeLength(c[i].op)))
  {
    hide OperandLength, Exportable, Encode, OperandValue, Offset, Signed;
    ReadBackOperand(c, il, i);
    assert Decodable(c[i].op) by { CanonicalAt(c, i); }
    var a := Offset(c, i);
    var bs := OpcodeBytes(c[i].op);
    assert il[a..a + |bs|] == bs;
    assert il[a] == bs[0];
    if c[i].op >= 0x100 {
      assert il[a + 1] == bs[1];
    }
  }

  lemma {:induction false} ReadBackArm(c: Code, il: seq<byte>, s: nat, j: nat)
    requires WellFormed(c) && Exportable(c) && il == Encode(c, |c|)
    requires s < |c| && s < j <= s + c[s].arg < |c| && c[s].op == SWITCH
    ensures var m := Offset(c, s) + 5; var o := m + 4 * (j - s - 1); var base := m + 4 * c[s].arg;
            o + 4 <= |il| && Raw(o, SWITCH_ARG, base + Signed(il[o..o + 4]), base) == RawOf(c, j)
  {
    hide OperandSize, Exportable, Encode, Offset, Signed;
    assert c[j].op == SWITCH_ARG by { CanonicalAt(c, s); }
    assert Canonical(c) by { CanonicalOf(c); }
    TableBase(c, s, j);
    ReadBackOperand(c, il, j);
  }

  function EntriesAt(c: Code, i: nat): int
    requires i < |c|
  {
    if c[i].op == SWITCH then 1 + c[i].arg else 1
  }

  lemma {:induction false} ReadBackPlain(c: Code, il: seq<byte>, i: nat)
    requires WellFormed(c) && Exportable(c) && il == Encode(c, |c|)
    requires i < |c| && c[i].op != SWITCH_ARG && c[i].op != SWITCH
    ensures Offset(c, i) + OpcodeLength(c[i].op) <= |il| && c[i].op < COUNT
    ensures ReadEntry(il, Offset(c, i), c[i].op, Offset(c, i) + OpcodeLength(c[i].op))
            == Some(([RawOf(c, i)], Offset(c, i + 1)))
  {
    hide OperandLength, OpcodeLength, Exportable, Encode, Offset, Signed;
    ReadBackOperand(c, il, i);
  }

  lemma {:induction false} SizeAt(c: Code, i: nat)
    requires i < |c|
    ensures Offset(c, i + 1) == Offset(c, i) + Size(c[i].op)
  {
  }

  lemma {:induction false} TableEnd(c: Code, i: nat)
    requires WellFormed(c) && Exportable(c) && i < |c| && c[i].op == SWITCH
    ensures 0 <= c[i].arg < |c| - i && Offset(c, i + 1) == Offset(c, i) + 5
    ensures Offset(c, i + 1 + c[i].arg) == Offset(c, i + 1) + 4 * c[i].arg <= Offset(c, |c|)
    ensures i + 1 + c[i].arg < |c| ==> c[i + 1 + c[i].arg].op != SWITCH_ARG
  {
    hide OperandSize, Exportable, SwitchBase, Canonical, Offset, Fits;
    CanonicalAt(c, i);
    CanonicalOf(c);
    var j := i + c[i].arg;
    SizeAt(c, i);
    if c[i].arg > 0 {
      TableBase(c, i, j);
      assert c[j].op == SWITCH_ARG;
      SizeAt(c, j);
    }
    if j + 1 < |c| {
      OffsetsIncrease(c, j + 1, |c|);
    }
  }

  lemma {:induction false} ReadBackSwitch(c: Code, il: seq<byte>, i: nat)
    requires WellFormed(c) && Exportable(c) && il == Encode(c, |c|)
    requires i < |c| && c[i].op == SWITCH
    ensures Offset(c, i) + 1 <= |il| && 0 <= c[i].arg < |c| - i
    ensures ReadEntry(il, Offset(c, i), SWITCH, Offset(c, i) + 1)
            == Some((RawsOf(c, i)[..1 + c[i].arg], Offset(c, i + 1 + c[i].arg)))
  {
    hide OperandSize, Exportable, Encode, Offset, Signed;
    ReadBackOperand(c, il, i);
    TableEnd(c, i);
    var n, m := c[i].arg, Offset(c, i + 1);
    var arms := ReadArms(il, m, n, m + 4 * n);
    forall k | 0 <= k < n ensures arms[k] == RawsOf(c, i)[1 + k] {
      ReadBackArm(c, il, i, i + 1 + k);
    }
    assert [RawOf(c, i)] + arms == RawsOf(c, i)[..n + 1];
  }

  lemma {:induction false} ReadBackEntry(c: Code, il: seq<byte>, i: nat)
    requires WellFormed(c) && Exportable(c) && il == Encode(c, |c|)
    requires i < |c| && c[i].op != SWITCH_ARG
    ensures Offset(c, i) + OpcodeLength(c[i].op) <= |il| && c[i].op < COUNT
    ensures var n := EntriesAt(c, i);
            && n > 0 && i + n <= |c| && (i + n < |c| ==> c[i + n].op != SWITCH_ARG)
            && ReadEntry(il, Offset(c, i), c[i].op, Offset(c, i) + OpcodeLength(c[i].op))
               == Some((RawsOf(c, i)[..n], Offset(c, i + n)))
  {
    hide OperandLength, RawOf, ReadEntry, Offset, Exportable, Encode;
    if c[i].op == SWITCH {
      ReadBackSwitch(c, il, i);
      TableEnd(c, i);
    } else {
      ReadBackPlain(c, il, i);
      if i + 1 < |c| {
        CanonicalAt(c, i + 1);
      }
      assert RawsOf(c, i)[..1] == [RawOf(c, i)];
    }
  }

  lemma {:induction false} ParseOfEncode(c: Code, il: seq<byte>, i: nat)
    requires WellFormed(c) && Exportable(c) && il == Encode(c, |c|)
    requires i <= |c| && (i < |c| ==> c[i].op != SWITCH_ARG)
    ensures Offset(c, i) <= |il| && Parse(il, Offset(c, i)) == Some(RawsOf(c, i))
    decreases |c| - i
  {
    hide Size, OperandLength, OpcodeLength, ReadEntry, ReadOpcode, RawOf, Exportable, Encode, Offset, EntriesAt;
    if i < |c| {
      ReadBackOpcode(c, il, i);
      ReadBackEntry(c, il, i);
      var n := EntriesAt(c, i);
      ParseOfEncode(c, il, i + n);
      assert RawsOf(c, i) == RawsOf(c, i)[..n] + RawsOf(c, i + n);
    }
  }

  lemma {:induction false} FindOffset(c: Code, t: nat)
    requires WellFormed(c) && t <= |c| && (t < |c| ==> c[t].op != SWITCH_ARG)
    ensures Find(RawsOf(c, 0), Offset(c, |c|), Offset(c, t)) == Some(t)
  {
    hide Size, OperandSize, Offset;
    if t < |c| {
      OffsetsIncrease(c, t, |c|);
      var rs := RawsOf(c, 0);
      assert rs[t] == RawOf(c, t) && rs[t].start == Offset(c, t);
      var r := FindStart(rs, Offset(c, t));
      assert r.Some?;
      var u := r.value;
      assert rs[u] == RawOf(c, u) && rs[u].start == Offset(c, u);
      if u < t { OffsetsIncrease(c, u, t); } else if t < u { OffsetsIncrease(c, t, u); }
    }
  }

  /** Importing an exported list gives the list back, with its short and long branches as laid out. */
  lemma {:induction false} ImportOfExport(c: Code)
    requires WellFormed(c) && Exportable(c)
    ensures Import(Encode(c, |c|)) == Accepted(c)
  {
    hide OperandLength, Size, Parse, Exportable, Encode;
    var il := Encode(c, |c|);
    if c != [] {
      CanonicalAt(c, 0);
    }
    ParseOfEncode(c, il, 0);
    var rs := RawsOf(c, 0);
    forall i | 0 <= i < |c|
      ensures HasTarget(rs[i].op) ==> Find(rs, |il|, rs[i].arg) == Some(c[i].target)
      ensures rs[i].op == c[i].op && (!HasTarget(rs[i].op) ==> c[i] == Instr(rs[i].op, rs[i].arg, 0))
    {
      CanonicalAt(c, i);
      assert rs[i] == RawOf(c, i);
      FindOffset(c, c[i].target);
    }
    assert Resolvable(rs, |il|);
    forall i | 0 <= i < |c| ensures ResolveEntry(rs, |il|, i) == c[i] {
      CanonicalAt(c, i);
    }
    assert Resolve(rs, |il|) == c;
  }
}
