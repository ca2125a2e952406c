/** The opcode table the rewriter works from: operand layout, branch and
    switch marking, evaluation-stack pushes and the short/long branch pairs. */
module Opcodes {
  const NOP := 0x00
  const LDC_I4_0 := 0x16
  const LDC_I4 := 0x20
  const LDC_I8 := 0x21
  const CALL := 0x28
  const CALLI := 0x29
  const RET := 0x2A
  const BR_S := 0x2B
  const BLT_UN_S := 0x37
  const BR := 0x38
  const BLT_UN := 0x44
  const SWITCH := 0x45
  const CALLVIRT := 0x6F
  const NEWOBJ := 0x73
  const THROW := 0x7A
  const STSFLD := 0x80
  const ENDFINALLY := 0xDC
  const LEAVE := 0xDD
  const LEAVE_S := 0xDE
  const PREFIX7 := 0xF8
  const PREFIX2 := 0xFD
  const PREFIX1 := 0xFE
  const ENDFILTER := 0x111
  const UNALIGNED := 0x112
  const VOLATILE := 0x113
  const TAILCALL := 0x114
  const CONSTRAINED := 0x116
  const RETHROW := 0x11A
  const READONLY := 0x11E
  const COUNT := 294
  /** Internal pseudo-opcode of one entry of a switch table. */
  const SWITCH_ARG := 295

  /** What follows the opcode bytes in the instruction stream. */
  datatype Layout =
    | Operand(size: nat)
    | ShortTarget
    | LongTarget
    | Table

  predicate IsShortBranch(op: nat) {
    BR_S <= op <= BLT_UN_S || op == LEAVE_S
  }

  /** Branches with a four-byte displacement, entries of switch tables included. */
  predicate IsLongBranch(op: nat) {
    BR <= op <= BLT_UN || op == LEAVE || op == SWITCH_ARG
  }

  predicate HasTarget(op: nat) {
    IsShortBranch(op) || IsLongBranch(op)
  }

  function OperandSize(op: nat): (size: nat)
    ensures size in {0, 1, 2, 4, 8}
  {
    if 0x0E <= op <= 0x13 || op == 0x1F || op == UNALIGNED then 1
    else if 0x109 <= op <= 0x10E then 2
    else if op == LDC_I4 || op == 0x22 || 0x27 <= op <= CALLI
            || CALLVIRT <= op <= 0x75 || op == 0x79 || 0x7B <= op <= 0x81
            || op == 0x8C || op == 0x8D || op == 0x8F || 0xA3 <= op <= 0xA5
            || op == 0xC2 || op == 0xC6 || op == 0xD0
            || op == 0x106 || op == 0x107 || op == 0x115 || op == CONSTRAINED
            || op == 0x11C then 4
    else if op == LDC_I8 || op == 0x23 then 8
    else 0
  }

  function LayoutOf(op: nat): Layout {
    if IsShortBranch(op) then ShortTarget
    else if IsLongBranch(op) then LongTarget
    else if op == SWITCH then Table
    else Operand(OperandSize(op))
  }

  /** Bytes of the opcode itself; a switch-table entry has none. */
  function OpcodeLength(op: nat): (n: nat)
    ensures n <= 2
  {
    if op >= COUNT then 0 else if op >= 0x100 then 2 else 1
  }

  function OperandLength(op: nat): (n: nat)
    ensures n <= 8
  {
    match LayoutOf(op)
    case Operand(size) => size
    case ShortTarget => 1
    case LongTarget => 4
    case Table => 4
  }

  /** Opcodes an instruction list may hold. */
  predicate Known(op: nat) {
    op < COUNT || op == SWITCH_ARG
  }

  /** Opcodes the decoder accepts: the lead bytes of unsupported pages are not. */
  predicate Decodable(op: nat) {
    op < COUNT && !(PREFIX7 <= op <= PREFIX1)
  }

  /** Encoded size of one list entry, counting only the fixed part of a switch. */
  function Size(op: nat): (n: nat)
    ensures n <= 10
    ensures Known(op) ==> 1 <= n
  {
    OpcodeLength(op) + OperandLength(op)
  }

  /** The long form of a short branch. */
  function Longer(op: nat): (long: nat)
    requires IsShortBranch(op)
    ensures IsLongBranch(long) && long < COUNT && Size(long) == Size(op) + 3
  {
    if op == LEAVE_S then LEAVE else op - BR_S + BR
  }

  /** br.s to blt.un.s become br to blt.un, in their order, and leave.s becomes leave; so
      two short branches never share a long form. */
  lemma {:induction false} LongerByOpcode(a: nat, b: nat)
    requires IsShortBranch(a) && IsShortBranch(b)
    ensures 0x2B <= a <= 0x37 || a == 0xDE
    ensures 0x2B <= a <= 0x37 ==> Longer(a) == a + 13 && 0x38 <= Longer(a) <= 0x44
    ensures a == 0xDE ==> Longer(a) == 0xDD
    ensures a < b <= 0x37 ==> Longer(a) < Longer(b)
    ensures Longer(a) == Longer(b) <==> a == b
  {
  }

  /** Values an instruction pushes, as AdjustState counts them. */
  function Pushes(op: nat): (n: nat)
    ensures n <= 2
  {
    if op == 0x25 then 2
    else if op <= 0x01 || 0x0A <= op <= 0x0D || op == 0x10 || op == 0x13 || op == 0x24
            || op == 0x26 || op == 0x27 || RET <= op <= SWITCH || 0x51 <= op <= 0x57
            || op == 0x70 || op == 0x77 || op == 0x78 || op == THROW || op == 0x7D
            || op == STSFLD || op == 0x81 || 0x9B <= op <= 0xA2 || op == 0xA4
            || 0xA6 <= op <= 0xB2 || 0xBB <= op <= 0xC1 || op == 0xC4 || op == 0xC5
            || 0xC7 <= op <= 0xCF || ENDFINALLY <= op <= 0xDF || 0xE1 <= op <= 0xFF
            || op == 0x108 || op == 0x10B || op == 0x10E || 0x110 <= op <= 0x11B
            || 0x11E <= op then 0
    else 1
  }

  predicate IsPrefix(op: nat) {
    op == TAILCALL || op == UNALIGNED || op == VOLATILE || op == READONLY || op == CONSTRAINED
  }

  /** The opcodes that get a branch probe. */
  predicate IsBranch(op: nat) {
    BR_S <= op <= SWITCH || op == LEAVE || op == LEAVE_S
  }

  predicate IsCall(op: nat) {
    op == CALL || op == CALLI || op == CALLVIRT || op == NEWOBJ
  }
}
