/** Two columns of the opcode table, opcode by opcode, and what the rewriter makes of them. */
module OpcodeTable {
  import opened Opcodes

  /** Operand kinds of Partition III of ECMA-335. */
  datatype Kind = InlineBrTarget | InlineField | InlineI | InlineI8 | InlineMethod | InlineNone | InlineR | InlineSig | InlineString | InlineSwitch | InlineTok | InlineType | InlineVar | ShortInlineBrTarget | ShortInlineI | ShortInlineR | ShortInlineVar

  /** The operand column, in runs of equal entries. */
  function KindOf(op: nat): Kind
    requires op < 294
  {
    if op <= 0x0D then InlineNone else if op <= 0x13 then ShortInlineVar else if op <= 0x1E then InlineNone else
    if op <= 0x1F then ShortInlineI else if op <= 0x20 then InlineI else if op <= 0x21 then InlineI8 else
    if op <= 0x22 then ShortInlineR else if op <= 0x23 then InlineR else if op <= 0x26 then InlineNone else
    if op <= 0x28 then InlineMethod else if op <= 0x29 then InlineSig else if op <= 0x2A then InlineNone else
    if op <= 0x37 then ShortInlineBrTarget else if op <= 0x44 then InlineBrTarget else if op <= 0x45 then InlineSwitch else
    if op <= 0x6E then InlineNone else if op <= 0x6F then InlineMethod else if op <= 0x71 then InlineType else
    if op <= 0x72 then InlineString else if op <= 0x73 then InlineMethod else if op <= 0x75 then InlineType else
    if op <= 0x78 then InlineNone else if op <= 0x79 then InlineType else if op <= 0x7A then InlineNone else
    if op <= 0x80 then InlineField else if op <= 0x81 then InlineType else if op <= 0x8B then InlineNone else
    if op <= 0x8D then InlineType else if op <= 0x8E then InlineNone else if op <= 0x8F then InlineType else
    if op <= 0xA2 then InlineNone else if op <= 0xA5 then InlineType else if op <= 0xC1 then InlineNone else
    if op <= 0xC2 then InlineType else if op <= 0xC5 then InlineNone else if op <= 0xC6 then InlineType else
    if op <= 0xCF then InlineNone else if op <= 0xD0 then InlineTok else if op <= 0xDC then InlineNone else
    if op <= 0xDD then InlineBrTarget else if op <= 0xDE then ShortInlineBrTarget else if op <= 0x105 then InlineNone else
    if op <= 0x107 then InlineMethod else if op <= 0x108 then InlineNone else if op <= 0x10E then InlineVar else
    if op <= 0x111 then InlineNone else if op <= 0x112 then ShortInlineI else if op <= 0x114 then InlineNone else
    if op <= 0x116 then InlineType else if op <= 0x11B then InlineNone else if op <= 0x11C then InlineType else InlineNone
  }

  /** The push column: how many values an instruction pushes, a variable number counting as one. */
  function PushColumn(op: nat): nat
    requires op < 294
  {
    if op <= 0x01 then 0 else if op <= 0x09 then 1 else if op <= 0x0D then 0 else if op <= 0x0F then 1 else
    if op <= 0x10 then 0 else if op <= 0x12 then 1 else if op <= 0x13 then 0 else if op <= 0x23 then 1 else
    if op <= 0x24 then 0 else if op <= 0x25 then 2 else if op <= 0x27 then 0 else if op <= 0x29 then 1 else
    if op <= 0x45 then 0 else if op <= 0x50 then 1 else if op <= 0x57 then 0 else if op <= 0x6F then 1 else
    if op <= 0x70 then 0 else if op <= 0x76 then 1 else if op <= 0x78 then 0 else if op <= 0x79 then 1 else
    if op <= 0x7A then 0 else if op <= 0x7C then 1 else if op <= 0x7D then 0 else if op <= 0x7F then 1 else
    if op <= 0x81 then 0 else if op <= 0x9A then 1 else if op <= 0xA2 then 0 else if op <= 0xA3 then 1 else
    if op <= 0xA4 then 0 else if op <= 0xA5 then 1 else if op <= 0xB2 then 0 else if op <= 0xBA then 1 else
    if op <= 0xC1 then 0 else if op <= 0xC3 then 1 else if op <= 0xC5 then 0 else if op <= 0xC6 then 1 else
    if op <= 0xCF then 0 else if op <= 0xDB then 1 else if op <= 0xDF then 0 else if op <= 0xE0 then 1 else
    if op <= 0xFF then 0 else if op <= 0x107 then 1 else if op <= 0x108 then 0 else if op <= 0x10A then 1 else
    if op <= 0x10B then 0 else if op <= 0x10D then 1 else if op <= 0x10E then 0 else if op <= 0x10F then 1 else
    if op <= 0x11B then 0 else if op <= 0x11D then 1 else 0
  }

  function LayoutOfKind(k: Kind): Layout {
    match k
    case InlineNone => Operand(0)
    case ShortInlineVar => Operand(1)
    case ShortInlineI => Operand(1)
    case InlineVar => Operand(2)
    case InlineI => Operand(4)
    case ShortInlineR => Operand(4)
    case InlineMethod => Operand(4)
    case InlineField => Operand(4)
    case InlineType => Operand(4)
    case InlineString => Operand(4)
    case InlineSig => Operand(4)
    case InlineTok => Operand(4)
    case InlineI8 => Operand(8)
    case InlineR => Operand(8)
    case ShortInlineBrTarget => ShortTarget
    case InlineBrTarget => LongTarget
    case InlineSwitch => Table
  }

  /** The rewriter reads and writes every operand in the layout of its kind. */
  lemma {:induction false} LayoutsAreThoseOfTheTable(op: nat)
    requires op < 294
    ensures LayoutOf(op) == LayoutOfKind(KindOf(op))
  {
  }

  /** AdjustState counts what the table says. */
  lemma {:induction false} PushesAreThoseOfTheTable(op: nat)
    requires op < 294
    ensures Pushes(op) == PushColumn(op)
  {
  }

  /** Sizes in bytes: one or two for the opcode, behind the lead byte 0xFE from 0x100
      on, and the operand; an entry of a switch table is four bytes. */
  lemma {:induction false} SizesAreThoseOfTheTable(op: nat)
    ensures op < 294 ==>
      Size(op) == (if op < 0x100 then 1 else 2)
                  + match LayoutOfKind(KindOf(op))
                    case Operand(n) => n
                    case ShortTarget => 1
                    case LongTarget => 4
                    case Table => 4
    ensures Size(295) == 4
  {
    if op < 294 {
      LayoutsAreThoseOfTheTable(op);
    }
  }
}
