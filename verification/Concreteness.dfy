/** The concreteness bitmap of a heap object: one bit per byte of memory. */
module Concreteness {
  type cell = bv8

  const CELL := 8

  /** Bytes of a cell are stored from the high bit down. */
  function BitMask(k: nat): cell
    requires k < 8
  {
    if k == 0 then 0x80 else if k == 1 then 0x40 else if k == 2 then 0x20 else if k == 3 then 0x10
    else if k == 4 then 0x08 else if k == 5 then 0x04 else if k == 6 then 0x02 else 0x01
  }

  predicate Bit(c: cell, k: nat)
    requires k < 8
  {
    c & BitMask(k) != 0
  }

  /** Low bits: the bytes of a cell from position s on. */
  function StartMask(s: nat): cell
    requires s < 8
  {
    ((1 as cell) << (8 - s)) - 1
  }

  /** High bits: the bytes of a cell before position e. */
  function EndMask(e: nat): cell
    requires e < 8
  {
    ((0xFF as cell) >> (8 - e)) << (8 - e)
  }

  lemma {:induction false} StartMaskBits(s: nat, k: nat)
    requires 0 < s < 8 && k < 8
    ensures Bit(StartMask(s), k) <==> s <= k
  {
    assert ((1 as cell) << 7) - 1 == 0x7F && ((1 as cell) << 6) - 1 == 0x3F && ((1 as cell) << 5) - 1 == 0x1F
        && ((1 as cell) << 4) - 1 == 0x0F && ((1 as cell) << 3) - 1 == 0x07 && ((1 as cell) << 2) - 1 == 0x03
        && ((1 as cell) << 1) - 1 == 0x01;
    assert StartMask(s) == if s == 1 then 0x7F else if s == 2 then 0x3F else if s == 3 then 0x1F
                           else if s == 4 then 0x0F else if s == 5 then 0x07 else if s == 6 then 0x03 else 0x01;
  }

  lemma {:induction false} EndMaskBits(e: nat, k: nat)
    requires 0 < e < 8 && k < 8
    ensures Bit(EndMask(e), k) <==> k < e
  {
    assert EndMask(e) == if e == 1 then 0x80 else if e == 2 then 0xC0 else if e == 3 then 0xE0
                         else if e == 4 then 0xF0 else if e == 5 then 0xF8 else if e == 6 then 0xFC else 0xFE;
  }

  lemma {:induction false} SetBits(c: cell, m: cell, k: nat)
    requires k < 8
    ensures Bit(c | m, k) <==> Bit(c, k) || Bit(m, k)
    ensures Bit(c & !m, k) <==> Bit(c, k) && !Bit(m, k)
  {
  }

  predicate HasAll(c: cell, m: cell) {
    c & m == m
  }

  /** A cell has all the bits of a mask exactly if it has each of them. */
  lemma {:induction false} HasBits(c: cell, m: cell)
    ensures HasAll(c, m) <==> forall k :: 0 <= k < 8 && Bit(m, k) ==> Bit(c, k)
  {
    if c & m == m {
      forall k | 0 <= k < 8 && Bit(m, k) ensures Bit(c, k) {
        assert c & m & BitMask(k) == m & BitMask(k);
      }
    }
    if forall k :: 0 <= k < 8 && Bit(m, k) ==> Bit(c, k) {
      assert Bit(m, 0) ==> Bit(c, 0);
      assert Bit(m, 1) ==> Bit(c, 1);
      assert Bit(m, 2) ==> Bit(c, 2);
      assert Bit(m, 3) ==> Bit(c, 3);
      assert Bit(m, 4) ==> Bit(c, 4);
      assert Bit(m, 5) ==> Bit(c, 5);
      assert Bit(m, 6) ==> Bit(c, 6);
      assert Bit(m, 7) ==> Bit(c, 7);
    }
  }

  lemma {:induction false} FullAndEmpty(k: nat)
    requires k < 8
    ensures Bit(0xFF, k) && !Bit(0x00, k)
  {
  }

  // ----- ranges of bytes -----

  /** The byte range [offset, offset + size) in cells and positions. */
  datatype Range = Range(offset: nat, size: nat)
  {
    function StartIndex(): nat { offset / CELL }
    function StartOffset(): nat { offset % CELL }
    function EndIndex(): nat { (offset + size) / CELL }
    function EndOffset(): nat { (offset + size) % CELL }
    function FirstFull(): nat { StartIndex() + if StartOffset() != 0 then 1 else 0 }

    predicate Contains(b: nat) { offset <= b < offset + size }

    /** Neither end is on a cell boundary and both are in the same cell. */
    predicate InsideOneCell() {
      StartOffset() != 0 && EndOffset() != 0 && StartIndex() == EndIndex()
    }

    /** The bytes that an access to the range looks at or changes. */
    predicate Touches(b: nat) {
      if InsideOneCell() then b / CELL == StartIndex() else Contains(b)
    }
  }

  function ByteAt(cells: seq<cell>, b: nat): bool
    requires b < CELL * |cells|
  {
    Bit(cells[b / CELL], b % CELL)
  }

  function Full(v: bool): cell {
    if v then 0xFF else 0x00
  }

  function Blend(c: cell, m: cell, v: bool): cell {
    if v then c | m else c & !m
  }

  function Filled(c: cell, r: Range, i: nat, v: bool): cell {
    if r.FirstFull() <= i < r.EndIndex() then Full(v) else c
  }

  function Started(c: cell, r: Range, i: nat, v: bool): cell {
    var filled := Filled(c, r, i, v);
    if r.StartOffset() != 0 && i == r.StartIndex() then Blend(filled, StartMask(r.StartOffset()), v) else filled
  }

  /** Cell i after a write: filled, then blended at the start, then at the end. */
  function NewCell(c: cell, r: Range, i: nat, v: bool): cell {
    var started := Started(c, r, i, v);
    if r.EndOffset() != 0 && i == r.EndIndex() then Blend(started, EndMask(r.EndOffset()), v) else started
  }

  lemma {:induction false} BlendBits(c: cell, m: cell, v: bool, k: nat)
    requires k < 8
    ensures Bit(Blend(c, m, v), k) == (if Bit(m, k) then v else Bit(c, k))
  {
    SetBits(c, m, k);
  }

  lemma {:induction false} NewCellBits(c: cell, r: Range, i: nat, v: bool, k: nat)
    requires r.size > 0 && k < 8
    ensures Bit(NewCell(c, r, i, v), k) == (if r.Touches(CELL * i + k) then v else Bit(c, k))
  {
    hide Bit, Blend, StartMask, EndMask;
    var s, e := r.StartOffset(), r.EndOffset();
    FullAndEmpty(k);
    var filled := if r.FirstFull() <= i < r.EndIndex() then Full(v) else c;
    if s != 0 {
      StartMaskBits(s, k);
      BlendBits(filled, StartMask(s), v, k);
    }
    var started := if s != 0 && i == r.StartIndex() then Blend(filled, StartMask(s), v) else filled;
    if e != 0 {
      EndMaskBits(e, k);
      BlendBits(started, EndMask(e), v, k);
    }
    assert (CELL * i + k) / CELL == i && (CELL * i + k) % CELL == k;
  }

  /** What read checks of cell i. */
  predicate CellConcrete(c: cell, r: Range, i: nat) {
    && (r.FirstFull() <= i < r.EndIndex() ==> c == Full(true))
    && (r.StartOffset() != 0 && i == r.StartIndex() ==> HasAll(c, StartMask(r.StartOffset())))
    && (r.EndOffset() != 0 && i == r.EndIndex() ==> HasAll(c, EndMask(r.EndOffset())))
  }

  lemma {:induction false} IsFull(c: cell)
    ensures c == Full(true) <==> forall k :: 0 <= k < 8 ==> Bit(c, k)
  {
    HasBits(c, 0xFF);
    forall k | 0 <= k < 8 ensures Bit(0xFF, k) {
      FullAndEmpty(k);
    }
    assert c & 0xFF == c;
  }

  /** Byte k of cell i belongs to a filled cell, the start cell's tail or the end cell's front. */
  predicate Part(r: Range, i: nat, k: nat) {
    || r.FirstFull() <= i < r.EndIndex()
    || (r.StartOffset() != 0 && i == r.StartIndex() && r.StartOffset() <= k)
    || (r.EndOffset() != 0 && i == r.EndIndex() && k < r.EndOffset())
  }

  lemma {:induction false} TouchesAt(r: Range, i: nat, k: nat)
    requires r.size > 0 && k < 8
    ensures r.Touches(CELL * i + k) <==> Part(r, i, k)
  {
    assert (CELL * i + k) / CELL == i && (CELL * i + k) % CELL == k;
  }

  lemma {:induction false} StartBits(c: cell, s: nat)
    requires 0 < s < 8
    ensures HasAll(c, StartMask(s)) <==> forall k :: s <= k < 8 ==> Bit(c, k)
  {
    hide Bit, StartMask, HasAll;
    HasBits(c, StartMask(s));
    forall k | 0 <= k < 8 ensures Bit(StartMask(s), k) <==> s <= k { StartMaskBits(s, k); }
  }

  lemma {:induction false} EndBits(c: cell, e: nat)
    requires 0 < e < 8
    ensures HasAll(c, EndMask(e)) <==> forall k :: 0 <= k < e ==> Bit(c, k)
  {
    hide Bit, EndMask, HasAll;
    HasBits(c, EndMask(e));
    forall k | 0 <= k < 8 ensures Bit(EndMask(e), k) <==> k < e { EndMaskBits(e, k); }
  }

  lemma {:induction false} CellConcreteBits(c: cell, r: Range, i: nat)
    requires r.size > 0
    ensures CellConcrete(c, r, i) <==> forall k :: 0 <= k < 8 && Part(r, i, k) ==> Bit(c, k)
  {
    hide Bit, StartMask, EndMask, HasAll, Full;
    IsFull(c);
    if r.StartOffset() != 0 {
      StartBits(c, r.StartOffset());
    }
    if r.EndOffset() != 0 {
      EndBits(c, r.EndOffset());
    }
  }

  // ----- exactly when an access is exact -----

  /** The bitmap after a write. */
  function Written(cells: seq<cell>, r: Range, v: bool): (t: seq<cell>)
    ensures |t| == |cells| && forall i :: 0 <= i < |t| ==> t[i] == NewCell(cells[i], r, i, v)
  {
    seq(|cells|, i requires 0 <= i < |cells| => NewCell(cells[i], r, i, v))
  }

  /** What a read returns. */
  ghost predicate Concrete(cells: seq<cell>, r: Range) {
    forall i :: 0 <= i < |cells| ==> CellConcrete(cells[i], r, i)
  }

  lemma {:induction false} WrittenByte(cells: seq<cell>, r: Range, v: bool, b: nat)
    requires r.size > 0 && b < CELL * |cells|
    ensures ByteAt(Written(cells, r, v), b) == if r.Touches(b) then v else ByteAt(cells, b)
  {
    hide NewCell, Bit;
    NewCellBits(cells[b / CELL], r, b / CELL, v, b % CELL);
    assert CELL * (b / CELL) + b % CELL == b;
  }

  /** On every bitmap of n cells, writing sets the bytes of the range and no others. */
  ghost predicate WritesExactly(r: Range, n: nat) {
    forall cells: seq<cell>, v: bool, b: nat :: |cells| == n && b < CELL * n ==>
      ByteAt(Written(cells, r, v), b) == if r.Contains(b) then v else ByteAt(cells, b)
  }

  /** On every bitmap of n cells, reading is true exactly if all bytes of the range are concrete. */
  ghost predicate ReadsExactly(r: Range, n: nat) {
    forall cells: seq<cell> :: |cells| == n ==>
      (Concrete(cells, r) <==> forall b :: 0 <= b < CELL * n && r.Contains(b) ==> ByteAt(cells, b))
  }

  /** A byte outside a range strictly inside one cell that an access acts on. */
  lemma {:induction false} Neighbour(r: Range) returns (b: nat)
    requires r.size > 0 && r.InsideOneCell()
    ensures b == CELL * r.StartIndex() < r.offset && r.Touches(b) && !r.Contains(b) && b / CELL == r.StartIndex() && b % CELL == 0
  {
    b := CELL * r.StartIndex();
  }

  lemma {:induction false} WriteExactIff(r: Range, n: nat)
    requires r.size > 0 && r.offset + r.size <= CELL * n
    ensures WritesExactly(r, n) <==> !r.InsideOneCell()
  {
    hide Bit, NewCell;
    if r.InsideOneCell() {
      var b := Neighbour(r);
      var cells := seq(n, i => Full(true));
      WrittenByte(cells, r, false, b);
      FullAndEmpty(0);
      assert ByteAt(cells, b);
      assert ByteAt(Written(cells, r, false), b) != ByteAt(cells, b);
    } else {
      forall cells: seq<cell>, v: bool, b: nat | |cells| == n && b < CELL * n
        ensures ByteAt(Written(cells, r, v), b) == if r.Contains(b) then v else ByteAt(cells, b)
      {
        WrittenByte(cells, r, v, b);
      }
    }
  }

  /** All bytes of cell i but the first are concrete. */
  function AllBut(n: nat, i: nat): (cells: seq<cell>)
    ensures |cells| == n
  {
    seq(n, j => if j == i then 0x7F else 0xFF)
  }

  lemma {:induction false} AllButBytes(n: nat, i: nat, b: nat)
    requires b < CELL * n
    ensures ByteAt(AllBut(n, i), b) <==> b != CELL * i
  {
    FullAndEmpty(b % CELL);
    assert forall k :: 0 <= k < 8 ==> (Bit(0x7F, k) <==> k != 0);
  }

  lemma {:induction false} ReadExactIff(r: Range, n: nat)
    requires r.size > 0 && r.offset + r.size <= CELL * n
    ensures ReadsExactly(r, n) <==> !r.InsideOneCell()
  {
    hide Bit, CellConcrete;
    if r.InsideOneCell() {
      var b := Neighbour(r);
      var cells := AllBut(n, r.StartIndex());
      AllButBytes(n, r.StartIndex(), b);
      forall c | 0 <= c < CELL * n && r.Contains(c) ensures ByteAt(cells, c) {
        AllButBytes(n, r.StartIndex(), c);
      }
      if Concrete(cells, r) {
        ReadSucceeds(cells, r);
      }
    } else {
      forall cells: seq<cell> | |cells| == n
        ensures Concrete(cells, r) <==> forall b :: 0 <= b < CELL * n && r.Contains(b) ==> ByteAt(cells, b)
      {
        if Concrete(cells, r) {
          ReadSucceeds(cells, r);
        } else {
          var i :| 0 <= i < |cells| && !CellConcrete(cells[i], r, i);
          ReadFails(cells, r, i);
        }
      }
    }
  }

  /** Byte b is bit b % 8 of cell b / 8, counted from the high bit. */
  lemma {:induction false} ByteByBit(cells: seq<cell>, b: nat)
    requires b < 8 * |cells|
    ensures ByteAt(cells, b) <==> cells[b / 8] & ((0x80 as cell) >> (b % 8)) != 0
  {
    assert (0x80 as cell) >> 0 == 0x80 && (0x80 as cell) >> 1 == 0x40 && (0x80 as cell) >> 2 == 0x20
        && (0x80 as cell) >> 3 == 0x10 && (0x80 as cell) >> 4 == 0x08 && (0x80 as cell) >> 5 == 0x04
        && (0x80 as cell) >> 6 == 0x02 && (0x80 as cell) >> 7 == 0x01;
  }

  /** By offsets: accesses are exact unless both ends of the range lie inside the same
      group of eight bytes; then they act on the whole group. */
  lemma {:induction false} ExactByOffsets(offset: nat, size: nat, n: nat)
    requires size > 0 && offset + size <= 8 * n
    ensures var r := Range(offset, size); var inside := offset % 8 != 0 && (offset + size) % 8 != 0 && offset / 8 == (offset + size) / 8;
      && (WritesExactly(r, n) <==> !inside) && (ReadsExactly(r, n) <==> !inside)
      && forall b: nat :: r.Touches(b) <==> if inside then b / 8 == offset / 8 else offset <= b < offset + size
  {
    hide WritesExactly, ReadsExactly;
    WriteExactIff(Range(offset, size), n);
    ReadExactIff(Range(offset, size), n);
  }

  /** Making bytes 1 and 2 of a fresh object symbolic makes bytes 0 and 3 symbolic, too. */
  lemma {:induction false} InsideExample()
    ensures var r := Range(1, 2); var after := Written([Full(true)], r, false);
      r.InsideOneCell() && !r.Contains(0) && !r.Contains(3) && !ByteAt(after, 0) && !ByteAt(after, 3)
  {
    hide Bit, NewCell;
    WrittenByte([Full(true)], Range(1, 2), false, 0);
    WrittenByte([Full(true)], Range(1, 2), false, 3);
  }

  /** The bitmap of one object. */
  class Bitmap {
    const size: nat
    const concreteness: array<cell>

    ghost predicate Valid()
      reads this
    {
      size > 0 && concreteness.Length == (size + CELL - 1) / CELL
    }

    /** Everything is concrete at the beginning. */
    constructor (size: nat)
      requires size > 0
      ensures Valid() && this.size == size && fresh(concreteness)
      ensures forall b :: 0 <= b < CELL * concreteness.Length ==> ByteAt(concreteness[..], b)
    {
      this.size := size;
      var n := (size + CELL - 1) / CELL;
      var a := new cell[n];
      var i := 0;
      while i < n
        invariant i <= n
        invariant forall j :: 0 <= j < i ==> a[j] == 0xFF
      {
        a[i] := 0xFF;
        i := i + 1;
      }
      concreteness := a;
      new;
      forall b | 0 <= b < CELL * concreteness.Length ensures ByteAt(concreteness[..], b) {
        FullAndEmpty(b % CELL);
        assert concreteness[..][b / CELL] == 0xFF;
      }
    }

    /** True exactly if every touched byte is concrete. */
    method Read(offset: nat, size: nat) returns (r: bool)
      requires Valid() && size > 0 && offset + size <= this.size
      ensures r <==> forall b :: 0 <= b < CELL * concreteness.Length && Range(offset, size).Touches(b) ==>
                       ByteAt(concreteness[..], b)
      ensures r <==> Concrete(concreteness[..], Range(offset, size))
    {
      hide StartMask, EndMask, Bit, HasAll, Blend, Full;
      ghost var range := Range(offset, size);
      var startOffset, startIndex := offset % CELL, offset / CELL;
      var endOffset, endIndex := (offset + size) % CELL, (offset + size) / CELL;
      ghost var cells := concreteness[..];
      r := true;
      var i := startIndex + if startOffset != 0 then 1 else 0;
      while i < endIndex
        invariant range.FirstFull() <= i && (i <= endIndex || i == range.FirstFull())
        invariant forall j :: range.FirstFull() <= j < i ==> j < |cells| && cells[j] == Full(true)
      {
        if concreteness[i] != Full(true) {
          assert !CellConcrete(cells[i], range, i);
          ReadFails(cells, range, i);
          return false;
        }
        i := i + 1;
      }
      if startOffset != 0 && !HasAll(concreteness[startIndex], StartMask(startOffset)) {
        assert !CellConcrete(cells[startIndex], range, startIndex);
        ReadFails(cells, range, startIndex);
        return false;
      }
      if endOffset != 0 && !HasAll(concreteness[endIndex], EndMask(endOffset)) {
        assert !CellConcrete(cells[endIndex], range, endIndex);
        ReadFails(cells, range, endIndex);
        return false;
      }
      assert forall j :: 0 <= j < |cells| ==> CellConcrete(cells[j], range, j);
      ReadSucceeds(cells, range);
    }

    /** Fills whole cells. */
    method Fill(lo: nat, hi: nat, v: bool)
      requires hi <= concreteness.Length
      modifies concreteness
      ensures forall j :: 0 <= j < concreteness.Length ==> concreteness[j] == if lo <= j < hi then Full(v) else old(concreteness[j])
    {
      var i := lo;
      while i < hi
        invariant lo <= i && (i <= hi || i == lo)
        invariant forall j :: 0 <= j < concreteness.Length ==> concreteness[j] == if lo <= j < i then Full(v) else old(concreteness[j])
      {
        concreteness[i] := Full(v);
        i := i + 1;
      }
    }

    /** Fills the whole cells, then sets the start and the end. */
    method WriteCells(offset: nat, size: nat, v: bool)
      requires Valid() && size > 0 && offset + size <= this.size
      modifies concreteness
      ensures concreteness[..] == Written(old(concreteness[..]), Range(offset, size), v)
    {
      hide StartMask, EndMask, Blend, Full;
      ghost var range := Range(offset, size);
      ghost var cells := concreteness[..];
      var startOffset, startIndex := offset % CELL, offset / CELL;
      var endOffset, endIndex := (offset + size) % CELL, (offset + size) / CELL;
      Fill(startIndex + if startOffset != 0 then 1 else 0, endIndex, v);
      assert forall j :: 0 <= j < concreteness.Length ==> concreteness[j] == Filled(cells[j], range, j, v);
      if startOffset != 0 {
        concreteness[startIndex] := Blend(concreteness[startIndex], StartMask(startOffset), v);
      }
      assert forall j :: 0 <= j < concreteness.Length ==> concreteness[j] == Started(cells[j], range, j, v);
      if endOffset != 0 {
        concreteness[endIndex] := Blend(concreteness[endIndex], EndMask(endOffset), v);
      }
      assert forall j :: 0 <= j < concreteness.Length ==> concreteness[j] == NewCell(cells[j], range, j, v);
    }

    /** Sets the touched bytes and no others. */
    method Write(offset: nat, size: nat, v: bool)
      requires Valid() && size > 0 && offset + size <= this.size
      modifies concreteness
      ensures forall b :: 0 <= b < CELL * concreteness.Length ==>
                ByteAt(concreteness[..], b)
                == if Range(offset, size).Touches(b) then v else ByteAt(old(concreteness[..]), b)
      ensures concreteness[..] == Written(old(concreteness[..]), Range(offset, size), v)
    {
      hide Written, ByteAt;
      ghost var cells := concreteness[..];
      WriteCells(offset, size, v);
      forall b | 0 <= b < CELL * concreteness.Length
        ensures ByteAt(concreteness[..], b) == if Range(offset, size).Touches(b) then v else ByteAt(cells, b)
      {
        WrittenByte(cells, Range(offset, size), v, b);
      }
    }
  }

  lemma {:induction false} ReadFails(cells: seq<cell>, r: Range, i: nat)
    requires r.size > 0 && i < |cells| && !CellConcrete(cells[i], r, i)
    ensures exists b :: 0 <= b < CELL * |cells| && r.Touches(b) && !ByteAt(cells, b)
  {
    hide Bit, CellConcrete, Part;
    CellConcreteBits(cells[i], r, i);
    var k :| 0 <= k < 8 && Part(r, i, k) && !Bit(cells[i], k);
    TouchesAt(r, i, k);
    assert !ByteAt(cells, CELL * i + k);
  }

  lemma {:induction false} ReadSucceeds(cells: seq<cell>, r: Range)
    requires r.size > 0 && forall j :: 0 <= j < |cells| ==> CellConcrete(cells[j], r, j)
    ensures forall b :: 0 <= b < CELL * |cells| && r.Touches(b) ==> ByteAt(cells, b)
  {
    hide Bit, CellConcrete, Part;
    forall b | 0 <= b < CELL * |cells| && r.Touches(b) ensures ByteAt(cells, b) {
      CellConcreteBits(cells[b / CELL], r, b / CELL);
      TouchesAt(r, b / CELL, b % CELL);
      assert CELL * (b / CELL) + b % CELL == b;
    }
  }

  /** Reading a range back after writing it gives what was written, for every range. */
  lemma {:induction false} ReadBack(before: seq<cell>, after: seq<cell>, r: Range, v: bool)
    requires r.size > 0 && |before| == |after| && r.offset + r.size <= CELL * |after|
    requires forall b :: 0 <= b < CELL * |after| ==> ByteAt(after, b) == if r.Touches(b) then v else ByteAt(before, b)
    ensures v <==> forall b :: 0 <= b < CELL * |after| && r.Touches(b) ==> ByteAt(after, b)
  {
    assert r.Touches(r.offset);
    assert ByteAt(after, r.offset) == v;
  }
}
