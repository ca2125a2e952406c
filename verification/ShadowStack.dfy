/** Shadow evaluation stacks and the shadow call stack, and the deltas that keep
    a remote replica of them up to date. */
module ShadowStack {
  import opened Wrappers

  // ----- numbering of symbolic cells -----

  /** Marks a cell whose value is concrete. */
  const CONCRETE: nat := 0xFFFF_FFFF

  function Symbolics(cells: seq<nat>): (n: nat)
    ensures n <= |cells|
  {
    if cells == [] then 0
    else Symbolics(cells[..|cells| - 1]) + if cells[|cells| - 1] == CONCRETE then 0 else 1
  }

  /** It is the number of cells that do not hold the greatest 32-bit number. */
  lemma {:induction false} SymbolicsCounts(cells: seq<nat>)
    ensures Symbolics(cells) == |set i | 0 <= i < |cells| && cells[i] != 0xFFFF_FFFF|
  {
    if cells != [] {
      var n := |cells| - 1;
      SymbolicsCounts(cells[..n]);
      var lower := set i | 0 <= i < n && cells[..n][i] != 0xFFFF_FFFF;
      var all := set i | 0 <= i < |cells| && cells[i] != 0xFFFF_FFFF;
      assert all == if cells[n] == 0xFFFF_FFFF then lower else lower + {n};
    }
  }

  /** The k-th symbolic cell from the bottom holds k. */
  ghost predicate Numbered(cells: seq<nat>) {
    forall i :: 0 <= i < |cells| && cells[i] != CONCRETE ==> cells[i] == Symbolics(cells[..i + 1])
  }

  function Pushed(cells: seq<nat>, isConcrete: bool): seq<nat> {
    cells + [if isConcrete then CONCRETE else Symbolics(cells) + 1]
  }

  lemma {:induction false} PushNumbered(cells: seq<nat>, isConcrete: bool)
    requires Numbered(cells) && |cells| + 1 < CONCRETE
    ensures Numbered(Pushed(cells, isConcrete))
    ensures Symbolics(Pushed(cells, isConcrete)) == Symbolics(cells) + if isConcrete then 0 else 1
  {
    var t := Pushed(cells, isConcrete);
    assert t[..|cells|] == cells;
    forall i | 0 <= i < |t| && t[i] != CONCRETE ensures t[i] == Symbolics(t[..i + 1]) {
      if i < |cells| {
        assert t[..i + 1] == cells[..i + 1];
      } else {
        assert t[..i + 1] == t;
      }
    }
  }

  lemma {:induction false} PrefixNumbered(cells: seq<nat>, n: nat)
    requires Numbered(cells) && n <= |cells|
    ensures Numbered(cells[..n])
  {
    forall i | 0 <= i < n && cells[i] != CONCRETE ensures cells[i] == Symbolics(cells[..n][..i + 1]) {
      assert cells[..n][..i + 1] == cells[..i + 1];
    }
  }

  /** What popping the top n cells records: number and distance from the top, topmost first. */
  function Popped(cells: seq<nat>, n: nat): seq<(nat, nat)>
    requires n <= |cells|
  {
    if n == 0 then []
    else
      var c := cells[|cells| - n];
      Popped(cells, n - 1) + if c == CONCRETE then [] else [(c, n - 1)]
  }

  lemma {:induction false} SymbolicsSplit(cells: seq<nat>, n: nat)
    requires 0 < n <= |cells|
    ensures Symbolics(cells[..|cells| - n + 1]) == Symbolics(cells[..|cells| - n]) + if cells[|cells| - n] == CONCRETE then 0 else 1
  {
    var m := |cells| - n;
    assert cells[..m + 1][..m] == cells[..m];
  }

  /** Number, distance and cell of one recorded pop agree. */
  predicate RecordOk(cells: seq<nat>, n: nat, total: nat, j: nat, r: (nat, nat)) {
    n <= |cells| && r.1 < n && r.0 + j == total && r.0 != CONCRETE && cells[|cells| - 1 - r.1] == r.0
  }

  /** Popping numbers the popped symbolic cells downwards from the top: relative
      to the number of symbolics before the pop they come out as 0, 1, 2, ... */
  lemma {:induction false} PoppedFromTop(cells: seq<nat>, n: nat)
    requires Numbered(cells) && n <= |cells|
    ensures |Popped(cells, n)| + Symbolics(cells[..|cells| - n]) == Symbolics(cells)
    ensures forall j :: 0 <= j < |Popped(cells, n)| ==> RecordOk(cells, n, Symbolics(cells), j, Popped(cells, n)[j])
  {
    hide Symbolics;
    if n == 0 {
      assert cells[..|cells|] == cells;
    } else {
      PoppedFromTop(cells, n - 1);
      SymbolicsSplit(cells, n);
      var m := |cells| - n;
      assert cells[m] != CONCRETE ==> cells[m] == Symbolics(cells[..m + 1]);
      var p, q := Popped(cells, n), Popped(cells, n - 1);
      forall j | 0 <= j < |p| ensures RecordOk(cells, n, Symbolics(cells), j, p[j]) {
        if j < |q| {
          assert RecordOk(cells, n - 1, Symbolics(cells), j, q[j]);
        }
      }
    }
  }

  ghost predicate Recorded(ps: seq<(nat, nat)>, d: nat) {
    exists j :: 0 <= j < |ps| && ps[j].1 == d
  }

  /** Every popped symbolic cell is recorded, at its distance from the top. */
  lemma {:induction false} PoppedComplete(cells: seq<nat>, n: nat, d: nat)
    requires n <= |cells| && d < n
    ensures cells[|cells| - 1 - d] != CONCRETE <==> Recorded(Popped(cells, n), d)
  {
    var c := cells[|cells| - n];
    var p, q := Popped(cells, n), Popped(cells, n - 1);
    assert p == q + if c == CONCRETE then [] else [(c, n - 1)];
    PoppedBelow(cells, n - 1);
    if d == n - 1 {
      if c != CONCRETE {
        assert p[|q|].1 == d;
      }
    } else {
      PoppedComplete(cells, n - 1, d);
      if Recorded(q, d) {
        var j :| 0 <= j < |q| && q[j].1 == d;
        assert p[j].1 == d;
      }
      if Recorded(p, d) {
        var j :| 0 <= j < |p| && p[j].1 == d;
        assert q[j].1 == d;
      }
    }
  }

  lemma {:induction false} PoppedBelow(cells: seq<nat>, n: nat)
    requires n <= |cells|
    ensures forall j :: 0 <= j < |Popped(cells, n)| ==> Popped(cells, n)[j].1 < n
    ensures forall i, j :: 0 <= i < j < |Popped(cells, n)| ==> Popped(cells, n)[i].1 < Popped(cells, n)[j].1
  {
    if n > 0 {
      PoppedBelow(cells, n - 1);
    }
  }

  // ----- evaluation stack deltas -----

  /** An evaluation stack since the last reset: its cells then and now, and the lowest
      number of symbolics that an unreported pop has left. */
  datatype Evaluation = Evaluation(sent: seq<nat>, cells: seq<nat>, low: nat)

  datatype EvalOp = PushCell(isConcrete: bool) | PopCell

  function EvalDo(t: Evaluation, op: EvalOp): Option<Evaluation> {
    match op
    case PushCell(isConcrete) => Some(t.(cells := Pushed(t.cells, isConcrete)))
    case PopCell =>
      if t.cells == [] then None
      else
        var cells := t.cells[..|t.cells| - 1];
        Some(Evaluation(t.sent, cells, if Symbolics(cells) < t.low then Symbolics(cells) else t.low))
  }

  function EvalDoAll(t: Evaluation, ops: seq<EvalOp>): Option<Evaluation> {
    if ops == [] then Some(t)
    else
      var before := EvalDoAll(t, ops[..|ops| - 1]);
      if before.None? then None else EvalDo(before.value, ops[|ops| - 1])
  }

  /** Right after a reset. */
  function AtReset(cells: seq<nat>): Evaluation {
    Evaluation(cells, cells, Symbolics(cells))
  }

  /** The cells after the first k steps of a run that does not fail. */
  function CellsAt(cells: seq<nat>, ops: seq<EvalOp>, k: nat): seq<nat>
    requires k <= |ops|
  {
    var t := EvalDoAll(AtReset(cells), ops[..k]);
    if t.None? then [] else t.value.cells
  }

  lemma {:induction false} SymbolicsMonotone(cells: seq<nat>, m: nat)
    requires m <= |cells|
    ensures Symbolics(cells[..m]) <= Symbolics(cells)
    decreases |cells|
  {
    if m == |cells| {
      assert cells[..m] == cells;
    } else {
      var n := |cells| - 1;
      SymbolicsMonotone(cells[..n], m);
      assert cells[..n][..m] == cells[..m];
    }
  }

  lemma {:induction false} SymbolicsAbove(cells: seq<nat>, m: nat)
    requires m <= |cells|
    ensures Symbolics(cells) == Symbolics(cells[..m]) + Symbolics(cells[m..])
    decreases |cells|
  {
    if m == |cells| {
      assert cells[..m] == cells;
    } else {
      var n := |cells| - 1;
      SymbolicsAbove(cells[..n], m);
      assert cells[..n][..m] == cells[..m];
      assert cells[m..][..n - m] == cells[..n][m..];
    }
  }

  lemma {:induction false} PushedSymbolics(cells: seq<nat>, isConcrete: bool)
    ensures Symbolics(cells) <= Symbolics(Pushed(cells, isConcrete))
  {
    assert Pushed(cells, isConcrete)[..|cells|] == cells;
    SymbolicsMonotone(Pushed(cells, isConcrete), |cells|);
  }

  lemma {:induction false} CellsBefore(cells: seq<nat>, ops: seq<EvalOp>)
    requires ops != []
    ensures forall k: nat :: k < |ops| ==> CellsAt(cells, ops, k) == CellsAt(cells, ops[..|ops| - 1], k)
  {
    forall k: nat | k < |ops| ensures CellsAt(cells, ops, k) == CellsAt(cells, ops[..|ops| - 1], k) {
      assert ops[..|ops| - 1][..k] == ops[..k];
    }
  }

  lemma {:induction false} CellsLast(cells: seq<nat>, ops: seq<EvalOp>)
    requires EvalDoAll(AtReset(cells), ops).Some?
    ensures CellsAt(cells, ops, |ops|) == EvalDoAll(AtReset(cells), ops).value.cells
  {
    assert ops[..|ops|] == ops;
  }

  /** Over every run of pushes and unreported pops since a reset, low is the least number
      of symbolics the stack has held, and it was held at the lowest height reached: up to
      there the stack is still the one that was sent. What the pops have taken of the
      stack sent is therefore all its symbolics above that height. */
  lemma {:induction false} EvalDeltaOverRuns(cells: seq<nat>, ops: seq<EvalOp>) returns (lowest: nat)
    requires EvalDoAll(AtReset(cells), ops).Some?
    ensures var t := EvalDoAll(AtReset(cells), ops).value;
      && t.sent == cells
      && (forall k: nat :: k <= |ops| ==> t.low <= Symbolics(CellsAt(cells, ops, k)))
      && (exists k: nat :: k <= |ops| && t.low == Symbolics(CellsAt(cells, ops, k)))
      && (forall k: nat :: k <= |ops| ==> lowest <= |CellsAt(cells, ops, k)|)
      && (exists k: nat :: k <= |ops| && lowest == |CellsAt(cells, ops, k)|)
      && lowest <= |cells| && lowest <= |t.cells| && t.cells[..lowest] == cells[..lowest]
      && t.low == Symbolics(cells[..lowest])
      && Symbolics(cells) - t.low == Symbolics(cells[lowest..])
      && Symbolics(t.cells) - t.low == Symbolics(t.cells[lowest..])
    decreases |ops|
  {
    hide Symbolics, Pushed, CellsAt;
    CellsLast(cells, ops);
    var t := EvalDoAll(AtReset(cells), ops).value;
    if ops == [] {
      lowest := |cells|;
      assert cells[..lowest] == cells;
    } else {
      var n := |ops| - 1;
      lowest := EvalDeltaOverRuns(cells, ops[..n]);
      CellsBefore(cells, ops);
      var u := EvalDoAll(AtReset(cells), ops[..n]).value;
      CellsLast(cells, ops[..n]);
      var below := lowest;
      if ops[n].PushCell? {
        PushedSymbolics(u.cells, ops[n].isConcrete);
        PushedKeeps(u.cells, ops[n].isConcrete, lowest);
        assert t.low <= Symbolics(CellsAt(cells, ops, n));
      } else {
        lowest := PopLowers(cells, u, t, lowest);
      }
      var k: nat :| k <= n && u.low == Symbolics(CellsAt(cells, ops[..n], k));
      assert u.low == Symbolics(CellsAt(cells, ops, k));
      var h: nat :| h <= n && below == |CellsAt(cells, ops[..n], h)|;
      assert below == |CellsAt(cells, ops, h)|;
    }
    SymbolicsAbove(cells, lowest);
    SymbolicsAbove(t.cells, lowest);
  }

  lemma {:induction false} PushedKeeps(cells: seq<nat>, isConcrete: bool, m: nat)
    requires m <= |cells|
    ensures m <= |Pushed(cells, isConcrete)| && Pushed(cells, isConcrete)[..m] == cells[..m] && |Pushed(cells, isConcrete)| == |cells| + 1
  {
  }

  /** One unreported pop lowers the height and the symbolics together, if at all. */
  lemma {:induction false} PopLowers(cells: seq<nat>, u: Evaluation, t: Evaluation, h: nat) returns (lowest: nat)
    requires EvalDo(u, PopCell) == Some(t)
    requires h <= |cells| && h <= |u.cells| && u.cells[..h] == cells[..h] && u.low == Symbolics(cells[..h])
    ensures lowest == if |t.cells| < h then |t.cells| else h
    ensures t.cells[..lowest] == cells[..lowest] && t.low == Symbolics(cells[..lowest])
    ensures t.low <= Symbolics(t.cells) && (t.low == u.low || (t.low < u.low && t.low == Symbolics(t.cells)))
  {
    hide Symbolics;
    var n := |t.cells|;
    lowest := if n < h then n else h;
    if n < h {
      assert t.cells == u.cells[..h][..n] == cells[..h][..n] == cells[..n];
      SymbolicsMonotone(cells[..h], n);
      assert t.cells[..n] == t.cells;
    } else {
      assert t.cells[..h] == u.cells[..h];
      SymbolicsMonotone(t.cells, h);
    }
  }

  class StackFrame {
    /** Cells of the evaluation stack; those from top on are unused. */
    var concreteness: array<nat>
    var top: nat
    var symbolsCount: nat
    var lastSentSymbolsCount: nat
    var minSymbsCountSinceLastSent: nat
    var args: seq<bool>
    const resolvedToken: nat
    const unresolvedToken: nat
    var lastPoppedSymbolics: seq<(nat, nat)>
    /** Cells at the last reset. */
    ghost var sent: seq<nat>

    ghost predicate Valid()
      reads this, concreteness
    {
      && concreteness.Length < CONCRETE
      && top <= concreteness.Length
      && Numbered(Cells())
      && symbolsCount == Symbolics(Cells())
      && lastSentSymbolsCount == Symbolics(sent)
      && minSymbsCountSinceLastSent <= lastSentSymbolsCount
    }

    ghost function Tracking(): Evaluation
      requires top <= concreteness.Length
      reads this, concreteness
    {
      Evaluation(sent, Cells(), minSymbsCountSinceLastSent)
    }

    ghost function Cells(): seq<nat>
      requires top <= concreteness.Length
      reads this, concreteness
    {
      concreteness[..top]
    }

    constructor (resolvedToken: nat, unresolvedToken: nat, args: seq<bool>)
      ensures Valid() && Tracking() == AtReset([]) && this.args == args && lastPoppedSymbolics == []
      ensures this.resolvedToken == resolvedToken && this.unresolvedToken == unresolvedToken
      ensures fresh(concreteness)
    {
      concreteness := new nat[0];
      top, symbolsCount := 0, 0;
      lastSentSymbolsCount, minSymbsCountSinceLastSent := 0, 0;
      this.args := args;
      this.resolvedToken, this.unresolvedToken := resolvedToken, unresolvedToken;
      lastPoppedSymbolics, sent := [], [];
      new;
      assert concreteness[..0] == [];
    }

    /** Entering the method fixes the capacity of its evaluation stack. */
    method Configure(maxStackSize: nat)
      requires Valid() && top == 0 && maxStackSize < CONCRETE
      modifies this`concreteness
      ensures Valid() && Cells() == [] && Tracking() == old(Tracking())
      ensures concreteness.Length == maxStackSize && fresh(concreteness)
    {
      concreteness := new nat[maxStackSize];
      assert concreteness[..0] == [];
    }

    method Push1(isConcrete: bool)
      requires Valid() && top < concreteness.Length
      modifies this`top, this`symbolsCount, concreteness
      ensures Valid() && Cells() == Pushed(old(Cells()), isConcrete) && concreteness == old(concreteness)
      ensures Some(Tracking()) == EvalDo(old(Tracking()), PushCell(isConcrete))
    {
      hide Symbolics, Numbered;
      ghost var cells := Cells();
      PushNumbered(cells, isConcrete);
      if !isConcrete {
        symbolsCount := symbolsCount + 1;
      }
      concreteness[top] := if isConcrete then CONCRETE else symbolsCount;
      top := top + 1;
      assert concreteness[..top] == Pushed(cells, isConcrete);
    }

    /** Pops count cells; returns whether all of them were concrete. */
    method Pop(count: nat) returns (allConcrete: bool)
      requires Valid() && count <= top
      modifies this`top, this`symbolsCount, this`lastPoppedSymbolics
      ensures Valid() && Cells() == old(Cells())[..old(top) - count]
      ensures lastPoppedSymbolics == Popped(old(Cells()), count)
      ensures allConcrete <==> forall i :: old(top) - count <= i < old(top) ==> old(Cells())[i] == CONCRETE
    {
      hide Symbolics, Numbered;
      ghost var cells := Cells();
      assert cells[..|cells|] == cells;
      lastPoppedSymbolics := [];
      top := top - count;
      var i := top + count;
      while i > top
        invariant top <= i <= top + count && top + count == |cells|
        invariant lastPoppedSymbolics == Popped(cells, top + count - i)
        invariant symbolsCount == Symbolics(cells[..i])
        invariant lastPoppedSymbolics == [] <==> forall j :: i <= j < |cells| ==> cells[j] == CONCRETE
      {
        SymbolicsSplit(cells, top + count - i + 1);
        var c := concreteness[i - 1];
        assert c == cells[i - 1];
        if c != CONCRETE {
          symbolsCount := symbolsCount - 1;
          lastPoppedSymbolics := lastPoppedSymbolics + [(c, top + count - i)];
        }
        i := i - 1;
      }
      PrefixNumbered(cells, top);
      assert concreteness[..top] == cells[..top];
      allConcrete := lastPoppedSymbolics == [];
    }

    method Pop1() returns (concrete: bool)
      requires Valid() && top > 0
      modifies this`top, this`symbolsCount, this`lastPoppedSymbolics
      ensures Valid() && Cells() == old(Cells())[..old(top) - 1]
      ensures concrete <==> old(Cells())[old(top) - 1] == CONCRETE
      ensures lastPoppedSymbolics == Popped(old(Cells()), 1)
    {
      ghost var cells := Cells();
      assert Popped(cells, 0) == [];
      lastPoppedSymbolics := [];
      top := top - 1;
      var c := concreteness[top];
      SymbolicsSplit(cells, 1);
      PrefixNumbered(cells, top);
      assert cells[..|cells|] == cells && concreteness[..top] == cells[..top];
      if c != CONCRETE {
        symbolsCount := symbolsCount - 1;
        lastPoppedSymbolics := [(c, 0)];
        return false;
      }
      return true;
    }

    /** A pop that is not reported as an operand but counted. */
    method Pop1Async()
      requires Valid() && top > 0
      modifies this`top, this`symbolsCount, this`lastPoppedSymbolics, this`minSymbsCountSinceLastSent
      ensures Valid() && Cells() == old(Cells())[..old(top) - 1]
      ensures minSymbsCountSinceLastSent == if symbolsCount < old(minSymbsCountSinceLastSent) then symbolsCount
                                            else old(minSymbsCountSinceLastSent)
      ensures Some(Tracking()) == EvalDo(old(Tracking()), PopCell)
    {
      var _ := Pop1();
      if minSymbsCountSinceLastSent > symbolsCount {
        minSymbsCountSinceLastSent := symbolsCount;
      }
    }

    method Dup() returns (concrete: bool)
      requires Valid() && 0 < top < concreteness.Length
      modifies this`top, this`symbolsCount, this`lastPoppedSymbolics, concreteness
      ensures Valid() && concreteness == old(concreteness)
      ensures concrete <==> old(Cells())[old(top) - 1] == CONCRETE
      ensures Cells() == if concrete then old(Cells()) + [CONCRETE] else old(Cells())[..old(top) - 1]
    {
      concrete := Pop1();
      if concrete {
        Push1(concrete);
        Push1(concrete);
      }
    }

    function EvaluationStackPops(): (n: nat)
      requires minSymbsCountSinceLastSent <= lastSentSymbolsCount
      ensures n + minSymbsCountSinceLastSent == lastSentSymbolsCount
      reads this
    {
      lastSentSymbolsCount - minSymbsCountSinceLastSent
    }

    method ResetPopsTracking()
      requires Valid()
      modifies this`lastSentSymbolsCount, this`minSymbsCountSinceLastSent, this`sent
      ensures Valid() && EvaluationStackPops() == 0
      ensures sent == Cells() && Tracking() == AtReset(Cells())
    {
      sent := Cells();
      lastSentSymbolsCount := symbolsCount;
      minSymbsCountSinceLastSent := symbolsCount;
    }
  }

  // ----- the call stack and its replica -----

  function Tokens(frames: seq<StackFrame>): (r: seq<nat>)
    ensures |r| == |frames|
  {
    seq(|frames|, i requires 0 <= i < |frames| => frames[i].unresolvedToken)
  }

  /** What the other side does with a delta. */
  function Replay(remote: seq<nat>, pops: nat, pushed: seq<nat>): seq<nat>
    requires pops <= |remote|
  {
    remote[..|remote| - pops] + pushed
  }

  class Stack {
    var frames: seq<StackFrame>
    var lastSentTop: nat
    var minTopSinceLastSent: nat
    /** Tokens of the frames the other side had at the last reset. */
    ghost var remote: seq<nat>

    /** Below the lowest point reached since the last reset, both sides agree. */
    ghost predicate Valid()
      reads this
    {
      && minTopSinceLastSent <= |frames|
      && minTopSinceLastSent <= lastSentTop == |remote|
      && Tokens(frames)[..minTopSinceLastSent] == remote[..minTopSinceLastSent]
    }

    constructor ()
      ensures Valid() && frames == [] && remote == []
    {
      frames, lastSentTop, minTopSinceLastSent, remote := [], 0, 0, [];
    }

    /** Tokens now, and how many of the lowest frames were never left since the last reset. */
    ghost function Tracking(): Tracked
      reads this
    {
      Tracked(Tokens(frames), minTopSinceLastSent)
    }

    ghost function TopFrame(): (r: set<StackFrame>)
      reads this
    {
      if frames == [] then {} else {frames[|frames| - 1]}
    }

    function UnsentPops(): nat
      requires minTopSinceLastSent <= lastSentTop
      reads this
    {
      lastSentTop - minTopSinceLastSent
    }

    method PushFrame(resolvedToken: nat, unresolvedToken: nat, args: seq<bool>)
      requires Valid()
      modifies this`frames
      ensures Valid() && |frames| == |old(frames)| + 1 && frames[..|old(frames)|] == old(frames)
      ensures var f := frames[|old(frames)|];
              fresh(f) && f.Valid() && f.args == args && f.unresolvedToken == unresolvedToken && f.resolvedToken == resolvedToken
              && f.Tracking() == AtReset([])
      ensures Some(Tracking()) == Do(old(Tracking()), Call(unresolvedToken))
    {
      var f := new StackFrame(resolvedToken, unresolvedToken, args);
      ghost var before := Tokens(frames);
      frames := frames + [f];
      assert Tokens(frames)[..|before|] == before;
      assert Tokens(frames)[..minTopSinceLastSent] == before[..minTopSinceLastSent];
      assert Tokens(frames) == before + [unresolvedToken];
    }

    method PopFrame()
      requires Valid() && frames != []
      modifies this`frames, this`minTopSinceLastSent
      ensures Valid() && frames == old(frames)[..|old(frames)| - 1]
      ensures Some(Tracking()) == Do(old(Tracking()), Return)
    {
      ghost var before := Tokens(frames);
      frames := frames[..|frames| - 1];
      assert Tokens(frames) == before[..|frames|];
      if |frames| < minTopSinceLastSent {
        assert remote[..|frames|] == remote[..minTopSinceLastSent][..|frames|];
        minTopSinceLastSent := |frames|;
      }
      assert Tokens(frames)[..minTopSinceLastSent] == before[..minTopSinceLastSent];
    }

    /** After an exchange the other side has framesCount frames, the lower ones being ours. */
    method ResetPopsTracking(framesCount: nat, ghost tokens: seq<nat>)
      requires framesCount == |tokens| >= |frames| && tokens[..|frames|] == Tokens(frames)
      requires forall i :: 0 <= i < |frames| ==> frames[i].Valid()
      modifies this`lastSentTop, this`minTopSinceLastSent, this`remote,
               TopFrame()`lastSentSymbolsCount, TopFrame()`minSymbsCountSinceLastSent, TopFrame()`sent
      ensures Valid() && remote == tokens && UnsentPops() == framesCount - |frames|
      ensures Tracking() == Tracked(old(Tokens(frames)), |frames|)
      ensures forall i :: 0 <= i < |frames| ==> frames[i].Valid()
      ensures frames != [] ==> var f := frames[|frames| - 1]; f.Valid() && f.sent == f.Cells() && f.Tracking() == AtReset(f.Cells())
    {
      lastSentTop, remote := framesCount, tokens;
      minTopSinceLastSent := |frames|;
      assert Tokens(frames)[..|frames|] == Tokens(frames);
      if frames != [] {
        frames[|frames| - 1].ResetPopsTracking();
      }
    }
  }

  /** In every reachable state the delta turns the replica into the current stack. */
  lemma {:induction false} DeltaIsExact(stack: Stack)
    requires stack.Valid()
    ensures Replay(stack.remote, stack.UnsentPops(), Tokens(stack.frames)[stack.minTopSinceLastSent..]) == Tokens(stack.frames)
  {
    var t := Tokens(stack.frames);
    assert t == t[..stack.minTopSinceLastSent] + t[stack.minTopSinceLastSent..];
  }

  /** The same over whole runs of calls and returns. */
  datatype CallOp = Call(token: nat) | Return

  datatype Tracked = Tracked(tokens: seq<nat>, low: nat)

  function Do(t: Tracked, op: CallOp): Option<Tracked> {
    match op
    case Call(token) => Some(Tracked(t.tokens + [token], t.low))
    case Return =>
      if t.tokens == [] then None
      else
        var n := |t.tokens| - 1;
        Some(Tracked(t.tokens[..n], if n < t.low then n else t.low))
  }

  function DoAll(t: Tracked, ops: seq<CallOp>): Option<Tracked> {
    if ops == [] then Some(t)
    else
      var before := DoAll(t, ops[..|ops| - 1]);
      if before.None? then None else Do(before.value, ops[|ops| - 1])
  }

  predicate Agrees(t: Tracked, remote: seq<nat>) {
    t.low <= |t.tokens| && t.low <= |remote| && t.tokens[..t.low] == remote[..t.low]
  }

  /** The number of frames after the first k steps of a run that does not fail. */
  function HeightAt(t: Tracked, ops: seq<CallOp>, k: nat): nat
    requires k <= |ops|
  {
    var u := DoAll(t, ops[..k]);
    if u.None? then 0 else |u.value.tokens|
  }

  lemma {:induction false} HeightBefore(t: Tracked, ops: seq<CallOp>)
    requires ops != []
    ensures forall k: nat :: k < |ops| ==> HeightAt(t, ops, k) == HeightAt(t, ops[..|ops| - 1], k)
  {
    hide DoAll;
    forall k: nat | k < |ops| ensures HeightAt(t, ops, k) == HeightAt(t, ops[..|ops| - 1], k) {
      assert ops[..|ops| - 1][..k] == ops[..k];
    }
  }

  lemma {:induction false} HeightLast(t: Tracked, ops: seq<CallOp>)
    requires DoAll(t, ops).Some?
    ensures HeightAt(t, ops, |ops|) == |DoAll(t, ops).value.tokens|
  {
    assert ops[..|ops|] == ops;
  }

  lemma {:induction false} RunAgrees(t: Tracked, remote: seq<nat>, ops: seq<CallOp>)
    requires Agrees(t, remote) && t.low == |t.tokens| && DoAll(t, ops).Some?
    ensures Agrees(DoAll(t, ops).value, remote)
    ensures forall k: nat :: k <= |ops| ==> DoAll(t, ops).value.low <= HeightAt(t, ops, k)
    ensures exists k: nat :: k <= |ops| && DoAll(t, ops).value.low == HeightAt(t, ops, k)
  {
    hide HeightAt;
    HeightLast(t, ops);
    var v := DoAll(t, ops).value;
    if ops != [] {
      var n := |ops| - 1;
      RunAgrees(t, remote, ops[..n]);
      var u := DoAll(t, ops[..n]).value;
      assert v.tokens[..v.low] == u.tokens[..u.low][..v.low];
      assert remote[..v.low] == remote[..u.low][..v.low];
      HeightBefore(t, ops);
      var k: nat :| k <= n && u.low == HeightAt(t, ops[..n], k);
      assert u.low == HeightAt(t, ops, k);
    }
  }

  /** From a reset with the local stack as a prefix of the replica, dropping the
      unsent pops and appending the new frames gives the current stack, whatever
      calls and returns came in between; and no more is dropped than the lowest height
      reached asks for. */
  lemma {:induction false} DeltaOverRuns(local: seq<nat>, remote: seq<nat>, ops: seq<CallOp>)
    requires |local| <= |remote| && remote[..|local|] == local
    requires DoAll(Tracked(local, |local|), ops).Some?
    ensures var t := DoAll(Tracked(local, |local|), ops).value;
            && t.low <= |remote| && t.low <= |t.tokens|
            && Replay(remote, |remote| - t.low, t.tokens[t.low..]) == t.tokens
            && (forall k: nat :: k <= |ops| ==> t.low <= HeightAt(Tracked(local, |local|), ops, k))
            && (exists k: nat :: k <= |ops| && t.low == HeightAt(Tracked(local, |local|), ops, k))
  {
    var t0 := Tracked(local, |local|);
    assert local[..|local|] == local;
    RunAgrees(t0, remote, ops);
    var t := DoAll(t0, ops).value;
    assert t.tokens == t.tokens[..t.low] + t.tokens[t.low..];
  }

  // ----- commands -----

  datatype Operand = Symbolic(number: int) | Value(content: int)

  datatype ExecCommand = ExecCommand(offset: nat, isBranch: bool, newCallStackFrames: seq<nat>,
                                     callStackFramesPops: nat, evaluationStackPops: nat, operands: seq<Operand>)

  /** Operands as the other side must see them: popped symbolics by their number
      from the top, the others by value. */
  function SentOperands(cells: seq<nat>, ops: seq<Operand>): (r: seq<Operand>)
    requires |ops| <= |cells|
    ensures |r| == |ops|
  {
    seq(|ops|, i requires 0 <= i < |ops| =>
      var c := cells[|cells| - |ops| + i];
      if c == CONCRETE then ops[i] else Symbolic(Symbolics(cells[|cells| - |ops| + i + 1..])))
  }

  /** The number initCommand gives a popped symbolic is the count of symbolics above it. */
  lemma {:induction false} OperandNumber(cells: seq<nat>, m: nat)
    requires Numbered(cells) && m < |cells| && cells[m] != CONCRETE
    ensures Symbolics(cells) - cells[m] == Symbolics(cells[m + 1..])
  {
    SymbolicsAbove(cells, m + 1);
  }

  /** Fills a command from the current stack right after the operands were popped. */
  method InitCommand(stack: Stack, offset: nat, isBranch: bool, ops: array<Operand>, ghost cells: seq<nat>)
    returns (command: ExecCommand)
    requires stack.Valid() && stack.frames != []
    requires var f := stack.frames[|stack.frames| - 1];
             f.Valid() && Numbered(cells) && ops.Length <= |cells|
             && f.Cells() == cells[..|cells| - ops.Length] && f.lastPoppedSymbolics == Popped(cells, ops.Length)
    modifies ops
    ensures Replay(stack.remote, stack.UnsentPops(), command.newCallStackFrames) == Tokens(stack.frames)
    ensures command.callStackFramesPops == stack.UnsentPops()
    ensures var f := stack.frames[|stack.frames| - 1];
            command.evaluationStackPops + f.Tracking().low == Symbolics(f.sent)
    ensures stack.minTopSinceLastSent + |command.newCallStackFrames| == |stack.frames|
    ensures forall i :: 0 <= i < |command.newCallStackFrames| ==>
              command.newCallStackFrames[i] == stack.frames[stack.minTopSinceLastSent + i].unresolvedToken
    ensures command.operands == ops[..] == SentOperands(cells, old(ops[..]))
    ensures command.offset == offset && command.isBranch == isBranch
  {
    var top := stack.frames[|stack.frames| - 1];
    var frames: seq<nat> := [];
    var i := stack.minTopSinceLastSent;
    while i < |stack.frames|
      invariant stack.minTopSinceLastSent <= i <= |stack.frames|
      invariant frames == Tokens(stack.frames)[stack.minTopSinceLastSent..i]
    {
      frames := frames + [stack.frames[i].unresolvedToken];
      i := i + 1;
    }
    assert frames == Tokens(stack.frames)[stack.minTopSinceLastSent..];
    DeltaIsExact(stack);
    MarkSymbolics(top, ops, cells);
    command := ExecCommand(offset, isBranch, frames, stack.UnsentPops(), top.EvaluationStackPops(), ops[..]);
  }

  method MarkSymbolics(top: StackFrame, ops: array<Operand>, ghost cells: seq<nat>)
    requires top.Valid() && Numbered(cells) && ops.Length <= |cells|
    requires top.Cells() == cells[..|cells| - ops.Length] && top.lastPoppedSymbolics == Popped(cells, ops.Length)
    modifies ops
    ensures ops[..] == SentOperands(cells, old(ops[..]))
  {
    hide Symbolics, Numbered, Popped;
    var n := ops.Length;
    var popped := top.lastPoppedSymbolics;
    PoppedFromTop(cells, n);
    PoppedBelow(cells, n);
    var current := top.symbolsCount + |popped|;
    var j := 0;
    while j < |popped|
      invariant j <= |popped|
      invariant forall i :: 0 <= i < n ==>
                  ops[i] == if Recorded(popped[..j], n - 1 - i) then Symbolic(current - cells[|cells| - n + i])
                            else old(ops[i])
    {
      assert RecordOk(cells, n, Symbolics(cells), j, popped[j]);
      RecordedSnoc(popped, j);
      ops[n - popped[j].1 - 1] := Symbolic(current - popped[j].0);
      j := j + 1;
    }
    assert popped[..j] == popped;
    forall i | 0 <= i < n ensures ops[i] == SentOperands(cells, old(ops[..]))[i] {
      var d, m := n - 1 - i, |cells| - n + i;
      PoppedComplete(cells, n, d);
      assert |cells| - 1 - d == m;
      if cells[m] != CONCRETE {
        OperandNumber(cells, m);
      }
    }
    assert ops[..] == SentOperands(cells, old(ops[..]));
  }

  lemma {:induction false} RecordedSnoc(ps: seq<(nat, nat)>, j: nat)
    requires j < |ps|
    ensures forall d: nat :: Recorded(ps[..j + 1], d) <==> Recorded(ps[..j], d) || d == ps[j].1
  {
    forall d: nat ensures Recorded(ps[..j + 1], d) <==> Recorded(ps[..j], d) || d == ps[j].1 {
      if Recorded(ps[..j], d) {
        var i :| 0 <= i < |ps[..j]| && ps[..j][i].1 == d;
        assert ps[..j + 1][i].1 == d;
      }
      if d == ps[j].1 {
        assert ps[..j + 1][j].1 == d;
      }
      if Recorded(ps[..j + 1], d) {
        var i :| 0 <= i < |ps[..j + 1]| && ps[..j + 1][i].1 == d;
        assert i < j ==> ps[..j][i].1 == d;
      }
    }
  }

  /** Concreteness of a callee's arguments from the popped operands; for newobj
      the new object comes first and is concrete. */
  function CalleeArgs(cells: seq<nat>, n: nat, newobj: bool): (r: seq<bool>)
    requires n <= |cells|
    ensures |r| == n + if newobj then 1 else 0
  {
    (if newobj then [true] else []) + seq(n, i requires 0 <= i < n => cells[|cells| - n + i] == CONCRETE)
  }

  /** Calls: an argument of the new frame is symbolic exactly if the operand popped for it was. */
  method PushFrame(stack: Stack, unresolvedToken: nat, resolvedToken: nat, newobj: bool, argsCount: nat, ghost cells: seq<nat>)
    requires stack.Valid() && stack.frames != []
    requires argsCount <= |cells| && stack.frames[|stack.frames| - 1].lastPoppedSymbolics == Popped(cells, argsCount)
    modifies stack`frames
    ensures stack.Valid() && |stack.frames| == |old(stack.frames)| + 1
    ensures stack.frames[|old(stack.frames)|].args == CalleeArgs(cells, argsCount, newobj)
    ensures stack.frames[|old(stack.frames)|].unresolvedToken == unresolvedToken
  {
    hide Popped;
    var n := if newobj then argsCount + 1 else argsCount;
    var args := new bool[n](i => true);
    var popped := stack.frames[|stack.frames| - 1].lastPoppedSymbolics;
    PoppedBelow(cells, argsCount);
    var j := 0;
    while j < |popped|
      invariant j <= |popped|
      invariant forall i :: 0 <= i < n ==> args[i] == !Recorded(popped[..j], n - 1 - i)
      modifies args
    {
      RecordedSnoc(popped, j);
      args[n - popped[j].1 - 1] := false;
      j := j + 1;
    }
    assert popped[..j] == popped;
    forall i | 0 <= i < n ensures args[i] == CalleeArgs(cells, argsCount, newobj)[i] {
      var d := n - 1 - i;
      if d < argsCount {
        PoppedComplete(cells, argsCount, d);
      } else {
        assert newobj && i == 0;
      }
    }
    assert args[..] == CalleeArgs(cells, argsCount, newobj);
    stack.PushFrame(resolvedToken, unresolvedToken, args[..]);
  }

  /** One symbolic cell is sent and then popped: one pop has to be reported. */
  method PopAfterReset() returns (pops: nat)
    ensures pops == 1
  {
    var f := new StackFrame(0, 0, []);
    f.Configure(2);
    f.Push1(false);
    assert f.Cells() == [1];
    f.ResetPopsTracking();
    f.Pop1Async();
    assert f.Cells() == [];
    assert f.sent[..0] == [] && Symbolics(f.sent) == 1;
    pops := f.EvaluationStackPops();
  }
}
