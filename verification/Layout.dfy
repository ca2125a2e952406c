/** Code layout and branch relaxation, as done by ILRewriter::Export. */
module Layout {
  import opened Opcodes

  /** One entry of the instruction list. A branch names its target by list
      position; the position just past the last entry is the end of the code. */
  datatype Instr = Instr(op: nat, arg: int, target: nat)

  type Code = seq<Instr>

  predicate WellFormed(c: Code) {
    forall i :: 0 <= i < |c| ==> Known(c[i].op) && c[i].target <= |c|
  }

  /** Byte offset of entry i: the sizes of the entries before it. */
  function Offset(c: Code, i: nat): (n: nat)
    requires i <= |c|
    ensures n <= 10 * i
  {
    if i == 0 then 0 else Offset(c, i - 1) + Size(c[i - 1].op)
  }

  /** Displacement of branch i, relative to the next entry. */
  function Delta(c: Code, i: nat): int
    requires i < |c| && c[i].target <= |c|
  {
    Offset(c, c[i].target) - Offset(c, i + 1)
  }

  predicate FitsInt8(d: int) {
    -128 <= d < 128
  }

  predicate TooFar(c: Code, i: nat)
    requires i < |c| && c[i].target <= |c|
  {
    IsShortBranch(c[i].op) && !FitsInt8(Delta(c, i))
  }

  /** Every short branch reaches its target. */
  predicate Consistent(c: Code)
    requires WellFormed(c)
  {
    forall i :: 0 <= i < |c| ==> !TooFar(c, i)
  }

  predicate SameOrLonger(a: Instr, b: Instr) {
    a == b || (IsShortBranch(a.op) && b == a.(op := Longer(a.op)))
  }

  /** d is c with some short branches made long. */
  ghost predicate Widens(c: Code, d: Code) {
    |c| == |d| && forall i :: 0 <= i < |c| ==> SameOrLonger(c[i], d[i])
  }

  /** One pass over the branches; all displacements are measured before any opcode changes. */
  function WidenPass(c: Code): (d: Code)
    requires WellFormed(c)
    ensures |d| == |c|
    ensures forall i :: 0 <= i < |c| ==>
              d[i] == if TooFar(c, i) then c[i].(op := Longer(c[i].op)) else c[i]
  {
    seq(|c|, i requires 0 <= i < |c| => if TooFar(c, i) then c[i].(op := Longer(c[i].op)) else c[i])
  }

  function ShortCount(c: Code): nat {
    if c == [] then 0 else (if IsShortBranch(c[|c| - 1].op) then 1 else 0) + ShortCount(c[..|c| - 1])
  }

  /** Widening makes at least one short branch long unless nothing was too far. */
  lemma {:induction false} WideningDropsShorts(c: Code, d: Code)
    requires Widens(c, d)
    ensures ShortCount(d) <= ShortCount(c)
    ensures c != d ==> ShortCount(d) < ShortCount(c)
  {
    if c != [] {
      var n := |c| - 1;
      WideningDropsShorts(c[..n], d[..n]);
      assert c == c[..n] + [c[n]] && d == d[..n] + [d[n]];
    }
  }

  lemma {:induction false} WidenPassWidens(c: Code)
    requires WellFormed(c)
    ensures Widens(c, WidenPass(c)) && WellFormed(WidenPass(c))
    ensures WidenPass(c) == c <==> Consistent(c)
  {
    var d := WidenPass(c);
    forall i | 0 <= i < |c| ensures SameOrLonger(c[i], d[i]) && Known(d[i].op) && (d[i] == c[i] <==> !TooFar(c, i)) {
      if TooFar(c, i) { assert d[i].op != c[i].op; }
    }
    if Consistent(c) {
      assert d == c;
    }
  }

  /** The fixpoint that Export iterates to. */
  function Relax(c: Code): (d: Code)
    requires WellFormed(c)
    ensures WellFormed(d) && |d| == |c|
    decreases ShortCount(c)
  {
    WidenPassWidens(c);
    WideningDropsShorts(c, WidenPass(c));
    if WidenPass(c) == c then c else Relax(WidenPass(c))
  }

  /** The bytes between two entries can only grow when branches are widened. */
  lemma {:induction false} WideningStretches(c: Code, d: Code, i: nat, j: nat)
    requires Widens(c, d) && i <= j <= |c|
    ensures 0 <= Offset(c, j) - Offset(c, i) <= Offset(d, j) - Offset(d, i)
    decreases j - i
  {
    hide Size;
    if i < j {
      WideningStretches(c, d, i, j - 1);
      assert SameOrLonger(c[j - 1], d[j - 1]);
    }
  }

  /** So a branch that is short and in reach in a wider layout is in reach already. */
  lemma {:induction false} TooFarStaysTooFar(c: Code, d: Code, i: nat)
    requires WellFormed(c) && Widens(c, d) && i < |c| && TooFar(c, i) && IsShortBranch(d[i].op)
    ensures d[i].target <= |d| && TooFar(d, i)
  {
    assert SameOrLonger(c[i], d[i]);
    var t := c[i].target;
    if t >= i + 1 {
      WideningStretches(c, d, i + 1, t);
    } else {
      WideningStretches(c, d, t, i + 1);
    }
  }

  lemma {:induction false} PassStaysBelow(c: Code, d: Code)
    requires WellFormed(c) && Widens(c, d) && WellFormed(d) && Consistent(d)
    ensures Widens(WidenPass(c), d)
  {
    var e := WidenPass(c);
    forall i | 0 <= i < |c| ensures SameOrLonger(e[i], d[i]) {
      assert SameOrLonger(c[i], d[i]);
      if TooFar(c, i) && IsShortBranch(d[i].op) {
        TooFarStaysTooFar(c, d, i);
      }
    }
  }

  lemma {:induction false} WidensTransitive(c: Code, d: Code, e: Code)
    requires Widens(c, d) && Widens(d, e)
    ensures Widens(c, e)
  {
    forall i | 0 <= i < |c| ensures SameOrLonger(c[i], e[i]) {
      assert SameOrLonger(c[i], d[i]) && SameOrLonger(d[i], e[i]);
    }
  }

  /** Relaxation ends in a consistent layout of the same list. */
  lemma {:induction false} RelaxIsConsistent(c: Code)
    requires WellFormed(c)
    ensures Widens(c, Relax(c)) && Consistent(Relax(c))
    decreases ShortCount(c)
  {
    WidenPassWidens(c);
    WideningDropsShorts(c, WidenPass(c));
    if WidenPass(c) != c {
      RelaxIsConsistent(WidenPass(c));
      WidensTransitive(c, WidenPass(c), Relax(c));
    }
  }

  /** ... and it is the least one: any consistent widening widens at least those branches. */
  lemma {:induction false} RelaxIsLeast(c: Code, d: Code)
    requires WellFormed(c) && WellFormed(d) && Widens(c, d) && Consistent(d)
    ensures Widens(Relax(c), d)
    decreases ShortCount(c)
  {
    WidenPassWidens(c);
    WideningDropsShorts(c, WidenPass(c));
    if WidenPass(c) != c {
      PassStaysBelow(c, d);
      RelaxIsLeast(WidenPass(c), d);
    }
  }
}
