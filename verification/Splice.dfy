/** The instruction list while probes are spliced in, and what every insertion keeps. */
module Splice {
  import opened Opcodes
  import opened Layout

  /** A probe: native address, signature token and number of arguments. */
  datatype ProbeCall = ProbeCall(addr: int, sig: int, arity: nat)

  function CoverageBody(offset: int, methodId: int, p: ProbeCall): seq<Instr> {
    [Instr(LDC_I4, offset, 0), Instr(LDC_I4, methodId, 0), Instr(LDC_I8, p.addr, 0), Instr(CALLI, p.sig, 0)]
  }

  function EnterBody(offset: int, methodId: int, p: ProbeCall): seq<Instr> {
    [Instr(LDC_I4, offset, 0), Instr(LDC_I4, methodId, 0), Instr(LDC_I4_0, 0, 0),
     Instr(LDC_I8, p.addr, 0), Instr(CALLI, p.sig, 0)]
  }

  /** A stretch of the list. Nodes that branches or clauses may refer to have
      ids; node i of the original list has id i, and |orig| stands for the end. */
  datatype Item =
    | Keep(i: nat, id: nat)          // carries original instruction i
    | Nop(id: nat)                   // an emptied node, or one added to close a probe
    | Probe(body: seq<Instr>)        // the nodes of one probe call

  /** An exception clause; handlerEnd is the last node of the handler. */
  datatype Clause = Clause(flags: int, tryBegin: nat, tryEnd: nat, handlerBegin: nat, handlerEnd: nat,
                           isFilter: bool, filter: nat, token: int)

  datatype Body = Body(items: seq<Item>, eh: seq<Clause>, next: nat, maxStack: nat)

  // ----- the three insertions -----

  predicate HasId(x: Item, id: nat) {
    !x.Probe? && x.id == id
  }

  /** The item with the given id, or the number of items if there is none. */
  function Where(items: seq<Item>, id: nat): (a: nat)
    ensures a <= |items|
    ensures a < |items| ==> HasId(items[a], id)
    ensures forall b :: 0 <= b < a ==> !HasId(items[b], id)
  {
    if items == [] then 0
    else if HasId(items[0], id) then 0
    else 1 + Where(items[1..], id)
  }

  datatype Edit =
    | Split(id: nat)                           // tail.: empty the node, move the prefix behind it
    | Before(id: nat, body: seq<Instr>)        // AddCoverageProbeBefore
    | After(id: nat, body: seq<Instr>)         // AddCoverageProbeAfter

  /** The same item, carried by another node. */
  function Moved(x: Item, id: nat): Item
    requires !x.Probe?
  {
    if x.Keep? then Keep(x.i, id) else Nop(id)
  }

  function Replacement(x: Item, e: Edit, n: nat): seq<Item>
    requires !x.Probe?
  {
    match e
    case Split(_) => [Nop(x.id), Moved(x, n)]
    case Before(_, body) => [Nop(x.id), Probe(body), Moved(x, n)]
    case After(_, body) => [x, Probe(body), Nop(n)]
  }

  function ItemAt(b: Body, id: nat): (a: nat)
    requires Where(b.items, id) < |b.items|
    ensures a < |b.items| && HasId(b.items[a], id)
  {
    Where(b.items, id)
  }

  function CorrectHandlers(eh: seq<Clause>, e: Edit, n: nat): (r: seq<Clause>)
    ensures |r| == |eh|
    ensures forall k :: 0 <= k < |eh| ==>
              r[k] == if !e.Split? && eh[k].handlerEnd == e.id then eh[k].(handlerEnd := n) else eh[k]
  {
    seq(|eh|, k requires 0 <= k < |eh| =>
      if !e.Split? && eh[k].handlerEnd == e.id then eh[k].(handlerEnd := n) else eh[k])
  }

  function OpOf(orig: Code, x: Item): nat {
    if x.Keep? && x.i < |orig| then orig[x.i].op else NOP
  }

  function BodyPushes(body: seq<Instr>): nat {
    if body == [] then 0 else Pushes(body[0].op) + BodyPushes(body[1..])
  }

  lemma {:induction false} CoveragePushes(o: int, id: int, p: ProbeCall)
    ensures BodyPushes(CoverageBody(o, id, p)) == 4
  {
    var body := CoverageBody(o, id, p);
    assert body[3..][1..] == [];
    assert BodyPushes(body[3..]) == 1;
    assert body[2..][1..] == body[3..];
    assert BodyPushes(body[2..]) == 2;
    assert body[1..][1..] == body[2..];
  }

  lemma {:induction false} EnterPushes(o: int, id: int, p: ProbeCall)
    ensures BodyPushes(EnterBody(o, id, p)) == 5
  {
    var body := EnterBody(o, id, p);
    assert body[4..][1..] == [];
    assert BodyPushes(body[4..]) == 1;
    assert body[3..][1..] == body[4..];
    assert BodyPushes(body[3..]) == 2;
    assert body[2..][1..] == body[3..];
    assert BodyPushes(body[2..]) == 3;
    assert body[1..][1..] == body[2..];
  }

  /** What AdjustState adds to the maximal depth for the nodes of one edit. */
  function EditPushes(op: nat, e: Edit): nat {
    match e
    case Split(_) => Pushes(op)
    case Before(_, body) => Pushes(op) + BodyPushes(body)
    case After(_, body) => Pushes(NOP) + BodyPushes(body)
  }

  function Apply(orig: Code, b: Body, e: Edit): Body
    requires Where(b.items, e.id) < |b.items|
  {
    var a := ItemAt(b, e.id);
    Body(b.items[..a] + Replacement(b.items[a], e, b.next) + b.items[a + 1..],
         CorrectHandlers(b.eh, e, b.next),
         b.next + 1,
         b.maxStack + EditPushes(OpOf(orig, b.items[a]), e))
  }

  /** AddEnterProbe: a probe in front of everything. */
  function Enter(b: Body, body: seq<Instr>): Body {
    b.(items := [Probe(body)] + b.items, maxStack := b.maxStack + BodyPushes(body))
  }

  function Imported(orig: Code, eh: seq<Clause>, maxStack: nat): Body {
    Body(seq(|orig|, i requires 0 <= i < |orig| => Keep(i, i)), eh, |orig| + 1, maxStack + BodyPushes(orig))
  }

  // ----- the invariant -----

  /** Original instructions before item a: also the one that control entering at a reaches next. */
  function Rank(items: seq<Item>, a: nat): (r: nat)
    requires a <= |items|
    ensures r <= a
  {
    if a == 0 then 0 else Rank(items, a - 1) + (if items[a - 1].Keep? then 1 else 0)
  }

  /** Erasing what was inserted leaves the original instructions, in order. */
  ghost predicate ErasesTo(orig: Code, items: seq<Item>) {
    && (forall a :: 0 <= a < |items| && items[a].Keep? ==> items[a].i == Rank(items, a))
    && Rank(items, |items|) == |orig|
  }

  ghost predicate UniqueIds(items: seq<Item>, n: nat, next: nat) {
    && n < next
    && (forall a :: 0 <= a < |items| && !items[a].Probe? ==> items[a].id < next && items[a].id != n)
    && (forall a, b :: 0 <= a < b < |items| && !items[a].Probe? && !items[b].Probe? ==> items[a].id != items[b].id)
  }

  /** Control that enters at original node i meets only inserted nodes before instruction i. */
  predicate AnchoredAt(items: seq<Item>, i: nat) {
    var a := Where(items, i);
    a < |items| && Rank(items, a) == i
  }

  ghost predicate Anchored(orig: Code, items: seq<Item>) {
    forall i :: 0 <= i < |orig| ==> AnchoredAt(items, i)
  }

  /** Instructions that must directly follow their predecessor: entries of a
      switch table, prefixed instructions, and the ret of a tail call. */
  predicate Glued(orig: Code, i: nat) {
    && i < |orig|
    && (|| orig[i].op == SWITCH_ARG
        || (i > 0 && IsPrefix(orig[i - 1].op))
        || (i > 1 && orig[i - 2].op == TAILCALL))
  }

  /** Nothing was inserted in front of a glued instruction, which stays on its own node. */
  ghost predicate Unbroken(orig: Code, items: seq<Item>) {
    forall a :: 0 <= a < |items| && items[a].Keep? && Glued(orig, items[a].i) ==>
      a > 0 && items[a - 1].Keep? && items[a].id == items[a].i
  }

  /** The clause still covers what it covered: bounds other than the handler's
      last node are untouched, and that node closes the same original instruction. */
  predicate ClauseKept(items: seq<Item>, was: Clause, now: Clause) {
    && now == was.(handlerEnd := now.handlerEnd)
    && var a := Where(items, now.handlerEnd);
       a < |items| && Rank(items, a + 1) == was.handlerEnd + 1
  }

  ghost predicate Inv(orig: Code, eh: seq<Clause>, b: Body) {
    && ErasesTo(orig, b.items)
    && UniqueIds(b.items, |orig|, b.next)
    && Anchored(orig, b.items)
    && Unbroken(orig, b.items)
    && |b.eh| == |eh|
    && (forall k :: 0 <= k < |eh| ==> ClauseKept(b.items, eh[k], b.eh[k]))
  }

  /** An edit may not come in front of a glued instruction, nor cut a handler's last node off. */
  ghost predicate Allowed(orig: Code, b: Body, e: Edit) {
    var a := Where(b.items, e.id);
    && a < |b.items|
    && var x := b.items[a];
    && (x.Keep? ==> !Glued(orig, if e.After? then x.i + 1 else x.i))
    && (e.Split? ==> forall k :: 0 <= k < |b.eh| ==> b.eh[k].handlerEnd != e.id)
  }

  // ----- every edit keeps the invariant -----

  lemma {:induction false} WhereIs(items: seq<Item>, n: nat, next: nat, a: nat)
    requires UniqueIds(items, n, next) && a < |items| && !items[a].Probe?
    ensures Where(items, items[a].id) == a
  {
    var w := Where(items, items[a].id);
    assert HasId(items[a], items[a].id);
  }

  lemma {:induction false} RankPrefix(s: seq<Item>, t: seq<Item>, a: nat)
    requires a <= |s| && a <= |t| && s[..a] == t[..a]
    ensures Rank(s, a) == Rank(t, a)
  {
    if a > 0 {
      assert s[..a - 1] == s[..a][..a - 1] && t[..a - 1] == t[..a][..a - 1];
      assert s[a - 1] == s[..a][a - 1] && t[a - 1] == t[..a][a - 1];
      RankPrefix(s, t, a - 1);
    }
  }

  /** A list with one item replaced by others that carry the same instruction. */
  ghost predicate Replaces(items: seq<Item>, a: nat, r: seq<Item>, t: seq<Item>) {
    && a < |items| && 0 < |r|
    && t == items[..a] + r + items[a + 1..]
    && Rank(r, |r|) == (if items[a].Keep? then 1 else 0)
  }

  lemma {:induction false} RankInside(items: seq<Item>, a: nat, r: seq<Item>, t: seq<Item>, k: nat)
    requires Replaces(items, a, r, t) && k <= |r|
    ensures Rank(t, a + k) == Rank(items, a) + Rank(r, k)
  {
    if k == 0 {
      assert t[..a] == items[..a];
      RankPrefix(items, t, a);
    } else {
      RankInside(items, a, r, t, k - 1);
      assert t[a + k - 1] == r[k - 1];
    }
  }

  lemma {:induction false} RankBehind(items: seq<Item>, a: nat, r: seq<Item>, t: seq<Item>, c: nat)
    requires Replaces(items, a, r, t) && a < c <= |items|
    ensures Rank(t, c + |r| - 1) == Rank(items, c)
  {
    if c == a + 1 {
      RankInside(items, a, r, t, |r|);
    } else {
      RankBehind(items, a, r, t, c - 1);
      assert t[c - 1 + |r| - 1] == items[c - 1];
    }
  }

  /** Where the items that were not replaced have gone. */
  function NewPlace(a: nat, grow: nat, c: nat): nat {
    if c <= a then c else c + grow
  }

  lemma {:induction false} RankKept(items: seq<Item>, a: nat, r: seq<Item>, t: seq<Item>, c: nat)
    requires Replaces(items, a, r, t) && c < |items|
    ensures NewPlace(a, |r| - 1, c) < |t|
    ensures Rank(t, NewPlace(a, |r| - 1, c)) == Rank(items, c)
    ensures c != a ==> t[NewPlace(a, |r| - 1, c)] == items[c]
                       && Rank(t, NewPlace(a, |r| - 1, c) + 1) == Rank(items, c + 1)
  {
    if c <= a {
      assert t[..c] == items[..c];
      RankPrefix(items, t, c);
    } else {
      RankBehind(items, a, r, t, c);
    }
  }

  /** The shape every replacement has: it starts with the old node, ends with
      the new one, and carries the old item's instruction exactly once. */
  lemma {:induction false} ReplacementShape(x: Item, e: Edit, n: nat)
    requires !x.Probe?
    ensures var r := Replacement(x, e, n); var l := |r| - 1;
            && 1 <= l <= 2
            && HasId(r[0], x.id) && HasId(r[l], n)
            && (l == 2 ==> r[1].Probe?)
            && Rank(r, |r|) == (if x.Keep? then 1 else 0)
            && (forall k :: 0 <= k <= l && r[k].Keep? ==> x.Keep? && r[k].i == x.i && Rank(r, k) == 0)
            && (e.After? ==> r[0] == x && r[l] == Nop(n))
            && (!e.After? ==> r[0] == Nop(x.id) && r[l] == Moved(x, n))
  {
    var r := Replacement(x, e, n);
    assert Rank(r, 0) == 0;
    assert Rank(r, 1) == if r[0].Keep? then 1 else 0;
    assert Rank(r, 2) == Rank(r, 1) + if r[1].Keep? then 1 else 0;
  }

  /** One edit at item a of a list that satisfies the invariant. */
  ghost predicate Edited(orig: Code, b: Body, e: Edit, a: nat, r: seq<Item>, t: seq<Item>) {
    && a < |b.items| && HasId(b.items[a], e.id)
    && r == Replacement(b.items[a], e, b.next)
    && Replaces(b.items, a, r, t)
    && UniqueIds(b.items, |orig|, b.next)
  }

  lemma {:induction false} EditErases(orig: Code, b: Body, e: Edit, a: nat, r: seq<Item>, t: seq<Item>)
    requires Edited(orig, b, e, a, r, t) && ErasesTo(orig, b.items)
    ensures ErasesTo(orig, t)
  {
    hide Rank, Replacement, UniqueIds;
    var g := |r| - 1;
    ReplacementShape(b.items[a], e, b.next);
    forall p | 0 <= p < |t| && t[p].Keep? ensures t[p].i == Rank(t, p) {
      if p < a {
        RankKept(b.items, a, r, t, p);
      } else if p <= a + g {
        RankInside(b.items, a, r, t, p - a);
        assert t[p] == r[p - a];
      } else {
        RankKept(b.items, a, r, t, p - g);
      }
    }
    RankBehind(b.items, a, r, t, |b.items|);
  }

  lemma {:induction false} EditUnique(orig: Code, b: Body, e: Edit, a: nat, r: seq<Item>, t: seq<Item>)
    requires Edited(orig, b, e, a, r, t)
    ensures UniqueIds(t, |orig|, b.next + 1)
  {
    var g := |r| - 1;
    var items := b.items;
    ReplacementShape(items[a], e, b.next);
    forall p | 0 <= p < |t| && !t[p].Probe?
      ensures p == a + g ==> t[p].id == b.next
      ensures p != a + g ==> var c := if p <= a then p else p - g;
                             0 <= c < |items| && !items[c].Probe? && t[p].id == items[c].id
    {
      if a <= p <= a + g {
        assert t[p] == r[p - a];
      } else if p > a {
        assert t[p] == items[p - g];
      }
    }
  }

  lemma {:induction false} OldId(orig: Code, b: Body, e: Edit, a: nat, r: seq<Item>, t: seq<Item>, id: nat)
    requires Edited(orig, b, e, a, r, t) && Where(b.items, id) < |b.items|
    ensures Where(t, id) == NewPlace(a, |r| - 1, Where(b.items, id)) < |t|
    ensures Rank(t, Where(t, id)) == Rank(b.items, Where(b.items, id))
    ensures id != e.id ==> Rank(t, Where(t, id) + 1) == Rank(b.items, Where(b.items, id) + 1)
  {
    hide Where, Rank, Replacement;
    var c := Where(b.items, id);
    WhereIs(b.items, |orig|, b.next, a);
    RankKept(b.items, a, r, t, c);
    EditUnique(orig, b, e, a, r, t);
    ReplacementShape(b.items[a], e, b.next);
    var p := NewPlace(a, |r| - 1, c);
    assert t[a] == r[0];
    WhereIs(t, |orig|, b.next + 1, p);
  }

  lemma {:induction false} NewId(orig: Code, b: Body, e: Edit, a: nat, r: seq<Item>, t: seq<Item>)
    requires Edited(orig, b, e, a, r, t)
    ensures Where(t, b.next) == a + |r| - 1 < |t|
    ensures Rank(t, a + |r|) == Rank(b.items, a + 1)
  {
    EditUnique(orig, b, e, a, r, t);
    ReplacementShape(b.items[a], e, b.next);
    assert t[a + |r| - 1] == r[|r| - 1];
    WhereIs(t, |orig|, b.next + 1, a + |r| - 1);
    RankBehind(b.items, a, r, t, a + 1);
  }

  lemma {:induction false} EditUnbroken(orig: Code, b: Body, e: Edit, a: nat, r: seq<Item>, t: seq<Item>)
    requires Edited(orig, b, e, a, r, t) && ErasesTo(orig, b.items) && Unbroken(orig, b.items)
    requires Allowed(orig, b, e)
    ensures Unbroken(orig, t)
  {
    var g := |r| - 1;
    var items := b.items;
    ReplacementShape(items[a], e, b.next);
    WhereIs(items, |orig|, b.next, a);
    forall p | 0 <= p < |t| && t[p].Keep? && Glued(orig, t[p].i)
      ensures p > 0 && t[p - 1].Keep? && t[p].id == t[p].i
    {
      if p < a {
        assert t[p] == items[p] && t[p - 1] == items[p - 1];
      } else if p <= a + g {
        assert t[p] == r[p - a];
        assert items[a].Keep? && items[a].i == t[p].i;
        assert p == a && t[p - 1] == items[a - 1];
      } else {
        assert t[p] == items[p - g];
        if p == a + g + 1 {
          assert items[a].Keep? && items[a + 1].i == items[a].i + 1;
          assert t[p - 1] == r[g];
        } else {
          assert t[p - 1] == items[p - g - 1];
        }
      }
    }
  }

  lemma {:induction false} EditClause(orig: Code, b: Body, e: Edit, a: nat, r: seq<Item>, t: seq<Item>, was: Clause, now: Clause)
    requires Edited(orig, b, e, a, r, t) && ClauseKept(b.items, was, now)
    requires e.Split? ==> now.handlerEnd != e.id
    ensures ClauseKept(t, was, if !e.Split? && now.handlerEnd == e.id then now.(handlerEnd := b.next) else now)
  {
    hide Where, Rank, Replacement, UniqueIds, Replaces;
    if now.handlerEnd == e.id {
      WhereIs(b.items, |orig|, b.next, a);
      NewId(orig, b, e, a, r, t);
    } else {
      OldId(orig, b, e, a, r, t, now.handlerEnd);
    }
  }

  lemma {:induction false} KeepsInRange(orig: Code, items: seq<Item>, a: nat)
    requires ErasesTo(orig, items) && a < |items| && items[a].Keep?
    ensures items[a].i < |orig|
  {
    RankMonotone(items, a + 1, |items|);
  }

  lemma {:induction false} RankMonotone(items: seq<Item>, a: nat, c: nat)
    requires a <= c <= |items|
    ensures Rank(items, a) <= Rank(items, c)
  {
    if a < c {
      RankMonotone(items, a, c - 1);
    }
  }

  /** Every allowed insertion keeps the invariant. */
  lemma {:induction false} EditKeepsInv(orig: Code, eh: seq<Clause>, b: Body, e: Edit)
    requires Inv(orig, eh, b) && Allowed(orig, b, e)
    ensures Inv(orig, eh, Apply(orig, b, e))
  {
    hide Where, Rank, Replacement, ClauseKept;
    var a := Where(b.items, e.id);
    var r := Replacement(b.items[a], e, b.next);
    var t := b.items[..a] + r + b.items[a + 1..];
    var b' := Apply(orig, b, e);
    ReplacementShape(b.items[a], e, b.next);
    assert b'.items == t;
    assert Edited(orig, b, e, a, r, t);
    EditErases(orig, b, e, a, r, t);
    EditUnique(orig, b, e, a, r, t);
    EditUnbroken(orig, b, e, a, r, t);
    forall i | 0 <= i < |orig| ensures AnchoredAt(t, i) {
      assert AnchoredAt(b.items, i);
      OldId(orig, b, e, a, r, t, i);
    }
    forall k | 0 <= k < |eh| ensures ClauseKept(t, eh[k], b'.eh[k]) {
      EditClause(orig, b, e, a, r, t, eh[k], b.eh[k]);
    }
  }

  /** Clauses as ImportEH builds them: bounds are nodes of the list or its end,
      and a handler has a last instruction. */
  predicate ClauseInRange(n: nat, k: Clause) {
    k.tryBegin <= n && k.tryEnd <= n && k.handlerBegin < n && k.handlerEnd < n && k.filter <= n
  }

  lemma {:induction false} ImportedRank(orig: Code, eh: seq<Clause>, m: nat, a: nat)
    requires a <= |orig|
    ensures Rank(Imported(orig, eh, m).items, a) == a
  {
    if a > 0 {
      ImportedRank(orig, eh, m, a - 1);
    }
  }

  /** A freshly imported list satisfies the invariant. */
  lemma {:induction false} ImportedInv(orig: Code, eh: seq<Clause>, m: nat)
    requires forall k :: 0 <= k < |eh| ==> ClauseInRange(|orig|, eh[k])
    requires !Glued(orig, 0)
    ensures Inv(orig, eh, Imported(orig, eh, m))
  {
    hide Where, Rank;
    var b := Imported(orig, eh, m);
    forall a | 0 <= a <= |orig| ensures Rank(b.items, a) == a {
      ImportedRank(orig, eh, m, a);
    }
    assert UniqueIds(b.items, |orig|, b.next);
    forall i | 0 <= i < |orig| ensures AnchoredAt(b.items, i) && Where(b.items, i) == i {
      WhereIs(b.items, |orig|, b.next, i);
    }
    forall k | 0 <= k < |eh| ensures ClauseKept(b.items, eh[k], b.eh[k]) {
      assert Where(b.items, eh[k].handlerEnd) == eh[k].handlerEnd;
    }
  }

  lemma {:induction false} EnterRank(items: seq<Item>, body: seq<Instr>, a: nat)
    requires a <= |items|
    ensures Rank([Probe(body)] + items, a + 1) == Rank(items, a)
  {
    if a > 0 {
      EnterRank(items, body, a - 1);
    } else {
      assert Rank([Probe(body)] + items, 0) == 0;
    }
  }

  lemma {:induction false} EnterWhere(items: seq<Item>, body: seq<Instr>, id: nat)
    ensures Where([Probe(body)] + items, id) == 1 + Where(items, id)
  {
    assert ([Probe(body)] + items)[1..] == items;
  }

  /** So does putting the enter probe in front. */
  lemma {:induction false} EnterKeepsInv(orig: Code, eh: seq<Clause>, b: Body, body: seq<Instr>)
    requires Inv(orig, eh, b)
    requires !Glued(orig, 0)
    ensures Inv(orig, eh, Enter(b, body))
  {
    hide Where, Rank;
    var t := Enter(b, body).items;
    forall a | 0 <= a <= |b.items| ensures Rank(t, a + 1) == Rank(b.items, a) {
      EnterRank(b.items, body, a);
    }
    forall id: nat ensures Where(t, id) == 1 + Where(b.items, id) {
      EnterWhere(b.items, body, id);
    }
    forall i | 0 <= i < |orig| ensures AnchoredAt(t, i) {
      assert AnchoredAt(b.items, i);
    }
    forall p | 0 <= p < |t| && t[p].Keep? ensures t[p].i == Rank(t, p) {
      assert t[p] == b.items[p - 1];
    }
    forall k | 0 <= k < |eh| ensures ClauseKept(t, eh[k], b.eh[k]) {
      assert ClauseKept(b.items, eh[k], b.eh[k]);
    }
  }
}
