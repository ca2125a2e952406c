/** The spliced list as a program: nodes numbered by position, targets and clauses resolved. */
module Linking {
  import opened Opcodes
  import opened Layout
  import opened Splice

  /** An exception clause by position; both ends are exclusive. */
  datatype Region = Region(flags: int, tryBegin: nat, tryEnd: nat, handlerBegin: nat, handlerEnd: nat,
                           isFilter: bool, filter: nat, token: int)

  function Len(x: Item): nat {
    if x.Probe? then |x.body| else 1
  }

  /** Nodes in front of item a. */
  function Place(items: seq<Item>, a: nat): (p: nat)
    requires a <= |items|
  {
    if a == 0 then 0 else Place(items, a - 1) + Len(items[a - 1])
  }

  /** Position of the node with an original id. */
  function PlaceOf(n: nat, items: seq<Item>, id: nat): nat {
    if id == n then Place(items, |items|) else Place(items, Where(items, id))
  }

  function EmitItem(orig: Code, items: seq<Item>, x: Item): (c: Code)
    requires x.Keep? ==> x.i < |orig|
    ensures |c| == Len(x)
  {
    match x
    case Keep(i, _) =>
      [if HasTarget(orig[i].op) then orig[i].(target := PlaceOf(|orig|, items, orig[i].target)) else orig[i]]
    case Nop(_) => [Instr(NOP, 0, 0)]
    case Probe(body) => body
  }

  predicate InRange(orig: Code, items: seq<Item>) {
    forall a :: 0 <= a < |items| && items[a].Keep? ==> items[a].i < |orig|
  }

  function Emit(orig: Code, items: seq<Item>, a: nat): (c: Code)
    requires InRange(orig, items) && a <= |items|
    ensures |c| == Place(items, a)
  {
    if a == 0 then [] else Emit(orig, items, a - 1) + EmitItem(orig, items, items[a - 1])
  }

  function Linked(orig: Code, items: seq<Item>): (c: Code)
    requires InRange(orig, items)
    ensures |c| == Place(items, |items|)
  {
    Emit(orig, items, |items|)
  }

  function LinkClause(n: nat, items: seq<Item>, k: Clause): Region
    requires Where(items, k.handlerEnd) < |items|
  {
    Region(k.flags, PlaceOf(n, items, k.tryBegin), PlaceOf(n, items, k.tryEnd),
           PlaceOf(n, items, k.handlerBegin), Place(items, Where(items, k.handlerEnd) + 1),
           k.isFilter, if k.isFilter then PlaceOf(n, items, k.filter) else 0, k.token)
  }

  /** The clause of the original list, where ids are positions. */
  function OriginalRegion(k: Clause): Region {
    Region(k.flags, k.tryBegin, k.tryEnd, k.handlerBegin, k.handlerEnd + 1,
           k.isFilter, if k.isFilter then k.filter else 0, k.token)
  }

  ghost predicate ProbesNonEmpty(items: seq<Item>) {
    forall a :: 0 <= a < |items| && items[a].Probe? ==> |items[a].body| > 0
  }

  lemma {:induction false} EmitAt(orig: Code, items: seq<Item>, n: nat, a: nat, k: nat)
    requires InRange(orig, items) && a < n <= |items| && k < Len(items[a])
    ensures Place(items, a) + k < Place(items, a + 1) <= |Emit(orig, items, n)|
    ensures Emit(orig, items, n)[Place(items, a) + k] == EmitItem(orig, items, items[a])[k]
  {
    hide EmitItem;
    if a < n - 1 {
      EmitAt(orig, items, n - 1, a, k);
    }
  }

  lemma {:induction false} PlaceMonotone(items: seq<Item>, a: nat, c: nat)
    requires a <= c <= |items| && ProbesNonEmpty(items)
    ensures Place(items, a) + (c - a) <= Place(items, c)
  {
    if a < c {
      PlaceMonotone(items, a, c - 1);
    }
  }

  lemma {:induction false} InvInRange(orig: Code, items: seq<Item>)
    requires ErasesTo(orig, items)
    ensures InRange(orig, items)
  {
    forall a | 0 <= a < |items| && items[a].Keep? ensures items[a].i < |orig| {
      KeepsInRange(orig, items, a);
    }
  }

  /** A boundary at item w splits the original instructions at Rank(w). */
  lemma {:induction false} BeforeBoundary(items: seq<Item>, a: nat, w: nat)
    requires ProbesNonEmpty(items) && a < |items| && w <= |items|
    requires items[a].Keep? && items[a].i == Rank(items, a)
    ensures Place(items, a) < Place(items, w) <==> items[a].i < Rank(items, w)
  {
    if a < w {
      PlaceMonotone(items, a, w);
      RankMonotone(items, a + 1, w);
    } else {
      PlaceMonotone(items, w, a);
      RankMonotone(items, w, a);
    }
  }

  lemma {:induction false} BeforeAnchor(orig: Code, items: seq<Item>, a: nat, id: nat)
    requires ErasesTo(orig, items) && Anchored(orig, items) && ProbesNonEmpty(items)
    requires a < |items| && items[a].Keep? && id <= |orig|
    ensures Place(items, a) < PlaceOf(|orig|, items, id) <==> items[a].i < id
  {
    if id == |orig| {
      BeforeBoundary(items, a, |items|);
    } else {
      assert AnchoredAt(items, id);
      BeforeBoundary(items, a, Where(items, id));
    }
  }

  /** After any edits, an original instruction lies in a try range or a handler
      exactly if it did before. */
  lemma {:induction false} ClauseCoverage(orig: Code, eh: seq<Clause>, b: Body, k: nat, a: nat)
    requires Inv(orig, eh, b) && ProbesNonEmpty(b.items) && k < |eh| && ClauseInRange(|orig|, eh[k])
    requires a < |b.items| && b.items[a].Keep?
    ensures Where(b.items, b.eh[k].handlerEnd) < |b.items|
    ensures var now := LinkClause(|orig|, b.items, b.eh[k]); var was := eh[k];
            var p, i := Place(b.items, a), b.items[a].i;
            && (now.tryBegin <= p < now.tryEnd <==> was.tryBegin <= i < was.tryEnd)
            && (now.handlerBegin <= p < now.handlerEnd <==> was.handlerBegin <= i <= was.handlerEnd)
            && (was.isFilter ==> (now.filter <= p <==> was.filter <= i))
  {
    hide Where, Rank, Place, UniqueIds, Unbroken;
    assert ClauseKept(b.items, eh[k], b.eh[k]);
    var was := eh[k];
    BeforeAnchor(orig, b.items, a, was.tryBegin);
    BeforeAnchor(orig, b.items, a, was.tryEnd);
    BeforeAnchor(orig, b.items, a, was.handlerBegin);
    BeforeAnchor(orig, b.items, a, was.filter);
    BeforeBoundary(b.items, a, Where(b.items, b.eh[k].handlerEnd) + 1);
  }

  // ----- places of items around a replacement -----

  ghost predicate Swapped(items: seq<Item>, a: nat, r: seq<Item>, t: seq<Item>) {
    a < |items| && t == items[..a] + r + items[a + 1..]
  }

  lemma {:induction false} PlacePrefix(s: seq<Item>, t: seq<Item>, a: nat)
    requires a <= |s| && a <= |t| && s[..a] == t[..a]
    ensures Place(s, a) == Place(t, a)
  {
    if a > 0 {
      assert s[..a - 1] == s[..a][..a - 1] && t[..a - 1] == t[..a][..a - 1];
      assert s[a - 1] == s[..a][a - 1] && t[a - 1] == t[..a][a - 1];
      PlacePrefix(s, t, a - 1);
    }
  }

  lemma {:induction false} PlaceInside(items: seq<Item>, a: nat, r: seq<Item>, t: seq<Item>, k: nat)
    requires Swapped(items, a, r, t) && k <= |r|
    ensures Place(t, a + k) == Place(items, a) + Place(r, k)
  {
    if k == 0 {
      assert t[..a] == items[..a];
      PlacePrefix(items, t, a);
    } else {
      PlaceInside(items, a, r, t, k - 1);
      assert t[a + k - 1] == r[k - 1];
    }
  }

  lemma {:induction false} PlaceBehind(items: seq<Item>, a: nat, r: seq<Item>, t: seq<Item>, c: nat)
    requires Swapped(items, a, r, t) && a < c <= |items|
    ensures Place(t, c + |r| - 1) == Place(items, c) + Place(r, |r|) - Len(items[a])
  {
    if c == a + 1 {
      PlaceInside(items, a, r, t, |r|);
    } else {
      PlaceBehind(items, a, r, t, c - 1);
      assert t[c - 1 + |r| - 1] == items[c - 1];
    }
  }

  lemma {:induction false} PlaceGrows(items: seq<Item>, a: nat, c: nat)
    requires a < c <= |items|
    ensures Place(items, a) + Len(items[a]) <= Place(items, c)
  {
    if a + 1 < c {
      PlaceGrows(items, a, c - 1);
    }
  }

  lemma {:induction false} EnterPlace(items: seq<Item>, body: seq<Instr>, a: nat)
    requires a <= |items|
    ensures Place([Probe(body)] + items, a + 1) == |body| + Place(items, a)
  {
    if a > 0 {
      EnterPlace(items, body, a - 1);
    } else {
      assert Place([Probe(body)] + items, 0) == 0;
    }
  }
}
