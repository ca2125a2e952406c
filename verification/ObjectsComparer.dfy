/** Comparison of object graphs with cycles. */
module ObjectsComparer {
  datatype Ref = Null | Obj(id: nat)

  /** What reflection shows of an object: its type and, by kind, its value, its
      compared fields, or the shape and elements of an array. */
  datatype Content =
    | Leaf(typ: nat, value: int)
    | Fields(typ: nat, fields: seq<Ref>)
    | Array(typ: nat, lengths: seq<nat>, lowerBounds: seq<int>, elements: seq<Ref>)

  type Graph = map<nat, Content>

  function Children(c: Content): seq<Ref> {
    match c
    case Leaf(_, _) => []
    case Fields(_, fields) => fields
    case Array(_, _, _, elements) => elements
  }

  function Product(ns: seq<nat>): nat {
    if ns == [] then 1 else ns[0] * Product(ns[1..])
  }

  /** Objects of one type are of one kind and have the same fields; an array has
      as many elements as its dimensions say. */
  ghost predicate Heap(g: Graph) {
    && (forall a :: a in g ==> forall x :: x in Children(g[a]) && x.Obj? ==> x.id in g)
    && (forall a, b :: a in g && b in g && g[a].typ == g[b].typ ==>
          && (g[a].Leaf? <==> g[b].Leaf?) && (g[a].Fields? <==> g[b].Fields?)
          && (g[a].Fields? ==> |g[a].fields| == |g[b].fields|))
    && (forall a :: a in g && g[a].Array? ==>
          |g[a].lengths| == |g[a].lowerBounds| && |g[a].elements| == Product(g[a].lengths))
  }

  ghost predicate Valid(g: Graph, x: Ref) {
    x.Obj? ==> x.id in g
  }

  // ----- bisimilarity, the meaning of "equal graphs" -----

  ghost predicate Pair(r: set<(nat, nat)>, x: Ref, y: Ref) {
    (x.Null? && y.Null?) || (x.Obj? && y.Obj? && (x.id, y.id) in r)
  }

  ghost predicate Pairwise(r: set<(nat, nat)>, xs: seq<Ref>, ys: seq<Ref>) {
    |xs| == |ys| && forall i :: 0 <= i < |xs| ==> Pair(r, xs[i], ys[i])
  }

  /** Same type, equal leaves, same array shape, and pairwise related children. */
  ghost predicate Alike(r: set<(nat, nat)>, c: Content, d: Content) {
    && c.typ == d.typ
    && match c
       case Leaf(_, v) => d.Leaf? && v == d.value
       case Fields(_, fields) => d.Fields? && Pairwise(r, fields, d.fields)
       case Array(_, lengths, lowerBounds, elements) =>
         d.Array? && lengths == d.lengths && lowerBounds == d.lowerBounds && Pairwise(r, elements, d.elements)
  }

  ghost predicate Bisimulation(g: Graph, r: set<(nat, nat)>) {
    forall p :: p in r ==> p.0 in g && p.1 in g && Alike(r, g[p.0], g[p.1])
  }

  ghost predicate Bisimilar(g: Graph, x: Ref, y: Ref) {
    exists r :: Bisimulation(g, r) && Pair(r, x, y)
  }

  lemma {:induction false} AlikeMonotone(r: set<(nat, nat)>, s: set<(nat, nat)>, c: Content, d: Content)
    requires Alike(r, c, d) && r <= s
    ensures Alike(s, c, d)
  {
    forall xs, ys | Pairwise(r, xs, ys) ensures Pairwise(s, xs, ys) {
      forall i | 0 <= i < |xs| ensures Pair(s, xs[i], ys[i]) {
        assert Pair(r, xs[i], ys[i]);
      }
    }
  }

  /** The children of bisimilar objects are bisimilar. */
  lemma {:induction false} BisimilarChildren(g: Graph, a: nat, b: nat)
    requires Bisimilar(g, Obj(a), Obj(b))
    ensures a in g && b in g && g[a].typ == g[b].typ
    ensures g[a].Leaf? ==> g[b] == g[a]
    ensures g[a].Array? ==> g[b].Array? && g[a].lengths == g[b].lengths && g[a].lowerBounds == g[b].lowerBounds
    ensures var xs, ys := Children(g[a]), Children(g[b]);
            |xs| == |ys| && forall i :: 0 <= i < |xs| ==> Bisimilar(g, xs[i], ys[i])
  {
    var r :| Bisimulation(g, r) && Pair(r, Obj(a), Obj(b));
    assert Alike(r, g[(a, b).0], g[(a, b).1]);
    var xs, ys := Children(g[a]), Children(g[b]);
    forall i | 0 <= i < |xs| ensures Bisimilar(g, xs[i], ys[i]) {
      assert Pair(r, xs[i], ys[i]);
    }
  }

  // ----- ... and by what can be observed along paths -----

  /** Where a path of child numbers leads, if it leads anywhere. */
  function Follow(g: Graph, x: Ref, path: seq<nat>): Ref
    requires x.Obj? ==> x.id in g
    requires forall a :: a in g ==> forall y :: y in Children(g[a]) && y.Obj? ==> y.id in g
    decreases |path|
  {
    if path == [] then x
    else if x.Null? || path[0] >= |Children(g[x.id])| then Null
    else
      assert Children(g[x.id])[path[0]] in Children(g[x.id]);
      Follow(g, Children(g[x.id])[path[0]], path[1..])
  }

  /** Two references look the same: both null, or objects of one type with the same value,
      the same dimensions or the same number of fields. */
  predicate SameLook(g: Graph, x: Ref, y: Ref)
    requires (x.Obj? ==> x.id in g) && (y.Obj? ==> y.id in g)
  {
    if x.Null? || y.Null? then x == y
    else match (g[x.id], g[y.id])
      case (Leaf(t, v), Leaf(u, w)) => t == u && v == w
      case (Fields(t, xs), Fields(u, ys)) => t == u && |xs| == |ys|
      case (Array(t, ls, bs, xs), Array(u, ms, cs, ys)) => t == u && ls == ms && bs == cs && |xs| == |ys|
      case _ => false
  }

  lemma {:induction false} FollowValid(g: Graph, x: Ref, path: seq<nat>)
    requires Heap(g) && Valid(g, x)
    ensures Valid(g, Follow(g, x, path))
    decreases |path|
  {
    hide Heap;
    assert forall a :: a in g ==> forall y :: y in Children(g[a]) && y.Obj? ==> y.id in g by { Closed(g); }
    if path != [] && x.Obj? && path[0] < |Children(g[x.id])| {
      ChildValid(g, x.id, path[0]);
      FollowValid(g, Children(g[x.id])[path[0]], path[1..]);
    }
  }

  lemma {:induction false} Closed(g: Graph)
    requires Heap(g)
    ensures forall a :: a in g ==> forall y :: y in Children(g[a]) && y.Obj? ==> y.id in g
  {
  }

  ghost predicate SameAlong(g: Graph, x: Ref, y: Ref, path: seq<nat>)
    requires Heap(g) && Valid(g, x) && Valid(g, y)
  {
    FollowValid(g, x, path);
    FollowValid(g, y, path);
    SameLook(g, Follow(g, x, path), Follow(g, y, path))
  }

  lemma {:induction false} BisimilarLook(g: Graph, x: Ref, y: Ref)
    requires Heap(g) && Valid(g, x) && Valid(g, y) && Bisimilar(g, x, y)
    ensures SameLook(g, x, y)
  {
    hide Bisimulation;
    if x.Obj? && y.Obj? {
      BisimilarChildren(g, x.id, y.id);
    }
  }

  lemma {:induction false} BisimilarAlong(g: Graph, x: Ref, y: Ref, path: seq<nat>)
    requires Heap(g) && Valid(g, x) && Valid(g, y) && Bisimilar(g, x, y)
    ensures SameAlong(g, x, y, path)
    decreases |path|
  {
    hide Heap, Bisimilar, SameLook;
    Closed(g);
    BisimilarLook(g, x, y);
    if path != [] {
      BothNull(g, x, y);
      if x.Obj? && y.Obj? {
        BisimilarChildren(g, x.id, y.id);
        if path[0] < |Children(g[x.id])| {
          ChildValid(g, x.id, path[0]);
          ChildValid(g, y.id, path[0]);
          BisimilarAlong(g, Children(g[x.id])[path[0]], Children(g[y.id])[path[0]], path[1..]);
        } else {
          assert SameLook(g, Null, Null) by { NullLook(g); }
        }
      } else {
        assert SameLook(g, Null, Null) by { NullLook(g); }
      }
    }
  }

  lemma {:induction false} NullLook(g: Graph)
    ensures SameLook(g, Null, Null)
  {
  }

  lemma {:induction false} BothNull(g: Graph, x: Ref, y: Ref)
    requires (x.Obj? ==> x.id in g) && (y.Obj? ==> y.id in g) && SameLook(g, x, y)
    ensures x.Null? <==> y.Null?
  {
  }

  ghost predicate SameEverywhere(g: Graph, x: Ref, y: Ref)
    requires Heap(g) && Valid(g, x) && Valid(g, y)
  {
    forall path: seq<nat> :: SameAlong(g, x, y, path)
  }

  lemma {:induction false} SameChildren(g: Graph, a: nat, b: nat, i: nat)
    requires Heap(g) && a in g && b in g && SameEverywhere(g, Obj(a), Obj(b)) && i < |Children(g[a])|
    ensures SameLook(g, Obj(a), Obj(b)) && |Children(g[a])| == |Children(g[b])|
    ensures Valid(g, Children(g[a])[i]) && Valid(g, Children(g[b])[i]) && SameEverywhere(g, Children(g[a])[i], Children(g[b])[i])
  {
    hide Heap;
    Closed(g);
    assert SameAlong(g, Obj(a), Obj(b), []);
    ChildValid(g, a, i);
    ChildValid(g, b, i);
    var x, y := Children(g[a])[i], Children(g[b])[i];
    forall path: seq<nat> ensures SameAlong(g, x, y, path) {
      assert SameAlong(g, Obj(a), Obj(b), [i] + path);
      assert ([i] + path)[1..] == path;
    }
  }

  ghost function SamePairs(g: Graph): set<(nat, nat)>
    requires Heap(g)
  {
    set a, b | a in g && b in g && SameEverywhere(g, Obj(a), Obj(b)) :: (a, b)
  }

  lemma {:induction false} SamePairsAlike(g: Graph, a: nat, b: nat)
    requires Heap(g) && a in g && b in g && SameEverywhere(g, Obj(a), Obj(b))
    ensures Alike(SamePairs(g), g[a], g[b])
  {
    hide SameEverywhere, Heap;
    Looks(g, a, b);
    forall i | 0 <= i < |Children(g[a])| ensures Pair(SamePairs(g), Children(g[a])[i], Children(g[b])[i]) {
      SameChildren(g, a, b, i);
      SameNull(g, Children(g[a])[i], Children(g[b])[i]);
    }
    assert Pairwise(SamePairs(g), Children(g[a]), Children(g[b]));
  }

  lemma {:induction false} Looks(g: Graph, a: nat, b: nat)
    requires Heap(g) && a in g && b in g && SameEverywhere(g, Obj(a), Obj(b))
    ensures SameLook(g, Obj(a), Obj(b))
  {
    hide Heap;
    Closed(g);
    assert SameAlong(g, Obj(a), Obj(b), []);
  }

  lemma {:induction false} SameNull(g: Graph, x: Ref, y: Ref)
    requires Heap(g) && Valid(g, x) && Valid(g, y) && SameEverywhere(g, x, y)
    ensures x.Null? <==> y.Null?
  {
    hide Heap;
    Closed(g);
    assert SameAlong(g, x, y, []);
  }

  /** Bisimilar references are those that no path of fields and elements tells apart. */
  lemma {:induction false} BisimilarIffSame(g: Graph, x: Ref, y: Ref)
    requires Heap(g) && Valid(g, x) && Valid(g, y)
    ensures Bisimilar(g, x, y) <==> SameEverywhere(g, x, y)
  {
    hide Heap, SameAlong, Alike;
    if Bisimilar(g, x, y) {
      forall path: seq<nat> ensures SameAlong(g, x, y, path) {
        BisimilarAlong(g, x, y, path);
      }
    }
    if SameEverywhere(g, x, y) {
      var r := SamePairs(g);
      forall p | p in r ensures p.0 in g && p.1 in g && Alike(r, g[p.0], g[p.1]) {
        SamePairsAlike(g, p.0, p.1);
      }
      SameNull(g, x, y);
      assert Bisimulation(g, r) && Pair(r, x, y);
    }
  }

  // ----- what the visited set amounts to -----

  /** Visited pairs, together with identical objects and equal leaves. */
  ghost function Closure(g: Graph, seen: set<(nat, nat)>): set<(nat, nat)> {
    seen + (set a, b | a in g && b in g && (a == b || (g[a].Leaf? && g[a] == g[b])) :: (a, b))
  }

  /** Pairs added since some point are alike, up to pairs visited by now. */
  ghost predicate Checked(g: Graph, before: set<(nat, nat)>, now: set<(nat, nat)>) {
    && before <= now
    && forall p :: p in now && p !in before ==>
         p.0 in g && p.1 in g && Alike(Closure(g, now), g[p.0], g[p.1])
  }

  lemma {:induction false} CheckedAgain(g: Graph, a: set<(nat, nat)>, b: set<(nat, nat)>, c: set<(nat, nat)>)
    requires Checked(g, a, b) && Checked(g, b, c)
    ensures Checked(g, a, c)
  {
    assert Closure(g, b) <= Closure(g, c);
    forall p | p in c && p !in a ensures p.0 in g && p.1 in g && Alike(Closure(g, c), g[p.0], g[p.1]) {
      if p in b {
        AlikeMonotone(Closure(g, b), Closure(g, c), g[p.0], g[p.1]);
      }
    }
  }

  lemma {:induction false} PairwiseMonotone(r: set<(nat, nat)>, s: set<(nat, nat)>, xs: seq<Ref>, ys: seq<Ref>)
    requires Pairwise(r, xs, ys) && r <= s
    ensures Pairwise(s, xs, ys)
  {
    forall i | 0 <= i < |xs| ensures Pair(s, xs[i], ys[i]) {
      assert Pair(r, xs[i], ys[i]);
    }
  }

  /** One more pair of children found equal. */
  lemma {:induction false} OneMore(g: Graph, start: set<(nat, nat)>, was: set<(nat, nat)>, now: set<(nat, nat)>,
                                  xs: seq<Ref>, ys: seq<Ref>, i: nat)
    requires i < |xs| == |ys|
    requires Checked(g, start, was) && Pairwise(Closure(g, was), xs[..i], ys[..i])
    requires Checked(g, was, now) && Pair(Closure(g, now), xs[i], ys[i])
    ensures Checked(g, start, now) && Pairwise(Closure(g, now), xs[..i + 1], ys[..i + 1])
  {
    CheckedAgain(g, start, was, now);
    assert Closure(g, was) <= Closure(g, now);
    PairwiseMonotone(Closure(g, was), Closure(g, now), xs[..i], ys[..i]);
    assert xs[..i + 1] == xs[..i] + [xs[i]] && ys[..i + 1] == ys[..i] + [ys[i]];
  }

  lemma {:induction false} ChildValid(g: Graph, a: nat, i: nat)
    requires Heap(g) && a in g && i < |Children(g[a])|
    ensures Valid(g, Children(g[a])[i])
  {
    assert Children(g[a])[i] in Children(g[a]);
  }

  lemma {:induction false} SelfAlike(g: Graph, seen: set<(nat, nat)>, a: nat)
    requires Heap(g) && a in g
    ensures Alike(Closure(g, seen), g[a], g[a])
  {
    var xs := Children(g[a]);
    forall i | 0 <= i < |xs| ensures Pair(Closure(g, seen), xs[i], xs[i]) {
      assert xs[i] in Children(g[a]);
    }
  }

  /** A fully checked visited set is a bisimulation once identities and leaves are added. */
  lemma {:induction false} CheckedIsBisimulation(g: Graph, seen: set<(nat, nat)>)
    requires Heap(g) && Checked(g, {}, seen)
    ensures Bisimulation(g, Closure(g, seen))
  {
    var r := Closure(g, seen);
    forall p | p in r ensures p.0 in g && p.1 in g && Alike(r, g[p.0], g[p.1]) {
      if p !in seen && p.0 == p.1 {
        SelfAlike(g, seen, p.0);
      }
    }
  }

  ghost function AllPairs(g: Graph): set<(nat, nat)> {
    set a, b | a in g && b in g :: (a, b)
  }

  lemma {:induction false} Shrinks(all: set<(nat, nat)>, seen: set<(nat, nat)>, p: (nat, nat))
    requires p in all && p !in seen
    ensures |all - (seen + {p})| < |all - seen|
  {
    assert all - (seen + {p}) == (all - seen) - {p};
  }

  lemma {:induction false} NoBigger(all: set<(nat, nat)>, a: set<(nat, nat)>, b: set<(nat, nat)>)
    requires a <= b
    ensures |all - b| <= |all - a|
  {
    SubsetSize(all - b, all - a);
  }

  lemma {:induction false} SubsetSize(s: set<(nat, nat)>, t: set<(nat, nat)>)
    requires s <= t
    ensures |s| <= |t|
    decreases s
  {
    if s != {} {
      var p :| p in s;
      SubsetSize(s - {p}, t - {p});
    }
  }

  class Comparer {
    const g: Graph
    /** Pairs already entered, for circular references. */
    var compared: set<(nat, nat)>

    constructor (g: Graph)
      ensures this.g == g && compared == {}
    {
      this.g := g;
      compared := {};
    }

    /** Field by field. */
    method StructurallyEqual(expected: nat, got: nat) returns (r: bool)
      requires Heap(g) && expected in g && got in g && g[expected].typ == g[got].typ
      requires g[expected].Fields?
      modifies this
      ensures old(compared) <= compared
      ensures r ==> Checked(g, old(compared), compared)
                    && Pairwise(Closure(g, compared), g[expected].fields, g[got].fields)
      ensures Bisimilar(g, Obj(expected), Obj(got)) ==> r
      decreases |AllPairs(g) - compared|, 1
    {
      var xs, ys := g[expected].fields, g[got].fields;
      r := CompareAll(expected, got, xs, ys);
    }

    /** Shape, then element by element. */
    method ContentwiseEqual(expected: nat, got: nat) returns (r: bool)
      requires Heap(g) && expected in g && got in g && g[expected].typ == g[got].typ
      requires g[expected].Array? && g[got].Array?
      modifies this
      ensures old(compared) <= compared
      ensures r ==> Checked(g, old(compared), compared) && g[expected].lengths == g[got].lengths
                    && g[expected].lowerBounds == g[got].lowerBounds
                    && Pairwise(Closure(g, compared), g[expected].elements, g[got].elements)
      ensures Bisimilar(g, Obj(expected), Obj(got)) ==> r
      decreases |AllPairs(g) - compared|, 2
    {
      var c, d := g[expected], g[got];
      if Bisimilar(g, Obj(expected), Obj(got)) {
        BisimilarChildren(g, expected, got);
      }
      if |c.lengths| != |d.lengths| {
        return false;
      }
      var i := 0;
      while i < |c.lengths|
        invariant i <= |c.lengths| && c.lengths[..i] == d.lengths[..i] && c.lowerBounds[..i] == d.lowerBounds[..i]
      {
        if c.lengths[i] != d.lengths[i] || c.lowerBounds[i] != d.lowerBounds[i] {
          return false;
        }
        assert c.lengths[..i + 1] == c.lengths[..i] + [c.lengths[i]];
        assert d.lengths[..i + 1] == d.lengths[..i] + [d.lengths[i]];
        assert c.lowerBounds[..i + 1] == c.lowerBounds[..i] + [c.lowerBounds[i]];
        assert d.lowerBounds[..i + 1] == d.lowerBounds[..i] + [d.lowerBounds[i]];
        i := i + 1;
      }
      assert c.lengths == c.lengths[..i] && d.lengths == d.lengths[..i];
      assert c.lowerBounds == c.lowerBounds[..i] && d.lowerBounds == d.lowerBounds[..i];
      r := CompareAll(expected, got, c.elements, d.elements);
    }

    /** The loop both comparisons share: stop at the first pair that differs. */
    method CompareAll(expected: nat, got: nat, xs: seq<Ref>, ys: seq<Ref>) returns (r: bool)
      requires Heap(g) && expected in g && got in g
      requires xs == Children(g[expected]) && ys == Children(g[got]) && |xs| == |ys|
      modifies this
      ensures old(compared) <= compared
      ensures r ==> Checked(g, old(compared), compared) && Pairwise(Closure(g, compared), xs, ys)
      ensures Bisimilar(g, Obj(expected), Obj(got)) ==> r
      decreases |AllPairs(g) - compared|, 1, 0
    {
      hide Heap, Closure, Alike, Bisimilar, Pair, AllPairs;
      assert Checked(g, compared, compared);
      var i := 0;
      while i < |xs|
        invariant i <= |xs|
        invariant Checked(g, old(compared), compared) && Pairwise(Closure(g, compared), xs[..i], ys[..i])
      {
        ghost var was := compared;
        NoBigger(AllPairs(g), old(compared), compared);
        ChildValid(g, expected, i);
        ChildValid(g, got, i);
        var same := InnerCompareObjects(xs[i], ys[i]);
        if !same {
          if Bisimilar(g, Obj(expected), Obj(got)) {
            BisimilarChildren(g, expected, got);
          }
          return false;
        }
        OneMore(g, old(compared), was, compared, xs, ys, i);
        i := i + 1;
      }
      assert xs[..i] == xs && ys[..i] == ys;
      r := true;
    }

    /** Compares two references, taking visited pairs to be equal. */
    method InnerCompareObjects(expected: Ref, got: Ref) returns (r: bool)
      requires Heap(g) && Valid(g, expected) && Valid(g, got)
      modifies this
      ensures old(compared) <= compared
      ensures r ==> Checked(g, old(compared), compared) && Pair(Closure(g, compared), expected, got)
      ensures Bisimilar(g, expected, got) ==> r
      decreases |AllPairs(g) - compared|, 0
    {
      if expected.Null? {
        return got.Null?;
      }
      if got.Null? {
        return false;
      }
      var a, b := expected.id, got.id;
      if Bisimilar(g, expected, got) {
        BisimilarChildren(g, a, b);
      }
      if g[a].typ != g[b].typ {
        return false;
      }
      if a == b {
        return true;
      }
      if g[a].Leaf? {
        return g[b].value == g[a].value;
      }
      if (a, b) in compared {
        return true;
      }
      Shrinks(AllPairs(g), compared, (a, b));
      compared := compared + {(a, b)};
      ghost var added := compared;
      if g[a].Array? {
        r := ContentwiseEqual(a, b);
      } else {
        r := StructurallyEqual(a, b);
      }
      if r {
        assert Checked(g, added, compared) && Alike(Closure(g, compared), g[a], g[b]);
        assert Checked(g, old(compared), compared);
      }
    }

    method Compare(expected: Ref, got: Ref) returns (r: bool)
      requires Heap(g) && Valid(g, expected) && Valid(g, got) && compared == {}
      modifies this
      ensures r <==> Bisimilar(g, expected, got)
      ensures compared == {}
    {
      r := InnerCompareObjects(expected, got);
      if r {
        CheckedIsBisimulation(g, compared);
        assert Bisimulation(g, Closure(g, compared)) && Pair(Closure(g, compared), expected, got);
      }
      compared := {};
    }
  }

  /** True exactly for bisimilar graphs, cyclic ones included. */
  method CompareObjects(g: Graph, expected: Ref, got: Ref) returns (r: bool)
    requires Heap(g) && Valid(g, expected) && Valid(g, got)
    ensures r <==> Bisimilar(g, expected, got)
  {
    var comparer := new Comparer(g);
    r := comparer.Compare(expected, got);
  }
}
