/** The shadow heap: tracked objects as address intervals, and what a garbage
    collection cycle does to them. */
module ShadowHeap {
  import opened Wrappers
  import opened Concreteness

  // ----- intervals and the pure effect of one report -----

  datatype Interval = Interval(left: nat, right: nat)
  {
    predicate Contains(p: nat) { left <= p <= right }

    predicate Includes(o: Interval) { left <= o.left && o.right <= right }

    /** As written in the source: one end of the other interval lies in this one. */
    predicate Intersects(o: Interval) {
      (left <= o.right && o.right <= right) || (left <= o.left && o.left <= right)
    }

    /** Some address lies in both. */
    predicate Overlaps(o: Interval) { left <= o.right && o.left <= right }

    /** The interval after a shift that takes oldBase to newBase. */
    function Shifted(oldBase: nat, newBase: nat): (r: Interval)
      requires oldBase <= left <= right
      ensures r.right - r.left == right - left && r.left <= r.right
    {
      Interval(newBase + (left - oldBase), newBase + (right - oldBase))
    }
  }

  /** A range the collector reports: moved to newLeft, or kept in place. */
  datatype Report = Report(range: Interval, newLeft: nat)

  predicate ReportOk(r: Report) { r.range.left <= r.range.right }

  /** What is known of an object during a cycle. */
  datatype Span = Span(place: Interval, marked: bool)

  predicate Sized(s: Span) { s.place.left <= s.place.right }

  function Effect(r: Report, s: Span): (t: Span)
    requires Sized(s)
    ensures Sized(t) && t.place.right - t.place.left == s.place.right - s.place.left
  {
    if r.range.Includes(s.place) then Span(s.place.Shifted(r.range.left, r.newLeft), true) else s
  }

  /** The assertions in the source: never mark twice, never cut through an object. */
  predicate Safe(r: Report, s: Span) {
    if r.range.Includes(s.place) then !s.marked else !r.range.Intersects(s.place)
  }

  function After(rs: seq<Report>, s: Span): (t: Span)
    requires Sized(s)
    ensures Sized(t) && t.place.right - t.place.left == s.place.right - s.place.left
  {
    if rs == [] then s else After(rs[1..], Effect(rs[0], s))
  }

  // ----- a cycle seen from one object -----

  ghost predicate Disjoint(rs: seq<Report>) {
    && (forall i :: 0 <= i < |rs| ==> ReportOk(rs[i]))
    && (forall i, j :: 0 <= i < j < |rs| ==> !rs[i].range.Overlaps(rs[j].range))
  }

  /** No reported range cuts the object, and its new place meets no range processed later. */
  ghost predicate Clean(rs: seq<Report>, o: Interval) {
    && o.left <= o.right
    && (forall i :: 0 <= i < |rs| ==> rs[i].range.Includes(o) || !rs[i].range.Overlaps(o))
    && (forall i, j :: 0 <= i < j < |rs| && rs[i].range.Includes(o) ==>
          !rs[j].range.Overlaps(o.Shifted(rs[i].range.left, rs[i].newLeft)))
  }

  ghost predicate SafeThroughout(rs: seq<Report>, s: Span)
    requires Sized(s)
  {
    rs == [] || (Safe(rs[0], s) && SafeThroughout(rs[1..], Effect(rs[0], s)))
  }

  predicate Reported(rs: seq<Report>, o: Interval) {
    exists i :: 0 <= i < |rs| && rs[i].range.Includes(o)
  }

  lemma {:induction false} Untouched(rs: seq<Report>, s: Span)
    requires Sized(s) && forall i :: 0 <= i < |rs| ==> ReportOk(rs[i]) && !rs[i].range.Overlaps(s.place)
    ensures After(rs, s) == s && SafeThroughout(rs, s)
  {
    if rs != [] {
      assert ReportOk(rs[0]) && !rs[0].range.Overlaps(s.place);
      Untouched(rs[1..], s);
    }
  }

  /** An object in a reported range is moved by that range's shift, once, and marked. */
  lemma {:induction false} MovedOnce(rs: seq<Report>, o: Interval, k: nat)
    requires Disjoint(rs) && Clean(rs, o) && k < |rs| && rs[k].range.Includes(o)
    ensures After(rs, Span(o, false)) == Span(o.Shifted(rs[k].range.left, rs[k].newLeft), true)
    ensures SafeThroughout(rs, Span(o, false))
  {
    if k == 0 {
      var t := Effect(rs[0], Span(o, false));
      forall i | 0 <= i < |rs[1..]| ensures ReportOk(rs[1..][i]) && !rs[1..][i].range.Overlaps(t.place) {
        assert rs[1..][i] == rs[i + 1];
      }
      Untouched(rs[1..], t);
    } else {
      assert !rs[0].range.Overlaps(rs[k].range);
      MovedOnce(rs[1..], o, k - 1);
    }
  }

  /** An object in no reported range stays where it is, unmarked. */
  lemma {:induction false} NotReported(rs: seq<Report>, o: Interval)
    requires Disjoint(rs) && Clean(rs, o) && !Reported(rs, o)
    ensures After(rs, Span(o, false)) == Span(o, false) && SafeThroughout(rs, Span(o, false))
  {
    Untouched(rs, Span(o, false));
  }

  /** Objects that were disjoint stay disjoint if the destination ranges are. */
  lemma {:induction false} StaysDisjoint(rs: seq<Report>, o: Interval, p: Interval, i: nat, j: nat)
    requires Disjoint(rs) && i < |rs| && j < |rs| && rs[i].range.Includes(o) && rs[j].range.Includes(p)
    requires o.left <= o.right && p.left <= p.right && !o.Overlaps(p)
    requires i != j ==> !rs[i].range.Shifted(rs[i].range.left, rs[i].newLeft).Overlaps(
                           rs[j].range.Shifted(rs[j].range.left, rs[j].newLeft))
    ensures !o.Shifted(rs[i].range.left, rs[i].newLeft).Overlaps(p.Shifted(rs[j].range.left, rs[j].newLeft))
  {
  }

  /** What the tests on intervals mean for addresses. Intersects misses exactly the case
      that the other interval reaches beyond this one on both sides. */
  lemma {:induction false} IntervalsByAddress(i: Interval, o: Interval, p: nat)
    requires i.left <= i.right && o.left <= o.right
    ensures i.Contains(p) <==> i.left <= p <= i.right
    ensures i.Includes(o) <==> forall q: nat :: o.Contains(q) ==> i.Contains(q)
    ensures i.Overlaps(o) <==> exists q: nat :: o.Contains(q) && i.Contains(q)
    ensures i.Intersects(o) <==> i.Contains(o.left) || i.Contains(o.right)
    ensures i.Intersects(o) <==> i.Overlaps(o) && !(o.left < i.left && i.right < o.right)
  {
    assert o.Contains(o.left) && o.Contains(o.right);
    if i.Overlaps(o) {
      var q := if i.left <= o.left then o.left else i.left;
      assert o.Contains(q) && i.Contains(q);
    }
  }

  /** An object from left to right, inside the range that goes to newLeft, is moved by the
      distance that range is moved, and marked; an object inside no range stays. */
  lemma {:induction false} PlaceAfter(rs: seq<Report>, left: nat, right: nat)
    requires Disjoint(rs) && Clean(rs, Interval(left, right))
    ensures forall k :: 0 <= k < |rs| && rs[k].range.left <= left && right <= rs[k].range.right ==>
              After(rs, Span(Interval(left, right), false))
              == Span(Interval(left - rs[k].range.left + rs[k].newLeft, right - rs[k].range.left + rs[k].newLeft), true)
    ensures (forall k :: 0 <= k < |rs| ==> left < rs[k].range.left || rs[k].range.right < right) ==>
              After(rs, Span(Interval(left, right), false)) == Span(Interval(left, right), false)
  {
    hide Disjoint;
    var o := Interval(left, right);
    forall k | 0 <= k < |rs| && rs[k].range.left <= left && right <= rs[k].range.right
      ensures After(rs, Span(o, false))
              == Span(Interval(left - rs[k].range.left + rs[k].newLeft, right - rs[k].range.left + rs[k].newLeft), true)
    {
      MovedOnce(rs, o, k);
    }
    if forall k :: 0 <= k < |rs| ==> left < rs[k].range.left || rs[k].range.right < right {
      NotReported(rs, o);
    }
  }

  // ----- tracked objects -----

  class Object {
    var left: nat
    var right: nat
    var marked: bool
    const bitmap: Bitmap

    constructor (address: nat, size: nat)
      requires size > 0
      ensures Place() == Interval(address, address + size - 1) && !marked
      ensures fresh(bitmap) && fresh(bitmap.concreteness) && bitmap.Valid() && bitmap.size == size
    {
      left, right, marked := address, address + size - 1, false;
      bitmap := new Bitmap(size);
    }

    function Place(): Interval
      reads this
    {
      Interval(left, right)
    }

    ghost function Seen(): Span
      reads this
    {
      Span(Place(), marked)
    }

    method Move(oldBase: nat, newBase: nat)
      requires oldBase <= left <= right
      modifies this`left, this`right
      ensures Place() == old(Place()).Shifted(oldBase, newBase)
    {
      left, right := newBase + (left - oldBase), newBase + (right - oldBase);
    }

    method Mark()
      requires !marked
      modifies this`marked
      ensures marked
    {
      marked := true;
    }

    method Unmark()
      requires marked
      modifies this`marked
      ensures !marked
    {
      marked := false;
    }
  }

  datatype VirtualAddress = VirtualAddress(obj: Object, offset: nat)

  function VirtToPhysAddress(v: VirtualAddress): nat
    reads v.obj
  {
    v.obj.left + v.offset
  }

  class Heap {
    var objects: seq<Object>
    var deleted: seq<Object>

    ghost predicate Valid()
      reads this, objects
    {
      && (forall o :: o in objects ==> o.left <= o.right)
      && (forall i, j :: 0 <= i < j < |objects| ==> objects[i] != objects[j])
    }

    constructor ()
      ensures Valid() && objects == []
    {
      objects, deleted := [], [];
    }

    method AllocateObject(address: nat, size: nat) returns (o: Object)
      requires Valid() && size > 0
      modifies this`objects
      ensures Valid() && fresh(o) && objects == old(objects) + [o]
      ensures o.Place() == Interval(address, address + size - 1) && !o.marked
    {
      o := new Object(address, size);
      objects := objects + [o];
    }

    /** The first tracked object that contains the address. */
    method Find(p: nat) returns (r: Option<Object>)
      ensures r.Some? ==> r.value in objects && r.value.Place().Contains(p)
      ensures r.None? ==> forall o :: o in objects ==> !o.Place().Contains(p)
    {
      var i := 0;
      while i < |objects|
        invariant i <= |objects|
        invariant forall j :: 0 <= j < i ==> !objects[j].Place().Contains(p)
      {
        if objects[i].left <= p <= objects[i].right {
          return Some(objects[i]);
        }
        i := i + 1;
      }
      r := None;
    }

    /** Translating to a virtual address and back is the identity on tracked addresses. */
    method PhysToVirtAddress(p: nat) returns (v: Option<VirtualAddress>)
      ensures v.Some? <==> exists o :: o in objects && o.Place().Contains(p)
      ensures v.Some? ==> v.value.obj in objects && v.value.obj.Place().Contains(p) && v.value.offset == p - v.value.obj.left
                          && VirtToPhysAddress(v.value) == p
      ensures forall o | o in objects && o.Place().Contains(p) && Alone(objects, o) ::
                v == Some(VirtualAddress(o, p - o.left))
    {
      var found := Find(p);
      if found.None? {
        return None;
      }
      v := Some(VirtualAddress(found.value, p - found.value.left));
    }

    /** One report: mark the objects of the range, moving them if it moved. */
    method MoveAndMark(r: Report)
      requires Valid() && ReportOk(r)
      requires forall o :: o in objects ==> Safe(r, o.Seen())
      modifies objects`left, objects`right, objects`marked
      ensures Valid()
      ensures forall o :: o in objects ==> o.Seen() == Effect(r, old(o.Seen()))
    {
      var i := 0;
      while i < |objects|
        invariant i <= |objects|
        invariant forall j :: 0 <= j < i ==> objects[j].Seen() == Effect(r, old(objects[j].Seen()))
        invariant forall j :: i <= j < |objects| ==> objects[j].Seen() == old(objects[j].Seen())
      {
        var o := objects[i];
        assert Safe(r, o.Seen());
        if r.range.Includes(o.Place()) {
          o.Move(r.range.left, r.newLeft);
          o.Mark();
        } else {
          assert !r.range.Intersects(o.Place());
        }
        i := i + 1;
      }
    }

    /** Keep the marked objects, in order and unmarked; forget the others. */
    method ClearAfterGC()
      requires Valid()
      modifies this, objects`marked
      ensures Valid()
      ensures objects == Kept(old(objects), old(Marks(objects)))
      ensures deleted == old(deleted) + Kept(old(objects), old(Marks(objects, false)))
      ensures forall o :: o in objects ==> !o.marked
    {
      hide Kept, Marks;
      var marked, unmarked := [], [];
      var i := 0;
      ghost var marks, unmarks := Marks(objects), Marks(objects, false);
      KeptNone(objects[..0], marks[..0]);
      KeptNone(objects[..0], unmarks[..0]);
      while i < |objects|
        invariant i <= |objects| && objects == old(objects) && deleted == old(deleted)
        invariant marked == Kept(objects[..i], marks[..i]) && unmarked == Kept(objects[..i], unmarks[..i])
        invariant forall j :: 0 <= j < |objects| ==> objects[j].marked == (i <= j && marks[j])
      {
        var o := objects[i];
        KeptSnoc(objects, marks, i);
        KeptSnoc(objects, unmarks, i);
        if o.marked {
          o.Unmark();
          marked := marked + [o];
        } else {
          unmarked := unmarked + [o];
        }
        i := i + 1;
      }
      assert objects[..i] == objects && marks[..i] == marks && unmarks[..i] == unmarks;
      ghost var all := objects;
      objects := marked;
      deleted := deleted + unmarked;
      KeptFromDistinct(all, marks);
    }

    /** The collector's reports in the order they come; no assertion fires on the way. */
    method ProcessReports(rs: seq<Report>)
      requires Valid() && Disjoint(rs)
      requires forall o :: o in objects ==> !o.marked && Clean(rs, o.Place())
      modifies objects`left, objects`right, objects`marked
      ensures Valid()
      ensures forall o :: o in objects ==> old(Sized(o.Seen())) && o.Seen() == After(rs, old(o.Seen()))
    {
      hide OnTrack, Disjoint, Clean, Safe, Places;
      ghost var places := Places(objects);
      forall j | 0 <= j < |objects| ensures OnTrack(rs, 0, objects[j].Seen(), places[j]) {
        assert objects[j] in objects;
        OnTrackStart(rs, places[j]);
      }
      var i := 0;
      while i < |rs|
        invariant i <= |rs| && objects == old(objects) && Valid()
        invariant forall j :: 0 <= j < |objects| ==> OnTrack(rs, i, objects[j].Seen(), places[j])
      {
        forall j | 0 <= j < |objects|
          ensures Sized(objects[j].Seen()) && Safe(rs[i], objects[j].Seen())
          ensures OnTrack(rs, i + 1, Effect(rs[i], objects[j].Seen()), places[j])
        {
          OnTrackStep(rs, i, objects[j].Seen(), places[j]);
        }
        ReportAt(rs, i);
        MoveAndMark(rs[i]);
        i := i + 1;
      }
      forall j | 0 <= j < |objects|
        ensures places[j].left <= places[j].right && objects[j].Seen() == After(rs, Span(places[j], false))
      {
        OnTrackEnd(rs, objects[j].Seen(), places[j]);
      }
    }

    /** A whole cycle: the reports in order, then the sweep. Exactly the objects
        in reported ranges remain, each moved by its range's shift. */
    method CollectGarbage(rs: seq<Report>)
      requires Valid() && Disjoint(rs)
      requires forall o :: o in objects ==> !o.marked && Clean(rs, o.Place())
      modifies this, objects`left, objects`right, objects`marked
      ensures Valid()
      ensures forall o :: o in objects <==> o in old(objects) && Reported(rs, old(o.Place()))
      ensures Subsequence(objects, old(objects))
      ensures forall o, k :: o in objects && 0 <= k < |rs| && rs[k].range.Includes(old(o.Place())) ==>
                o.Place() == old(o.Place()).Shifted(rs[k].range.left, rs[k].newLeft)
      ensures forall o :: o in objects ==> !o.marked && o.right - o.left == old(o.right - o.left)
      ensures forall o :: o in objects ==> o.bitmap.concreteness[..] == old(o.bitmap.concreteness[..])
      ensures DestinationsApart(rs) && old(Apart(objects)) ==> Apart(objects)
    {
      hide Disjoint, Clean, Reported, Kept, DestinationsApart, Subsequence, Apart, PlacesApart, Landed;
      ghost var all := objects;
      ghost var was := map o | o in objects :: o.Place();
      ghost var apart := Apart(objects);
      if apart {
        WereApart(objects, was);
      }
      ghost var marks := ReportAndSweep(rs, was);
      KeptIsSubsequence(all, marks);
      forall o: Object ensures o in objects <==> o in all && Reported(rs, was[o]) {
        KeptMembers(all, marks, o);
      }
      forall o | o in objects ensures Landed(rs, was[o], o.Place()) && o.right - o.left == was[o].right - was[o].left {
        LandedSize(rs, was[o], o.Place());
      }
      forall o, k | o in objects && 0 <= k < |rs| && rs[k].range.Includes(was[o])
        ensures o.Place() == was[o].Shifted(rs[k].range.left, rs[k].newLeft)
      {
        LandedAt(rs, was[o], o.Place(), k);
      }
      if DestinationsApart(rs) && apart {
        ApartAfter(rs, objects, was);
      }
    }

    /** The reports and the sweep: the objects kept, and where all of them are now. */
    method ReportAndSweep(rs: seq<Report>, ghost was: map<Object, Interval>) returns (ghost marks: seq<bool>)
      requires Valid() && Disjoint(rs) && was == map o | o in objects :: o.Place()
      requires forall o :: o in objects ==> !o.marked && Clean(rs, o.Place())
      modifies this, objects`left, objects`right, objects`marked
      ensures Valid() && |marks| == |old(objects)| && objects == Kept(old(objects), marks)
      ensures forall j :: 0 <= j < |marks| ==> old(objects)[j] in was && (marks[j] <==> Reported(rs, was[old(objects)[j]]))
      ensures forall o :: o in old(objects) ==> o in was && was[o].left <= was[o].right && Landed(rs, was[o], o.Place())
      ensures forall o :: o in objects ==> !o.marked
    {
      hide Disjoint, Clean, Reported, Kept, Marks, After, Landed;
      ProcessReports(rs);
      SweepPlan(rs, objects, was);
      marks := Marks(objects);
      ClearAfterGC();
    }
  }

  /** Where an object may be after a cycle: moved by the range that included it, its size unchanged. */
  ghost predicate Landed(rs: seq<Report>, was: Interval, now: Interval)
    requires was.left <= was.right
  {
    && now.right - now.left == was.right - was.left
    && forall k :: 0 <= k < |rs| && rs[k].range.Includes(was) ==> now == was.Shifted(rs[k].range.left, rs[k].newLeft)
  }

  lemma {:induction false} LandedSize(rs: seq<Report>, was: Interval, now: Interval)
    requires was.left <= was.right && Landed(rs, was, now)
    ensures now.right - now.left == was.right - was.left
  {
  }

  lemma {:induction false} LandedAt(rs: seq<Report>, was: Interval, now: Interval, k: nat)
    requires was.left <= was.right && Landed(rs, was, now) && k < |rs| && rs[k].range.Includes(was)
    ensures now == was.Shifted(rs[k].range.left, rs[k].newLeft)
  {
  }

  ghost predicate Apart(objects: seq<Object>)
    reads objects
  {
    forall o, p :: o in objects && p in objects && o != p ==> !o.Place().Overlaps(p.Place())
  }

  ghost predicate DestinationsApart(rs: seq<Report>) {
    && (forall i :: 0 <= i < |rs| ==> ReportOk(rs[i]))
    && (forall i, j :: 0 <= i < |rs| && 0 <= j < |rs| && i != j ==>
          !rs[i].range.Shifted(rs[i].range.left, rs[i].newLeft).Overlaps(
             rs[j].range.Shifted(rs[j].range.left, rs[j].newLeft)))
  }

  ghost predicate PlacesApart(was: map<Object, Interval>) {
    forall o, p :: o in was && p in was && o != p ==> !was[o].Overlaps(was[p])
  }

  lemma {:induction false} WereApart(objects: seq<Object>, was: map<Object, Interval>)
    requires Apart(objects) && was == map o | o in objects :: o.Place()
    ensures PlacesApart(was)
  {
  }

  lemma {:induction false} ApartAfter(rs: seq<Report>, objects: seq<Object>, was: map<Object, Interval>)
    requires Disjoint(rs) && DestinationsApart(rs)
    requires forall o :: o in objects ==> o in was && was[o].left <= was[o].right && Reported(rs, was[o])
    requires forall o, k :: o in objects && 0 <= k < |rs| && rs[k].range.Includes(was[o]) ==>
               o.Place() == was[o].Shifted(rs[k].range.left, rs[k].newLeft)
    requires PlacesApart(was)
    ensures Apart(objects)
  {
    hide Disjoint, Reported;
    forall o, p | o in objects && p in objects && o != p ensures !o.Place().Overlaps(p.Place()) {
      var i, j := RangeOf(rs, was[o]), RangeOf(rs, was[p]);
      StaysDisjoint(rs, was[o], was[p], i, j);
    }
  }

  ghost function RangeOf(rs: seq<Report>, o: Interval): (k: nat)
    requires Reported(rs, o)
    ensures k < |rs| && rs[k].range.Includes(o)
  {
    var k :| 0 <= k < |rs| && rs[k].range.Includes(o);
    k
  }

  /** Midway through the reports an object is safe and heading for its final place. */
  ghost predicate OnTrack(rs: seq<Report>, i: nat, s: Span, start: Interval) {
    && i <= |rs| && Sized(s) && start.left <= start.right
    && SafeThroughout(rs[i..], s) && After(rs[i..], s) == After(rs, Span(start, false))
  }

  lemma {:induction false} OnTrackStart(rs: seq<Report>, o: Interval)
    requires Disjoint(rs) && Clean(rs, o)
    ensures OnTrack(rs, 0, Span(o, false), o)
  {
    CycleOf(rs, o);
    assert rs[0..] == rs;
  }

  lemma {:induction false} OnTrackStep(rs: seq<Report>, i: nat, s: Span, start: Interval)
    requires OnTrack(rs, i, s, start) && i < |rs|
    ensures Sized(s) && Safe(rs[i], s) && OnTrack(rs, i + 1, Effect(rs[i], s), start)
  {
    assert rs[i..][0] == rs[i] && rs[i..][1..] == rs[i + 1..];
  }

  lemma {:induction false} OnTrackEnd(rs: seq<Report>, s: Span, start: Interval)
    requires OnTrack(rs, |rs|, s, start)
    ensures start.left <= start.right && s == After(rs, Span(start, false))
  {
  }

  lemma {:induction false} ReportAt(rs: seq<Report>, i: nat)
    requires Disjoint(rs) && i < |rs|
    ensures ReportOk(rs[i])
  {
  }

  /** After the last report an object is marked exactly if it was reported, and moved accordingly. */
  lemma {:induction false} SweepPlan(rs: seq<Report>, objects: seq<Object>, was: map<Object, Interval>)
    requires Disjoint(rs)
    requires forall o :: o in objects ==> o in was && was[o].left <= was[o].right && Clean(rs, was[o])
                                          && o.Seen() == After(rs, Span(was[o], false))
    ensures forall j :: 0 <= j < |objects| ==> (Marks(objects)[j] <==> Reported(rs, was[objects[j]]))
    ensures forall o :: o in objects ==> Landed(rs, was[o], o.Place())
  {
    hide Disjoint, Clean, After, Marks, Reported, Landed;
    forall o | o in objects ensures (o.marked <==> Reported(rs, was[o])) && Landed(rs, was[o], o.Place()) {
      CycleLands(rs, was[o]);
    }
    forall j | 0 <= j < |objects| ensures Marks(objects)[j] <==> Reported(rs, was[objects[j]]) {
      MarkAt(objects, j);
      assert objects[j] in objects;
    }
  }

  lemma {:induction false} MarkAt(objects: seq<Object>, j: nat)
    requires j < |objects|
    ensures Marks(objects)[j] == objects[j].marked
  {
  }

  lemma {:induction false} CycleLands(rs: seq<Report>, o: Interval)
    requires Disjoint(rs) && Clean(rs, o) && o.left <= o.right
    ensures After(rs, Span(o, false)).marked <==> Reported(rs, o)
    ensures Landed(rs, o, After(rs, Span(o, false)).place)
  {
    hide Disjoint, Clean, After, Reported;
    CycleOf(rs, o);
  }

  predicate Alone(objects: seq<Object>, o: Object)
    reads objects, o
  {
    forall q :: q in objects && q != o ==> !q.Place().Overlaps(o.Place())
  }

  function Places(objects: seq<Object>): (r: seq<Interval>)
    reads objects
    ensures |r| == |objects| && forall i :: 0 <= i < |r| ==> r[i] == objects[i].Place()
  {
    if objects == [] then [] else Places(objects[..|objects| - 1]) + [objects[|objects| - 1].Place()]
  }

  /** Which objects carry the given mark. */
  function Marks(objects: seq<Object>, which: bool := true): (r: seq<bool>)
    reads objects
    ensures |r| == |objects| && forall i :: 0 <= i < |r| ==> r[i] == (objects[i].marked == which)
  {
    if objects == [] then [] else Marks(objects[..|objects| - 1], which) + [objects[|objects| - 1].marked == which]
  }

  function Kept(objects: seq<Object>, marks: seq<bool>): seq<Object>
    requires |objects| == |marks|
  {
    if objects == [] then []
    else
      var n := |objects| - 1;
      Kept(objects[..n], marks[..n]) + if marks[n] then [objects[n]] else []
  }

  lemma {:induction false} KeptNone(objects: seq<Object>, marks: seq<bool>)
    requires |objects| == |marks| == 0
    ensures Kept(objects, marks) == []
  {
  }

  lemma {:induction false} KeptSnoc(objects: seq<Object>, marks: seq<bool>, i: nat)
    requires |objects| == |marks| && i < |objects|
    ensures Kept(objects[..i + 1], marks[..i + 1]) == Kept(objects[..i], marks[..i]) + if marks[i] then [objects[i]] else []
  {
    assert objects[..i + 1][..i] == objects[..i] && marks[..i + 1][..i] == marks[..i];
  }

  lemma {:induction false} KeptMembers(objects: seq<Object>, marks: seq<bool>, o: Object)
    requires |objects| == |marks|
    ensures o in Kept(objects, marks) <==> exists i :: 0 <= i < |objects| && objects[i] == o && marks[i]
  {
    if objects != [] {
      var n := |objects| - 1;
      KeptMembers(objects[..n], marks[..n], o);
    }
  }

  /** Order is preserved: the kept objects are the old ones at increasing positions. */
  /** The elements of s are those of t at increasing positions. */
  ghost predicate Embeds(at: seq<nat>, s: seq<Object>, t: seq<Object>) {
    && |at| == |s| && (forall i :: 0 <= i < |s| ==> at[i] < |t| && t[at[i]] == s[i])
    && (forall i, j :: 0 <= i < j < |s| ==> at[i] < at[j])
  }

  ghost predicate Subsequence(s: seq<Object>, t: seq<Object>) {
    exists at: seq<nat> :: Embeds(at, s, t)
  }

  lemma {:induction false} KeptIsSubsequence(objects: seq<Object>, marks: seq<bool>)
    requires |objects| == |marks|
    ensures Subsequence(Kept(objects, marks), objects)
  {
    hide Kept, Embeds;
    var at := KeptPositions(objects, marks);
  }

  lemma {:induction false} KeptFromDistinct(objects: seq<Object>, marks: seq<bool>)
    requires |objects| == |marks|
    requires forall i, j :: 0 <= i < j < |objects| ==> objects[i] != objects[j]
    ensures var s := Kept(objects, marks);
            (forall i, j :: 0 <= i < j < |s| ==> s[i] != s[j]) && (forall o :: o in s ==> o in objects)
  {
    hide Kept;
    var at := KeptPositions(objects, marks);
  }

  lemma {:induction false} EmbedsMore(at: seq<nat>, s: seq<Object>, t: seq<Object>, x: Object)
    requires Embeds(at, s, t)
    ensures Embeds(at, s, t + [x]) && Embeds(at + [|t|], s + [x], t + [x])
  {
  }

  lemma {:induction false} KeptPositions(objects: seq<Object>, marks: seq<bool>) returns (at: seq<nat>)
    requires |objects| == |marks|
    ensures Embeds(at, Kept(objects, marks), objects)
  {
    if objects == [] {
      at := [];
    } else {
      hide Embeds;
      var n := |objects| - 1;
      at := KeptPositions(objects[..n], marks[..n]);
      EmbedsMore(at, Kept(objects[..n], marks[..n]), objects[..n], objects[n]);
      assert objects[..n] + [objects[n]] == objects;
      if marks[n] {
        at := at + [n];
      } else {
        assert Kept(objects, marks) == Kept(objects[..n], marks[..n]);
      }
    }
  }

  /** What a cycle does to one object, reported or not. */
  lemma {:induction false} CycleOf(rs: seq<Report>, o: Interval)
    requires Disjoint(rs) && Clean(rs, o)
    ensures SafeThroughout(rs, Span(o, false))
    ensures After(rs, Span(o, false)).marked <==> Reported(rs, o)
    ensures forall k :: 0 <= k < |rs| && rs[k].range.Includes(o) ==>
              After(rs, Span(o, false)).place == o.Shifted(rs[k].range.left, rs[k].newLeft)
  {
    if Reported(rs, o) {
      forall k | 0 <= k < |rs| && rs[k].range.Includes(o)
        ensures After(rs, Span(o, false)) == Span(o.Shifted(rs[k].range.left, rs[k].newLeft), true)
        ensures SafeThroughout(rs, Span(o, false))
      {
        MovedOnce(rs, o, k);
      }
      var k :| 0 <= k < |rs| && rs[k].range.Includes(o);
      MovedOnce(rs, o, k);
    } else {
      NotReported(rs, o);
    }
  }

  /** A virtual address taken before a cycle names, after it, the old physical
      address moved by the shift of the range that reported its object. */
  method AcrossCycle(heap: Heap, p: nat, rs: seq<Report>, k: nat) returns (v: Option<VirtualAddress>, moved: nat)
    requires heap.Valid() && Disjoint(rs) && k < |rs|
    requires forall o :: o in heap.objects ==> !o.marked && Clean(rs, o.Place())
    requires exists o :: o in heap.objects && o.Place().Contains(p)
    requires forall o :: o in heap.objects && o.Place().Contains(p) ==> rs[k].range.Includes(o.Place())
    modifies heap, heap.objects`left, heap.objects`right, heap.objects`marked
    ensures v.Some? && v.value.obj in heap.objects
    ensures rs[k].range.left <= p && moved == rs[k].newLeft + (p - rs[k].range.left)
    ensures moved == VirtToPhysAddress(v.value) && v.value.obj.Place().Contains(moved)
  {
    hide Disjoint, Clean, Reported, Subsequence, DestinationsApart, Apart, Alone;
    v := heap.PhysToVirtAddress(p);
    ghost var o := v.value.obj;
    ghost var was := o.Place();
    assert was.Contains(p) && rs[k].range.Includes(was);
    IsReported(rs, was, k);
    heap.CollectGarbage(rs);
    ShiftedAddress(was, rs[k].range.left, rs[k].newLeft, p);
    moved := VirtToPhysAddress(v.value);
  }

  lemma {:induction false} IsReported(rs: seq<Report>, o: Interval, k: nat)
    requires k < |rs| && rs[k].range.Includes(o)
    ensures Reported(rs, o)
  {
  }

  /** An address inside an interval moves with it. */
  lemma {:induction false} ShiftedAddress(o: Interval, oldBase: nat, newBase: nat, p: nat)
    requires oldBase <= o.left && o.Contains(p)
    ensures var t := o.Shifted(oldBase, newBase);
            oldBase <= p && t.left + (p - o.left) == newBase + (p - oldBase) && t.Contains(t.left + (p - o.left))
  {
  }
}
