// Sorted live segments, iterators over them, and the naive scan of a block.
module Segments {
  import opened Collections

  // Half-open [start, stop).
  datatype Seg = Seg(start: int, stop: int) {
    predicate Has(x: int) { start <= x < stop }
  }

  ghost predicate Sorted(segs: seq<Seg>) {
    && (forall i :: 0 <= i < |segs| ==> segs[i].start < segs[i].stop)
    && (forall i, j :: 0 <= i < j < |segs| ==> segs[i].stop <= segs[j].start)
  }

  // The first segment that ends after pos, or the end.
  ghost predicate IsFirstAfter(segs: seq<Seg>, pos: int, i: nat) {
    && i <= |segs|
    && (i < |segs| ==> segs[i].stop > pos)
    && (forall j :: 0 <= j < i ==> segs[j].stop <= pos)
  }

  // find
  method Find(segs: seq<Seg>, pos: int) returns (i: nat)
    requires Sorted(segs)
    ensures IsFirstAfter(segs, pos, i)
  {
    i := AdvanceTo(segs, 0, pos);
  }

  // advanceTo
  method AdvanceTo(segs: seq<Seg>, from: nat, pos: int) returns (i: nat)
    requires Sorted(segs) && from <= |segs| && forall j :: 0 <= j < from ==> segs[j].stop <= pos
    ensures from <= i && IsFirstAfter(segs, pos, i)
  {
    i := from;
    while i < |segs| && segs[i].stop <= pos
      invariant from <= i <= |segs| && forall j :: 0 <= j < i ==> segs[j].stop <= pos
    {
      i := i + 1;
    }
  }

  // ---- the naive scan ----

  predicate Overlaps(s: Seg, lo: int, hi: int) { s.stop > lo && s.start < hi }

  // x is the smallest start among the segments of all lists that overlap
  // [lo, hi), or there is none.
  ghost predicate FirstOf(lists: seq<seq<Seg>>, lo: int, hi: int, first: Option<int>) {
    && (first.None? ==> forall k, j :: 0 <= k < |lists| && 0 <= j < |lists[k]| ==> !Overlaps(lists[k][j], lo, hi))
    && (first.Some? ==>
          && (exists k, j :: 0 <= k < |lists| && 0 <= j < |lists[k]| && Overlaps(lists[k][j], lo, hi)
                             && lists[k][j].start == first.value)
          && (forall k, j :: 0 <= k < |lists| && 0 <= j < |lists[k]| && Overlaps(lists[k][j], lo, hi) ==>
                first.value <= lists[k][j].start))
  }

  // The largest stop among the overlapping segments.
  ghost predicate LastOf(lists: seq<seq<Seg>>, lo: int, hi: int, last: Option<int>) {
    && (last.None? ==> forall k, j :: 0 <= k < |lists| && 0 <= j < |lists[k]| ==> !Overlaps(lists[k][j], lo, hi))
    && (last.Some? ==>
          && (exists k, j :: 0 <= k < |lists| && 0 <= j < |lists[k]| && Overlaps(lists[k][j], lo, hi)
                             && lists[k][j].stop == last.value)
          && (forall k, j :: 0 <= k < |lists| && 0 <= j < |lists[k]| && Overlaps(lists[k][j], lo, hi) ==>
                lists[k][j].stop <= last.value))
  }

  // ---- one unit ----

  // Start of the first overlapping segment, read off an iterator at lo.
  function UnitFirst(segs: seq<Seg>, i: nat, hi: int): Option<int> {
    if i < |segs| && segs[i].start < hi then Some(segs[i].start) else None
  }

  function MinOpt(a: Option<int>, b: Option<int>): Option<int> {
    if b.None? then a else if a.None? || b.value < a.value then b else a
  }

  function MaxOpt(a: Option<int>, b: Option<int>): Option<int> {
    if b.None? then a else if a.None? || b.value > a.value then b else a
  }

  lemma UnitFirstIsFirst(segs: seq<Seg>, lo: int, hi: int, i: nat)
    requires Sorted(segs) && IsFirstAfter(segs, lo, i)
    ensures FirstOf([segs], lo, hi, UnitFirst(segs, i, hi))
  {
    if i < |segs| && segs[i].start < hi {
      assert [segs][0][i].start == segs[i].start;
    }
  }

  lemma FirstOfAppend(lists: seq<seq<Seg>>, segs: seq<Seg>, lo: int, hi: int, a: Option<int>, b: Option<int>)
    requires FirstOf(lists, lo, hi, a) && FirstOf([segs], lo, hi, b)
    ensures FirstOf(lists + [segs], lo, hi, MinOpt(a, b))
  {
    var all, x := lists + [segs], MinOpt(a, b);
    forall k, j | 0 <= k < |all| && 0 <= j < |all[k]| && Overlaps(all[k][j], lo, hi)
      ensures x.Some? && x.value <= all[k][j].start
    {
      if k == |lists| { assert [segs][0][j] == all[k][j]; }
    }
    if x.Some? && x == a {
      var k, j :| 0 <= k < |lists| && 0 <= j < |lists[k]| && Overlaps(lists[k][j], lo, hi)
          && lists[k][j].start == a.value;
      assert all[k][j] == lists[k][j];
    } else if x.Some? {
      var k, j :| 0 <= k < 1 && 0 <= j < |[segs][k]| && Overlaps([segs][k][j], lo, hi) && [segs][k][j].start == b.value;
      assert all[|lists|][j] == segs[j];
    }
  }

  lemma LastOfAppend(lists: seq<seq<Seg>>, segs: seq<Seg>, lo: int, hi: int, a: Option<int>, b: Option<int>)
    requires LastOf(lists, lo, hi, a) && LastOf([segs], lo, hi, b)
    ensures LastOf(lists + [segs], lo, hi, MaxOpt(a, b))
  {
    var all, x := lists + [segs], MaxOpt(a, b);
    forall k, j | 0 <= k < |all| && 0 <= j < |all[k]| && Overlaps(all[k][j], lo, hi)
      ensures x.Some? && all[k][j].stop <= x.value
    {
      if k == |lists| { assert [segs][0][j] == all[k][j]; }
    }
    if x.Some? && x == a {
      var k, j :| 0 <= k < |lists| && 0 <= j < |lists[k]| && Overlaps(lists[k][j], lo, hi)
          && lists[k][j].stop == a.value;
      assert all[k][j] == lists[k][j];
    } else if x.Some? {
      var k, j :| 0 <= k < 1 && 0 <= j < |[segs][k]| && Overlaps([segs][k][j], lo, hi) && [segs][k][j].stop == b.value;
      assert all[|lists|][j] == segs[j];
    }
  }

  // A unit without interference in [lo, hi) needs no advancing: its iterator
  // is already where find(hi) would put it.
  lemma SkipKeepsIterator(segs: seq<Seg>, lo: int, hi: int, i: nat)
    requires Sorted(segs) && lo <= hi && IsFirstAfter(segs, lo, i) && UnitFirst(segs, i, hi).None?
    ensures IsFirstAfter(segs, hi, i)
  {}

  // Stop of the last overlapping segment: the one the iterator reaches at hi if
  // that already started, else the one before it.
  lemma UnitLastIsLast(segs: seq<Seg>, lo: int, hi: int, i: nat, k: nat)
    requires Sorted(segs) && lo < hi && IsFirstAfter(segs, lo, i) && UnitFirst(segs, i, hi).Some?
    requires IsFirstAfter(segs, hi, k)
    ensures var backup := k == |segs| || segs[k].start >= hi;
            && (backup ==> i < k && LastOf([segs], lo, hi, Some(segs[k - 1].stop)))
            && (!backup ==> LastOf([segs], lo, hi, Some(segs[k].stop)))
  {
    var backup := k == |segs| || segs[k].start >= hi;
    var l := if backup then k - 1 else k;
    assert Overlaps([segs][0][l], lo, hi);
    assert forall j :: l < j < |segs| ==> segs[l].stop <= segs[j].start && !Overlaps(segs[j], lo, hi);
  }
}
