// One entry of the interference cache: per-unit iterators that only move
// forward where they can, and per-block results that must agree with the scan.
module CacheEntry {
  import opened Collections
  import opened Segments
  import opened BlockInterference

  // What the entry remembers about one register unit.
  datatype UnitInfo = UnitInfo(unit: Unit, virtTag: nat, virtI: nat, fixedI: nat)

  function Virt(f: Function, u: UnitInfo): seq<Seg> { f.contents(u.unit, u.virtTag) }
  function Fixed(f: Function, u: UnitInfo): seq<Seg> { f.fixed(u.unit) }

  function VirtLists(f: Function, units: seq<UnitInfo>): (r: seq<seq<Seg>>)
    ensures |r| == |units| && forall i :: 0 <= i < |units| ==> r[i] == Virt(f, units[i])
  {
    if units == [] then [] else VirtLists(f, units[..|units| - 1]) + [Virt(f, units[|units| - 1])]
  }

  function FixedLists(f: Function, units: seq<UnitInfo>): (r: seq<seq<Seg>>)
    ensures |r| == |units| && forall i :: 0 <= i < |units| ==> r[i] == Fixed(f, units[i])
  {
    if units == [] then [] else FixedLists(f, units[..|units| - 1]) + [Fixed(f, units[|units| - 1])]
  }

  function Lists(f: Function, units: seq<UnitInfo>): seq<seq<Seg>> {
    VirtLists(f, units) + FixedLists(f, units)
  }

  // What interferes with register p at present: the contents of its units, and
  // their fixed ranges.
  ghost function Sources(f: Function, p: PReg, tags: Unit -> nat): seq<seq<Seg>> {
    var us := f.regUnits(p);
    seq(|us|, i requires 0 <= i < |us| => f.contents(us[i], tags(us[i])))
    + seq(|us|, i requires 0 <= i < |us| => f.fixed(us[i]))
  }

  lemma SourcesAre(f: Function, units: seq<UnitInfo>, p: PReg, tags: Unit -> nat)
    requires |units| == |f.regUnits(p)|
    requires forall i :: 0 <= i < |units| ==>
               units[i].unit == f.regUnits(p)[i] && units[i].virtTag == tags(units[i].unit)
    ensures Lists(f, units) == Sources(f, p, tags)
  {
    var us := f.regUnits(p);
    assert VirtLists(f, units) == seq(|us|, i requires 0 <= i < |us| => f.contents(us[i], tags(us[i])));
    assert FixedLists(f, units) == seq(|us|, i requires 0 <= i < |us| => f.fixed(us[i]));
  }

  // The iterators stand as if advanceTo(pos) had just been called.
  ghost predicate At(f: Function, u: UnitInfo, pos: int) {
    IsFirstAfter(Virt(f, u), pos, u.virtI) && IsFirstAfter(Fixed(f, u), pos, u.fixedI)
  }

  ghost predicate AllAt(f: Function, units: seq<UnitInfo>, pos: int) {
    forall i :: 0 <= i < |units| ==> At(f, units[i], pos)
  }

  // Moving iterators does not change what they run over.
  ghost predicate SameSources(a: seq<UnitInfo>, b: seq<UnitInfo>) {
    |a| == |b| && forall i :: 0 <= i < |a| ==> b[i] == a[i].(virtI := b[i].virtI, fixedI := b[i].fixedI)
  }

  lemma {:induction false} SameLists(f: Function, a: seq<UnitInfo>, b: seq<UnitInfo>)
    requires SameSources(a, b)
    ensures Lists(f, a) == Lists(f, b)
  {
    assert VirtLists(f, a) == VirtLists(f, b);
    assert FixedLists(f, a) == FixedLists(f, b);
  }

  // The stored result of block b is what the naive scan finds.
  ghost predicate Agrees(f: Function, units: seq<UnitInfo>, p: PReg, b: nat, info: BlockInfo) {
    && NaiveFirst(Lists(f, units), f.masks(b), p, Start(f, b), Stop(f, b), info.first)
    && NaiveLast(Lists(f, units), f.masks(b), p, Start(f, b), Stop(f, b), info.last)
  }

  // Every result stored under the current tag, except that of block skip, is
  // what the naive scan finds.
  ghost predicate StoredAgree(f: Function, units: seq<UnitInfo>, p: PReg, tag: nat, blocks: seq<BlockInfo>, skip: nat) {
    forall b :: 0 <= b < |blocks| && b != skip && blocks[b].tag == tag ==> Agrees(f, units, p, b, blocks[b])
  }

  class Entry {
    var f: Function
    var physReg: PReg
    var tag: nat
    var refs: nat
    var prevPos: Option<int>
    var units: seq<UnitInfo>
    var blocks: seq<BlockInfo>

    ghost predicate Valid()
      reads this
    {
      && FunctionOK(f)
      && (physReg != 0 && prevPos.Some? ==> AllAt(f, units, prevPos.value))
      && (forall b :: 0 <= b < |blocks| ==> blocks[b].tag <= tag)
      && (physReg != 0 ==>
            && |units| == |f.regUnits(physReg)|
            && (forall i :: 0 <= i < |units| ==> units[i].unit == f.regUnits(physReg)[i])
            && |blocks| == f.numBlocks
            && StoredAgree(f, units, physReg, tag, blocks, |blocks|))
    }

    constructor (fn: Function)
      requires FunctionOK(fn)
      ensures Valid() && f == fn && physReg == 0 && refs == 0
    {
      f, physReg, tag, refs, prevPos, units, blocks := fn, 0, 0, 0, None, [], [];
    }

    // clear: a new function; nothing is represented until the next reset, and
    // the stale iterators and results are not used before that.
    method Clear(fn: Function)
      requires FunctionOK(fn) && Valid() && refs == 0
      modifies this
      ensures Valid() && f == fn && physReg == 0 && tag == old(tag) && refs == 0
    {
      physReg, f := 0, fn;
    }

    // Put every iterator where find(start) would, advancing when possible.
    method MoveTo(start: int)
      requires FunctionOK(f) && (prevPos.Some? ==> AllAt(f, units, prevPos.value))
      modifies `units, `prevPos
      ensures SameSources(old(units), units) && AllAt(f, units, start) && prevPos == Some(start)
    {
      if prevPos == Some(start) { return; }
      hide FunctionOK, At;
      var rewind := prevPos.None? || start < prevPos.value;
      for i := 0 to |units|
        invariant SameSources(old(units), units) && prevPos == old(prevPos)
        invariant forall k :: 0 <= k < i ==> At(f, units[k], start)
        invariant forall k :: i <= k < |units| ==> units[k] == old(units)[k]
      {
        assert !rewind ==> At(f, units[i], prevPos.value);
        var u := MoveUnit(units[i], start, rewind);
        units := units[i := u];
      }
      prevPos := Some(start);
    }

    // Find from the front, or advance both iterators of one unit.
    method MoveUnit(u: UnitInfo, start: int, rewind: bool) returns (moved: UnitInfo)
      requires FunctionOK(f) && (rewind || exists pos :: pos <= start && At(f, u, pos))
      ensures moved == u.(virtI := moved.virtI, fixedI := moved.fixedI) && At(f, moved, start)
    {
      var v, x;
      if rewind {
        v := Find(Virt(f, u), start);
        x := Find(Fixed(f, u), start);
      } else {
        v := AdvanceTo(Virt(f, u), u.virtI, start);
        x := u.fixedI;
        if x != |Fixed(f, u)| { x := AdvanceTo(Fixed(f, u), x, start); }
      }
      moved := u.(virtI := v, fixedI := x);
    }

    method FirstOfVirt(lo: int, hi: int) returns (found: Option<int>)
      requires FunctionOK(f) && AllAt(f, units, lo)
      ensures FirstOf(VirtLists(f, units), lo, hi, found)
      ensures found.None? ==> forall k :: 0 <= k < |units| ==> UnitFirst(Virt(f, units[k]), units[k].virtI, hi).None?
    {
      hide FirstOf, FunctionOK, AllAt;
      found := None;
      FirstOfNothing(lo, hi);
      for i := 0 to |units|
        invariant FirstOf(VirtLists(f, units[..i]), lo, hi, found)
        invariant found.None? ==> forall k :: 0 <= k < i ==> UnitFirst(Virt(f, units[k]), units[k].virtI, hi).None?
      {
        var u := units[i];
        var x := UnitFirst(Virt(f, u), u.virtI, hi);
        UnitFirstAt(f, units, i, lo, hi);
        FirstOfAppend(VirtLists(f, units[..i]), Virt(f, u), lo, hi, found, x);
        assert units[..i + 1][..i] == units[..i];
        found := MinOpt(found, x);
      }
      assert units[..|units|] == units;
    }

    method FirstOfFixed(lo: int, hi: int, start: Option<int>, ghost all: seq<seq<Seg>>) returns (found: Option<int>)
      requires FunctionOK(f) && AllAt(f, units, lo) && FirstOf(all, lo, hi, start)
      ensures FirstOf(all + FixedLists(f, units), lo, hi, found)
      ensures found.None? ==> start.None? && forall k :: 0 <= k < |units| ==>
                UnitFirst(Fixed(f, units[k]), units[k].fixedI, hi).None?
    {
      hide FirstOf, FunctionOK, AllAt;
      found := start;
      assert all + FixedLists(f, units[..0]) == all;
      for i := 0 to |units|
        invariant FirstOf(all + FixedLists(f, units[..i]), lo, hi, found)
        invariant found.None? ==> start.None? && forall k :: 0 <= k < i ==>
                    UnitFirst(Fixed(f, units[k]), units[k].fixedI, hi).None?
      {
        var u := units[i];
        var x := UnitFirst(Fixed(f, u), u.fixedI, hi);
        UnitFirstAt(f, units, i, lo, hi);
        FirstOfAppend(all + FixedLists(f, units[..i]), Fixed(f, u), lo, hi, found, x);
        assert units[..i + 1][..i] == units[..i];
        assert all + FixedLists(f, units[..i + 1]) == all + FixedLists(f, units[..i]) + [Fixed(f, u)];
        found := MinOpt(found, x);
      }
      assert units[..|units|] == units;
    }

    // First interference in block b, all iterators standing at its start.
    method FirstInBlock(b: nat, lo: int, hi: int) returns (first: Option<int>)
      requires FunctionOK(f) && AllAt(f, units, lo) && MasksOK(f.masks(b), lo, hi)
      ensures NaiveFirst(Lists(f, units), f.masks(b), physReg, lo, hi, first)
      ensures first.None? ==> NothingAhead(f, units, hi)
    {
      hide FunctionOK, FirstOf, AllAt;
      var found := FirstOfVirt(lo, hi);
      found := FirstOfFixed(lo, hi, found, VirtLists(f, units));
      first := FirstWithMasks(f.masks(b), physReg, lo, hi, found, Lists(f, units));
    }

    // Advance one iterator to hi and report the stop of the last segment that
    // overlaps [lo, hi), backing up one segment and restoring when needed.
    method LastOfUnit(segs: seq<Seg>, i: nat, lo: int, hi: int) returns (k: nat, stop: Option<int>)
      requires Sorted(segs) && lo < hi && IsFirstAfter(segs, lo, i)
      ensures IsFirstAfter(segs, hi, k) && LastOf([segs], lo, hi, stop)
    {
      k := i;
      if k == |segs| || segs[k].start >= hi {
        SkipKeepsIterator(segs, lo, hi, i);
        assert forall j :: 0 <= j < |segs| ==> !Overlaps(segs[j], lo, hi);
        return k, None;
      }
      k := AdvanceTo(segs, k, hi);
      UnitLastIsLast(segs, lo, hi, i, k);
      var backup := k == |segs| || segs[k].start >= hi;
      if backup { k := k - 1; }
      stop := Some(segs[k].stop);
      if backup { k := k + 1; }
    }

    // The virtual iterators move to hi.
    method LastOfVirt(lo: int, hi: int) returns (found: Option<int>)
      requires FunctionOK(f) && AllAt(f, units, lo) && lo < hi
      modifies `units
      ensures |units| == |old(units)|
      ensures forall k :: 0 <= k < |units| ==>
                units[k] == old(units)[k].(virtI := units[k].virtI)
                    && IsFirstAfter(Virt(f, units[k]), hi, units[k].virtI)
      ensures LastOf(VirtLists(f, old(units)), lo, hi, found)
    {
      hide FunctionOK, LastOf, IsFirstAfter;
      found := None;
      ghost var us := units;
      LastOfNothing(lo, hi);
      for i := 0 to |units|
        invariant |units| == |us|
        invariant forall k :: 0 <= k < i ==>
                    units[k] == us[k].(virtI := units[k].virtI) && IsFirstAfter(Virt(f, units[k]), hi, units[k].virtI)
        invariant forall k :: i <= k < |units| ==> units[k] == us[k]
        invariant LastOf(VirtLists(f, us[..i]), lo, hi, found)
      {
        var u := units[i];
        AtUnit(f, us, i, lo);
        SortedUnit(f, u);
        var k, stop := LastOfUnit(Virt(f, u), u.virtI, lo, hi);
        LastOfAppend(VirtLists(f, us[..i]), Virt(f, u), lo, hi, found, stop);
        assert us[..i + 1][..i] == us[..i];
        units := units[i := u.(virtI := k)];
        found := MaxOpt(found, stop);
      }
      assert us[..|us|] == us;
    }

    // The fixed iterators move to hi.
    method LastOfFixed(lo: int, hi: int, start: Option<int>, ghost all: seq<seq<Seg>>) returns (found: Option<int>)
      requires FunctionOK(f) && lo < hi && LastOf(all, lo, hi, start)
      requires forall k :: 0 <= k < |units| ==> IsFirstAfter(Fixed(f, units[k]), lo, units[k].fixedI)
      modifies `units
      ensures |units| == |old(units)|
      ensures forall k :: 0 <= k < |units| ==>
                units[k] == old(units)[k].(fixedI := units[k].fixedI)
                    && IsFirstAfter(Fixed(f, units[k]), hi, units[k].fixedI)
      ensures LastOf(all + FixedLists(f, old(units)), lo, hi, found)
    {
      hide LastOf, IsFirstAfter;
      found := start;
      ghost var us := units;
      assert all + FixedLists(f, us[..0]) == all;
      for i := 0 to |units|
        invariant |units| == |us|
        invariant forall k :: 0 <= k < i ==>
                    units[k] == us[k].(fixedI := units[k].fixedI)
                        && IsFirstAfter(Fixed(f, units[k]), hi, units[k].fixedI)
        invariant forall k :: i <= k < |units| ==> units[k] == us[k]
        invariant LastOf(all + FixedLists(f, us[..i]), lo, hi, found)
      {
        var u := units[i];
        var k, stop := LastOfUnit(Fixed(f, u), u.fixedI, lo, hi);
        LastOfAppend(all + FixedLists(f, us[..i]), Fixed(f, u), lo, hi, found, stop);
        assert us[..i + 1][..i] == us[..i];
        assert all + FixedLists(f, us[..i + 1]) == all + FixedLists(f, us[..i]) + [Fixed(f, us[i])];
        units := units[i := u.(fixedI := k)];
        found := MaxOpt(found, stop);
      }
      assert us[..|us|] == us;
    }

    // Last interference in block b; leaves all iterators standing at its end.
    method LastInBlock(b: nat, lo: int, hi: int) returns (last: Option<int>)
      requires FunctionOK(f) && AllAt(f, units, lo) && MasksOK(f.masks(b), lo, hi) && lo < hi && lo % 4 == 0
      modifies `units
      ensures SameSources(old(units), units) && AllAt(f, units, hi)
      ensures NaiveLast(Lists(f, units), f.masks(b), physReg, lo, hi, last)
    {
      hide FunctionOK, LastOf, IsFirstAfter, MasksOK;
      ghost var us := units;
      var found := LastOfVirt(lo, hi);
      ghost var mid := units;
      assert SameSources(us, mid);
      SameLists(f, us, mid);
      forall k | 0 <= k < |units| ensures IsFirstAfter(Fixed(f, units[k]), lo, units[k].fixedI) {
        AtUnit(f, us, k, lo);
      }
      found := LastOfFixed(lo, hi, found, VirtLists(f, us));
      SameLists(f, mid, units);
      assert Lists(f, us) == VirtLists(f, us) + FixedLists(f, mid) by { SameFixed(f, us, mid); }
      last := LastWithMasks(f.masks(b), physReg, lo, hi, found, Lists(f, units));
    }

    // update: compute block b, and with it the following blocks, until one has
    // interference or the next one is known already; end is where that was.
    method Update(b: nat) returns (ghost end: nat)
      requires Valid() && physReg != 0 && b < f.numBlocks && blocks[b].tag != tag
      modifies `units, `prevPos, `blocks
      ensures Valid() && SameSources(old(units), units) && blocks[b].tag == tag
      ensures FilledAhead(f, tag, old(blocks), blocks, b, end)
    {
      hide NaiveFirst, NaiveLast, FunctionOK, AllAt, NothingAhead, Lists, StoredAgree, Agrees, SameSources, MasksOK;
      hide Start, Stop, EmptyUpTo, FilledAhead, LastUnknown;
      ghost var us := units;
      ghost var stored := blocks;
      var cur: nat := b;
      var lo, hi := Start(f, b), Stop(f, b);
      MoveTo(lo);
      StoredSame(f, us, units, physReg, tag, blocks);
      SourcesSame(us, us, units);
      ghost var moved := units;
      var first: Option<int>;
      NothingFilled(f, tag, blocks, b);
      while true
        invariant stored == blocks && units == moved && cur < f.numBlocks && lo == Start(f, cur) && hi == Stop(f, cur)
        invariant SameSources(us, units) && AllAt(f, units, lo) && |blocks| == f.numBlocks
        invariant StoredAgree(f, units, physReg, tag, blocks, |blocks|)
        invariant forall k :: 0 <= k < |blocks| ==> blocks[k].tag <= tag
        invariant cur == b || blocks[b].tag == tag
        invariant EmptyUpTo(f, tag, old(blocks), blocks, b, cur)
        decreases f.numBlocks - f.position(cur) as int
      {
        BlockFacts(f, cur);
        first := FirstInBlock(cur, lo, hi);
        stored := blocks;
        blocks := blocks[cur := BlockInfo(tag, first, None)];
        prevPos := Some(hi);
        if first.Some? { break; }
        // No interference in this block: precompute the next one.
        StoreEmpty(f, units, physReg, tag, stored, cur, lo, hi);
        FillOne(f, tag, old(blocks), stored, blocks, b, cur);
        stored, end := blocks, f.position(cur);
        var next := NextUnknown(cur);
        if next.None? { return; }
        cur := next.value;
        lo, hi := Start(f, cur), Stop(f, cur);
      }
      end := f.position(cur);
      StoreLast(cur, lo, hi, first, stored);
      SourcesSame(us, moved, units);
      FillLast(f, tag, old(blocks), stored, blocks, b, cur);
    }

    // The block behind cur, unless there is none or its result is known.
    method NextUnknown(cur: nat) returns (next: Option<nat>)
      requires FunctionOK(f) && cur < f.numBlocks == |blocks|
      ensures next.None? <==> LastUnknown(f, tag, blocks, cur)
      ensures next.Some? ==>
                && next.value == f.atPosition(f.position(cur) + 1) && next.value < f.numBlocks
                && f.position(next.value) == f.position(cur) + 1 && Start(f, next.value) == Stop(f, cur)
    {
      hide Start, Stop;
      BlockFacts(f, cur);
      var p := f.position(cur) + 1;
      if p == f.numBlocks { return None; }
      NextBlock(f, cur);
      if blocks[f.atPosition(p)].tag == tag { return None; }
      next := Some(f.atPosition(p));
    }

    // The last interference of a block that has a first one.
    method StoreLast(cur: nat, lo: int, hi: int, first: Option<int>, ghost stored: seq<BlockInfo>)
      requires FunctionOK(f) && physReg != 0 && cur < f.numBlocks == |blocks| && lo == Start(f, cur)
               && hi == Stop(f, cur)
      requires AllAt(f, units, lo) && MasksOK(f.masks(cur), lo, hi) && lo < hi && lo % 4 == 0
      requires first.Some? && NaiveFirst(Lists(f, units), f.masks(cur), physReg, lo, hi, first)
      requires StoredAgree(f, units, physReg, tag, stored, |stored|) && |stored| == |blocks|
      requires blocks == stored[cur := BlockInfo(tag, first, None)]
      modifies `units, `blocks
      ensures SameSources(old(units), units) && AllAt(f, units, hi) && |blocks| == f.numBlocks
      ensures StoredAgree(f, units, physReg, tag, blocks, |blocks|)
      ensures forall k :: 0 <= k < |blocks| && k != cur ==> blocks[k] == old(blocks)[k]
      ensures blocks[cur].tag == tag && blocks[cur].first == first
    {
      hide NaiveFirst, NaiveLast, FunctionOK, AllAt, Lists, StoredAgree, Agrees, SameSources, MasksOK;
      ghost var before := units;
      var last := LastInBlock(cur, lo, hi);
      blocks := blocks[cur := blocks[cur].(last := last)];
      assert blocks == stored[cur := BlockInfo(tag, first, last)];
      SameLists(f, before, units);
      StoredSame(f, before, units, physReg, tag, stored);
      BothFound(f, units, physReg, cur, tag, first, last);
      Store(f, units, physReg, tag, stored, cur, blocks[cur]);
    }

    // get: an up to date result for block b.
    method Get(b: nat) returns (info: BlockInfo)
      requires Valid() && physReg != 0 && b < f.numBlocks
      modifies `units, `prevPos, `blocks
      ensures Valid() && SameSources(old(units), units)
      ensures Agrees(f, units, physReg, b, info)
      ensures old(blocks[b].tag) == tag ==> units == old(units) && prevPos == old(prevPos) && blocks == old(blocks)
    {
      if blocks[b].tag != tag { var _ := Update(b); }
      info := blocks[b];
    }

    // ---- tags of the live interval unions ----

    ghost predicate UpToDate(p: PReg, tags: Unit -> nat)
      reads this
    {
      physReg == p && forall i :: 0 <= i < |units| ==> units[i].virtTag == tags(units[i].unit)
    }

    // While the entry is up to date, its results are those of a naive scan of the
    // present contents of the register's units and of their fixed ranges.
    lemma CurrentResult(p: PReg, tags: Unit -> nat, b: nat, info: BlockInfo)
      requires Valid() && p != 0 && UpToDate(p, tags) && Agrees(f, units, p, b, info)
      ensures NaiveFirst(Sources(f, p, tags), f.masks(b), p, f.boundary(f.position(b)), f.boundary(f.position(b) + 1),
                         info.first)
      ensures NaiveLast(Sources(f, p, tags), f.masks(b), p, f.boundary(f.position(b)), f.boundary(f.position(b) + 1),
                        info.last)
    {
      SourcesAre(f, units, p, tags);
      hide NaiveFirst, NaiveLast, FunctionOK, AllAt, StoredAgree, Lists, Sources;
    }

    // No block result counts, and the iterators are nowhere.
    ghost predicate HoldsNothing()
      reads this
    {
      prevPos == None && forall b :: 0 <= b < |blocks| ==> blocks[b].tag < tag
    }

    // valid: no union changed since the entry looked.
    method IsCurrent(tags: Unit -> nat) returns (ok: bool)
      requires Valid() && physReg != 0
      ensures ok <==> UpToDate(physReg, tags)
    {
      var us := f.regUnits(physReg);
      var e := |units|;
      for i := 0 to |us|
        invariant i <= e && forall k :: 0 <= k < i ==> units[k].virtTag == tags(units[k].unit)
      {
        if i == e { return false; }
        if tags(us[i]) != units[i].virtTag { return false; }
      }
      ok := |us| == e;
    }

    // revalidate: union contents have changed.
    method Revalidate(tags: Unit -> nat)
      requires Valid() && physReg != 0
      modifies `tag, `prevPos, `units
      ensures Valid() && tag == old(tag) + 1 && UpToDate(physReg, tags) && HoldsNothing()
    {
      tag := tag + 1;
      prevPos := None;
      var us := f.regUnits(physReg);
      for i := 0 to |us|
        invariant |units| == |us| && prevPos == None && tag == old(tag) + 1
        invariant forall k :: 0 <= k < |units| ==> units[k].unit == us[k]
        invariant forall k :: 0 <= k < i ==> units[k].virtTag == tags(us[k])
      {
        units := units[i := units[i].(virtTag := tags(us[i]))];
      }
    }

    // reset: represent another physical register.
    method Reset(p: PReg, tags: Unit -> nat)
      requires Valid() && refs == 0 && p != 0
      modifies `tag, `physReg, `prevPos, `units, `blocks
      ensures Valid() && tag == old(tag) + 1 && UpToDate(p, tags) && HoldsNothing() && |blocks| == f.numBlocks
    {
      tag := tag + 1;
      physReg := p;
      if |blocks| > f.numBlocks { blocks := blocks[..f.numBlocks]; }
      while |blocks| < f.numBlocks
        invariant |blocks| <= f.numBlocks && tag == old(tag) + 1 && physReg == p
        invariant forall b :: 0 <= b < |blocks| ==> blocks[b].tag < tag
        decreases f.numBlocks - |blocks|
      {
        blocks := blocks + [BlockInfo(0, None, None)];
      }
      prevPos := None;
      units := [];
      var us := f.regUnits(p);
      for i := 0 to |us|
        invariant |units| == i && prevPos == None && tag == old(tag) + 1 && physReg == p
        invariant |blocks| == f.numBlocks && forall b :: 0 <= b < |blocks| ==> blocks[b].tag < tag
        invariant forall k :: 0 <= k < i ==> units[k].unit == us[k] && units[k].virtTag == tags(us[k])
      {
        units := units + [UnitInfo(us[i], tags(us[i]), 0, 0)];
      }
    }

    method AddRef(delta: int)
      requires refs + delta >= 0
      modifies `refs
      ensures refs == old(refs) + delta
      ensures old(Valid()) ==> Valid()
    {
      refs := refs + delta;
    }
  }

  lemma StoredSame(f: Function, a: seq<UnitInfo>, b: seq<UnitInfo>, p: PReg, tag: nat, blocks: seq<BlockInfo>)
    requires SameSources(a, b)
    ensures forall skip :: StoredAgree(f, a, p, tag, blocks, skip) ==> StoredAgree(f, b, p, tag, blocks, skip)
  {
    SameLists(f, a, b);
  }

  lemma SourcesSame(a: seq<UnitInfo>, b: seq<UnitInfo>, c: seq<UnitInfo>)
    requires SameSources(b, c)
    ensures SameSources(a, b) ==> SameSources(a, c)
    ensures |b| == |c| && forall i :: 0 <= i < |b| ==> c[i].unit == b[i].unit
  {
  }

  lemma Store(f: Function, units: seq<UnitInfo>, p: PReg, tag: nat, blocks: seq<BlockInfo>, b: nat, info: BlockInfo)
    requires b < |blocks| && StoredAgree(f, units, p, tag, blocks, |blocks|) && Agrees(f, units, p, b, info)
    ensures StoredAgree(f, units, p, tag, blocks[b := info], |blocks|)
  {
    hide Agrees;
  }

  lemma BothFound(f: Function, units: seq<UnitInfo>, p: PReg, b: nat, tag: nat, first: Option<int>, last: Option<int>)
    requires NaiveFirst(Lists(f, units), f.masks(b), p, Start(f, b), Stop(f, b), first)
    requires NaiveLast(Lists(f, units), f.masks(b), p, Start(f, b), Stop(f, b), last)
    requires first.Some?
    ensures Agrees(f, units, p, b, BlockInfo(tag, first, last))
  {
  }

  // ---- the blocks filled in together ----

  // From b up to block cur all blocks were filled in, as empty ones; the others are as before.
  ghost predicate EmptyUpTo(f: Function, tag: nat, before: seq<BlockInfo>, blocks: seq<BlockInfo>, b: nat, cur: nat) {
    && |before| == |blocks| == f.numBlocks && b < f.numBlocks && cur < f.numBlocks && f.position(b) <= f.position(cur)
    && before[cur].tag != tag
    && forall k: nat :: k < f.numBlocks ==>
         if f.position(b) <= f.position(k) < f.position(cur) then
           before[k].tag != tag && blocks[k].tag == tag && blocks[k].first.None?
         else blocks[k] == before[k]
  }

  // Exactly the blocks from b to position end were filled in, none of which was
  // known; all but the last are empty, and there was a reason to stop there.
  ghost predicate FilledAhead(f: Function, tag: nat, before: seq<BlockInfo>, blocks: seq<BlockInfo>, b: nat, end: nat) {
    && |before| == |blocks| == f.numBlocks && b < f.numBlocks && f.position(b) <= end < f.numBlocks
    && (forall k: nat :: k < f.numBlocks ==>
          if f.position(b) <= f.position(k) <= end then
            before[k].tag != tag && blocks[k].tag == tag && (f.position(k) < end ==> blocks[k].first.None?)
          else blocks[k] == before[k])
    && f.atPosition(end) < f.numBlocks
    && (blocks[f.atPosition(end)].first.Some? || end + 1 == f.numBlocks
        || (f.atPosition(end + 1) < f.numBlocks && before[f.atPosition(end + 1)].tag == tag))
  }

  lemma NothingFilled(f: Function, tag: nat, blocks: seq<BlockInfo>, b: nat)
    requires FunctionOK(f) && |blocks| == f.numBlocks && b < f.numBlocks && blocks[b].tag != tag
    ensures EmptyUpTo(f, tag, blocks, blocks, b, b)
  {}

  ghost predicate LastUnknown(f: Function, tag: nat, blocks: seq<BlockInfo>, cur: nat) {
    var p := f.position(cur) + 1;
    p >= f.numBlocks || (f.atPosition(p) < |blocks| && blocks[f.atPosition(p)].tag == tag)
  }

  // Filling in one empty block more ends the work, unless the next block is unknown.
  lemma FillOne(f: Function, tag: nat, before: seq<BlockInfo>, stored: seq<BlockInfo>, blocks: seq<BlockInfo>, b: nat,
                cur: nat)
    requires FunctionOK(f) && EmptyUpTo(f, tag, before, stored, b, cur)
    requires blocks == stored[cur := BlockInfo(tag, None, None)]
    ensures LastUnknown(f, tag, blocks, cur) ==> FilledAhead(f, tag, before, blocks, b, f.position(cur))
    ensures !LastUnknown(f, tag, blocks, cur) ==>
              EmptyUpTo(f, tag, before, blocks, b, f.atPosition(f.position(cur) + 1))
  {
    hide Sorted, MasksOK;
    assert forall k: nat :: k < f.numBlocks && f.position(k) == f.position(cur) ==> k == cur;
  }

  lemma FillLast(f: Function, tag: nat, before: seq<BlockInfo>, stored: seq<BlockInfo>, blocks: seq<BlockInfo>, b: nat,
                 cur: nat)
    requires FunctionOK(f) && EmptyUpTo(f, tag, before, stored, b, cur) && |blocks| == |stored|
    requires forall k :: 0 <= k < |blocks| && k != cur ==> blocks[k] == stored[k]
    requires blocks[cur].tag == tag && blocks[cur].first.Some?
    ensures FilledAhead(f, tag, before, blocks, b, f.position(cur))
  {
    hide Sorted, MasksOK;
    assert forall k: nat :: k < f.numBlocks && f.position(k) == f.position(cur) ==> k == cur;
  }

  lemma BlockFacts(f: Function, b: nat)
    requires FunctionOK(f) && b < f.numBlocks
    ensures Start(f, b) < Stop(f, b) && Start(f, b) % 4 == 0 && MasksOK(f.masks(b), Start(f, b), Stop(f, b))
    ensures f.position(b) < f.numBlocks
  {}

  lemma NextBlock(f: Function, b: nat)
    requires FunctionOK(f) && b < f.numBlocks && f.position(b) + 1 < f.numBlocks
    ensures var n := f.atPosition(f.position(b) + 1);
            n < f.numBlocks && f.position(n) == f.position(b) + 1 && Start(f, n) == Stop(f, b)
  {}

  // A block without a first interference has no last one, and the iterators are
  // already where the next block needs them.
  lemma StoreEmpty(f: Function, units: seq<UnitInfo>, p: PReg, tag: nat, stored: seq<BlockInfo>, b: nat, lo: int,
                   hi: int)
    requires FunctionOK(f) && b < f.numBlocks == |stored| && lo == Start(f, b) && hi == Stop(f, b)
    requires AllAt(f, units, lo) && NothingAhead(f, units, hi)
    requires NaiveFirst(Lists(f, units), f.masks(b), p, lo, hi, None)
    requires StoredAgree(f, units, p, tag, stored, |stored|)
    ensures StoredAgree(f, units, p, tag, stored[b := BlockInfo(tag, None, None)], |stored|)
    ensures AllAt(f, units, hi)
  {
    hide *;
    NothingFound(f, units, p, b, lo, hi);
    Store(f, units, p, tag, stored, b, BlockInfo(tag, None, None));
  }

  lemma NothingFound(f: Function, units: seq<UnitInfo>, p: PReg, b: nat, lo: int, hi: int)
    requires FunctionOK(f) && b < f.numBlocks && lo == Start(f, b) && hi == Stop(f, b)
    requires AllAt(f, units, lo) && NothingAhead(f, units, hi)
    requires NaiveFirst(Lists(f, units), f.masks(b), p, lo, hi, None)
    ensures AllAt(f, units, hi) && Agrees(f, units, p, b, BlockInfo(0, None, None))
    ensures forall tag :: Agrees(f, units, p, b, BlockInfo(tag, None, None))
  {
    BlockFacts(f, b);
    forall i | 0 <= i < |units| ensures At(f, units[i], hi) {
      AtUnit(f, units, i, lo);
      SortedUnit(f, units[i]);
      SkipKeepsIterator(Virt(f, units[i]), lo, hi, units[i].virtI);
      SkipKeepsIterator(Fixed(f, units[i]), lo, hi, units[i].fixedI);
    }
  }

  // Every iterator is at the end or at a segment that starts at hi or later.
  ghost predicate NothingAhead(f: Function, units: seq<UnitInfo>, hi: int) {
    forall i :: 0 <= i < |units| ==>
      UnitFirst(Virt(f, units[i]), units[i].virtI, hi).None? && UnitFirst(Fixed(f, units[i]), units[i].fixedI, hi).None?
  }

  lemma FirstOfNothing(lo: int, hi: int)
    ensures FirstOf([], lo, hi, None)
  {}

  lemma LastOfNothing(lo: int, hi: int)
    ensures LastOf([], lo, hi, None)
  {}

  lemma SortedUnit(f: Function, u: UnitInfo)
    requires FunctionOK(f)
    ensures Sorted(Virt(f, u)) && Sorted(Fixed(f, u))
  {}

  lemma AtUnit(f: Function, units: seq<UnitInfo>, i: nat, pos: int)
    requires AllAt(f, units, pos) && i < |units|
    ensures At(f, units[i], pos)
    ensures IsFirstAfter(Virt(f, units[i]), pos, units[i].virtI)
              && IsFirstAfter(Fixed(f, units[i]), pos, units[i].fixedI)
  {}

  lemma UnitFirstAt(f: Function, units: seq<UnitInfo>, i: nat, lo: int, hi: int)
    requires FunctionOK(f) && AllAt(f, units, lo) && i < |units|
    ensures FirstOf([Virt(f, units[i])], lo, hi, UnitFirst(Virt(f, units[i]), units[i].virtI, hi))
    ensures FirstOf([Fixed(f, units[i])], lo, hi, UnitFirst(Fixed(f, units[i]), units[i].fixedI, hi))
  {
    hide FirstOf;
    AtUnit(f, units, i, lo);
    UnitFirstIsFirst(Virt(f, units[i]), lo, hi, units[i].virtI);
    UnitFirstIsFirst(Fixed(f, units[i]), lo, hi, units[i].fixedI);
  }

  lemma SameFixed(f: Function, a: seq<UnitInfo>, b: seq<UnitInfo>)
    requires SameSources(a, b)
    ensures FixedLists(f, a) == FixedLists(f, b)
  {}
}
