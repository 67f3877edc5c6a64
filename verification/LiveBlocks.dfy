// The blocks where a live range is live, and how it is live there.
module LiveBlocks {
  import opened Collections
  import Segments

  type Slot = int

  type Segment = Segments.Seg

  // The live segments, the slots of the using and defining instructions, and
  // the block boundaries: block b is [bound[b], bound[b + 1]).
  datatype Range = Range(segs: seq<Segment>, uses: seq<Slot>, bound: seq<Slot>)

  datatype BlockInfo = BlockInfo(block: nat, firstInstr: Slot, lastInstr: Slot, firstDef: Option<Slot>,
                                 liveIn: bool, liveOut: bool) {
    ghost function Lower(r: Range): Slot
      requires block < Blocks(r)
    {
      if liveIn then r.bound[block] else firstInstr
    }

    ghost function Upper(r: Range): Slot
      requires block < Blocks(r)
    {
      if liveOut then r.bound[block + 1] else lastInstr
    }
  }

  ghost function Blocks(r: Range): nat {
    if r.bound == [] then 0 else |r.bound| - 1
  }

  ghost predicate Sorted(r: Range) {
    && (forall b, c :: 0 <= b < c < |r.bound| ==> r.bound[b] < r.bound[c])
    && (forall j, k :: 0 <= j < k < |r.uses| ==> r.uses[j] < r.uses[k])
    && Segments.Sorted(r.segs)
    && (forall i :: 0 <= i < |r.segs| ==>
          |r.bound| > 1 && r.bound[0] <= r.segs[i].start && r.segs[i].stop <= r.bound[|r.bound| - 1])
  }

  ghost predicate InBlock(r: Range, b: nat, x: Slot) {
    b < Blocks(r) && r.bound[b] <= x < r.bound[b + 1]
  }

  ghost predicate HasUse(r: Range, b: nat) {
    exists j :: 0 <= j < |r.uses| && InBlock(r, b, r.uses[j])
  }

  ghost predicate Touches(s: Segment, x: Slot) { s.start <= x <= s.stop }

  // A segment starts at a block boundary or at a definition.
  ghost predicate StartsAtDef(r: Range, i: nat)
    requires i < |r.segs|
  {
    r.segs[i].start in r.bound || r.segs[i].start in r.uses
  }

  // A segment that ends inside a block leaves a use in the block.
  ghost predicate StopsAtUse(r: Range, i: nat)
    requires i < |r.segs|
  {
    forall b: nat :: InBlock(r, b, r.segs[i].stop) && r.bound[b] < r.segs[i].stop ==> HasUse(r, b)
  }

  // A use is no block boundary, and touches a segment.
  ghost predicate UsesLive(r: Range, j: nat)
    requires j < |r.uses|
  {
    r.uses[j] !in r.bound && exists i :: 0 <= i < |r.segs| && Touches(r.segs[i], r.uses[j])
  }

  ghost predicate WellFormed(r: Range) {
    && Sorted(r)
    && (forall i: nat :: i < |r.segs| ==> StartsAtDef(r, i) && StopsAtUse(r, i))
    && (forall j: nat :: j < |r.uses| ==> UsesLive(r, j))
  }

  ghost predicate Live(r: Range, x: Slot) {
    exists i :: 0 <= i < |r.segs| && r.segs[i].Has(x)
  }

  ghost predicate Overlaps(r: Range, b: nat, i: nat) {
    b < Blocks(r) && i < |r.segs| && r.segs[i].start < r.bound[b + 1] && r.segs[i].stop > r.bound[b]
  }

  ghost predicate Meets(r: Range, b: nat) {
    exists i: nat :: i < |r.segs| && Overlaps(r, b, i)
  }

  // i is the first segment overlapping block b.
  ghost predicate FirstOverlap(r: Range, b: nat, i: nat) {
    Overlaps(r, b, i) && forall j :: 0 <= j < i ==> r.segs[j].stop <= r.bound[b]
  }

  ghost function CountMet(r: Range, n: nat): nat {
    if n == 0 then 0 else CountMet(r, n - 1) + if Meets(r, n - 1) then 1 else 0
  }

  ghost function CountUsed(r: Range, n: nat): nat {
    if n == 0 then 0 else CountUsed(r, n - 1) + if HasUse(r, n - 1) then 1 else 0
  }

  lemma {:induction false} MetSkip(r: Range, m: nat, n: nat)
    requires m <= n && forall b: nat :: m <= b < n ==> !Meets(r, b)
    ensures CountMet(r, n) == CountMet(r, m)
  {
    if m < n { MetSkip(r, m, n - 1); }
  }

  lemma {:induction false} UsedSkip(r: Range, m: nat, n: nat)
    requires m <= n && forall b: nat :: m <= b < n ==> !HasUse(r, b)
    ensures CountUsed(r, n) == CountUsed(r, m)
  {
    if m < n { UsedSkip(r, m, n - 1); }
  }

  // A use in a block is after the boundary, and touches a segment.
  lemma UseInside(r: Range, b: nat, j: nat) returns (i: nat)
    requires WellFormed(r) && j < |r.uses| && InBlock(r, b, r.uses[j])
    ensures r.bound[b] < r.uses[j] && i < |r.segs| && Touches(r.segs[i], r.uses[j])
  {
    assert UsesLive(r, j);
    hide StartsAtDef, StopsAtUse, Sorted;
    assert r.bound[b] in r.bound;
    i :| 0 <= i < |r.segs| && Touches(r.segs[i], r.uses[j]);
  }

  // A segment that starts inside a block starts at a use slot.
  lemma StartsInside(r: Range, b: nat, i: nat) returns (k: nat)
    requires WellFormed(r) && i < |r.segs| && InBlock(r, b, r.segs[i].start) && r.bound[b] < r.segs[i].start
    ensures k < |r.uses| && r.uses[k] == r.segs[i].start
  {
    assert StartsAtDef(r, i);
    hide StopsAtUse, UsesLive;
    k :| 0 <= k < |r.uses| && r.uses[k] == r.segs[i].start;
  }

  // A block with a use is met.
  lemma UseMeets(r: Range, b: nat)
    requires WellFormed(r) && HasUse(r, b)
    ensures Meets(r, b)
  {
    hide StartsAtDef, StopsAtUse, UsesLive;
    var j: nat :| j < |r.uses| && InBlock(r, b, r.uses[j]);
    var i := UseInside(r, b, j);
    assert Overlaps(r, b, i);
  }

  // The first assertion: a range that is not live-in begins with the first use
  // of the block.
  lemma NotLiveIn(r: Range, b: nat, i: nat)
    requires WellFormed(r) && FirstOverlap(r, b, i) && r.segs[i].start > r.bound[b]
    ensures r.segs[i].start in r.uses && HasUse(r, b)
    ensures forall j :: 0 <= j < |r.uses| && InBlock(r, b, r.uses[j]) ==> r.segs[i].start <= r.uses[j]
  {
    hide StartsAtDef, StopsAtUse, UsesLive;
    var k := StartsInside(r, b, i);
    assert InBlock(r, b, r.uses[k]);
    assert forall m :: 0 <= m < i ==> r.segs[m].stop <= r.bound[b];
    forall j: nat | j < |r.uses| && InBlock(r, b, r.uses[j]) ensures r.segs[i].start <= r.uses[j] {
      var m := UseInside(r, b, j);
      assert i <= m;
    }
  }

  // The second assertion: without uses in the block the range is live through.
  lemma NoUseLiveThrough(r: Range, b: nat, i: nat)
    requires WellFormed(r) && FirstOverlap(r, b, i) && !HasUse(r, b)
    ensures r.segs[i].start <= r.bound[b] && r.bound[b + 1] <= r.segs[i].stop
    ensures forall x :: InBlock(r, b, x) ==> Live(r, x)
  {
    assert StopsAtUse(r, i);
    hide StartsAtDef, UsesLive, HasUse;
    if r.segs[i].start > r.bound[b] { NotLiveIn(r, b, i); }
    assert InBlock(r, b, r.segs[i].stop) ==> HasUse(r, b);
    forall x | InBlock(r, b, x) ensures Live(r, x) {
      assert r.segs[i].Has(x);
    }
  }

  // The entry's instructions and definition, read off the range.
  ghost predicate EntryOK(r: Range, e: BlockInfo) {
    && e.block < Blocks(r)
    && r.bound[e.block] <= e.Lower(r) < e.Upper(r) <= r.bound[e.block + 1]
    && (e.liveIn ==> FirstUse(r, e.block, e.firstInstr))
    && (!e.liveIn ==> r.bound[e.block] < e.firstInstr && e.firstDef == Some(e.firstInstr))
    && (e.liveOut ==> LastUse(r, e.block, e.lastInstr))
    && (!e.liveOut ==> e.lastInstr < r.bound[e.block + 1])
    && FirstDefOK(r, e)
  }

  ghost predicate FirstUse(r: Range, b: nat, x: Slot) {
    && x in r.uses && InBlock(r, b, x)
    && (forall j :: 0 <= j < |r.uses| && InBlock(r, b, r.uses[j]) ==> x <= r.uses[j])
  }

  ghost predicate LastUse(r: Range, b: nat, x: Slot) {
    && x in r.uses && InBlock(r, b, x)
    && (forall j :: 0 <= j < |r.uses| && InBlock(r, b, r.uses[j]) ==> r.uses[j] <= x)
  }

  // s starts inside the entry's stretch, after the block boundary.
  ghost predicate DefinesIn(r: Range, e: BlockInfo, s: Segment)
    requires e.block < Blocks(r)
  {
    r.bound[e.block] < s.start && e.Lower(r) <= s.start < e.Upper(r)
  }

  // firstDef is the least start of a segment inside the stretch, if any.
  ghost predicate FirstDefOK(r: Range, e: BlockInfo)
    requires e.block < Blocks(r)
  {
    match e.firstDef
    case None => forall i :: 0 <= i < |r.segs| ==> !DefinesIn(r, e, r.segs[i])
    case Some(d) =>
      && (exists i :: 0 <= i < |r.segs| && r.segs[i].start == d && DefinesIn(r, e, r.segs[i]))
      && (forall i :: 0 <= i < |r.segs| && DefinesIn(r, e, r.segs[i]) ==> d <= r.segs[i].start)
  }

  ghost predicate Has(r: Range, e: BlockInfo, b: nat, x: Slot) {
    e.block == b && b < Blocks(r) && e.Lower(r) <= x < e.Upper(r)
  }

  ghost predicate Covered(r: Range, es: seq<BlockInfo>, b: nat, x: Slot) {
    exists k :: 0 <= k < |es| && Has(r, es[k], b, x)
  }

  // Up to a slot, the entries of block b cover exactly the live slots.
  ghost predicate Exact(r: Range, es: seq<BlockInfo>, b: nat, upto: Slot) {
    forall x :: InBlock(r, b, x) && x < upto ==> (Live(r, x) <==> Covered(r, es, b, x))
  }

  // Entries come in order, and two of one block have a real gap between them.
  ghost predicate Apart(r: Range, d: BlockInfo, e: BlockInfo)
    requires d.block < Blocks(r) && e.block < Blocks(r)
  {
    d.block < e.block || (d.block == e.block && d.Upper(r) < e.Lower(r))
  }

  ghost predicate EntriesOK(r: Range, es: seq<BlockInfo>) {
    && (forall k :: 0 <= k < |es| ==> EntryOK(r, es[k]))
    && (forall k, l :: 0 <= k < l < |es| ==> Apart(r, es[k], es[l]))
  }

  // The definition found so far among the segments up to lvi.
  ghost predicate DefSoFar(r: Range, lvi: nat, e: BlockInfo)
    requires lvi < |r.segs| && e.block < Blocks(r)
  {
    match e.firstDef
    case None => forall i :: 0 <= i <= lvi ==> !(r.bound[e.block] < r.segs[i].start && e.Lower(r) <= r.segs[i].start)
    case Some(d) =>
      && r.bound[e.block] < d && e.Lower(r) <= d <= r.segs[lvi].start
      && (exists i :: 0 <= i <= lvi && r.segs[i].start == d)
      && (forall i :: 0 <= i <= lvi && r.bound[e.block] < r.segs[i].start && e.Lower(r) <= r.segs[i].start ==>
          d <= r.segs[i].start)
  }

  ghost predicate LiveBetween(r: Range, lo: Slot, hi: Slot) {
    forall x :: lo <= x < hi ==> Live(r, x)
  }

  // Entry e is being built for block b, and has reached segment lvi.
  ghost predicate Scanning(r: Range, b: nat, lvi: nat, e: BlockInfo, es: seq<BlockInfo>) {
    && Overlaps(r, b, lvi) && e.block == b && e.liveOut && LastUse(r, b, e.lastInstr)
    && (forall j :: 0 <= j < lvi ==> r.segs[j].stop < r.bound[b + 1])
    && r.bound[b] <= e.Lower(r) < r.bound[b + 1] && e.Lower(r) < r.segs[lvi].stop
    && LiveBetween(r, e.Lower(r), r.segs[lvi].stop)
    && (e.liveIn ==> FirstUse(r, b, e.firstInstr))
    && (!e.liveIn ==> r.bound[b] < e.firstInstr && e.firstDef == Some(e.firstInstr))
    && DefSoFar(r, lvi, e)
    && EntriesOK(r, es) && Exact(r, es, b, e.Lower(r))
    && (forall k :: 0 <= k < |es| ==> Apart(r, es[k], e))
  }

  // The block's first entry starts with its first overlapping segment.
  lemma ScanBegins(r: Range, b: nat, lvi: nat, e: BlockInfo, es: seq<BlockInfo>)
    requires WellFormed(r) && FirstOverlap(r, b, lvi) && EntriesOK(r, es) && forall k :: 0 <= k < |es| ==>
             es[k].block < b
    requires e.block == b && e.liveOut && LastUse(r, b, e.lastInstr) && FirstUse(r, b, e.firstInstr)
    requires e.liveIn <==> r.segs[lvi].start <= r.bound[b]
    requires e.firstDef == if e.liveIn then None else Some(e.firstInstr)
    ensures Scanning(r, b, lvi, e, es)
  {
    hide StartsAtDef, StopsAtUse, UsesLive, EntryOK;
    if !e.liveIn {
      NotLiveIn(r, b, lvi);
      var k :| 0 <= k < |r.uses| && r.uses[k] == r.segs[lvi].start;
      assert InBlock(r, b, r.uses[k]);
      assert e.firstInstr == r.segs[lvi].start;
    }
    forall x | e.Lower(r) <= x < r.segs[lvi].stop ensures Live(r, x) {
      assert r.segs[lvi].Has(x);
    }
    hide FirstUse, LastUse;
    forall x | InBlock(r, b, x) && x < e.Lower(r) ensures !Live(r, x) && !Covered(r, es, b, x) {
    }
  }

  // The next segment touches: the entry goes on.
  lemma ScanJoins(r: Range, b: nat, lvi: nat, e: BlockInfo, es: seq<BlockInfo>, f: BlockInfo)
    requires Sorted(r) && Scanning(r, b, lvi, e, es) && r.segs[lvi].stop < r.bound[b + 1]
    requires lvi + 1 < |r.segs| && r.segs[lvi + 1].start == r.segs[lvi].stop
    requires f == if e.firstDef.None? then e.(firstDef := Some(r.segs[lvi + 1].start)) else e
    ensures Scanning(r, b, lvi + 1, f, es)
  {
    hide FirstUse, LastUse, EntriesOK;
    assert f.Lower(r) == e.Lower(r);
    forall x | r.segs[lvi].stop <= x < r.segs[lvi + 1].stop ensures Live(r, x) {
      assert r.segs[lvi + 1].Has(x);
    }
    hide Live, Exact;
  }

  // The finished entry e is fine, and covers the block exactly up to the next segment.
  lemma ScanEntry(r: Range, b: nat, lvi: nat, e: BlockInfo, es: seq<BlockInfo>, f: BlockInfo, upto: Slot)
    requires Sorted(r) && Scanning(r, b, lvi, e, es) && upto <= r.bound[b + 1]
    requires f == (if r.bound[b + 1] <= r.segs[lvi].stop then e
                   else e.(liveOut := false, lastInstr := r.segs[lvi].stop))
    requires lvi + 1 < |r.segs| ==> upto <= r.segs[lvi + 1].start
    ensures EntriesOK(r, es + [f]) && Exact(r, es + [f], b, upto)
  {
    FinishedOK(r, b, lvi, e, es, f);
    FinishedExact(r, b, lvi, e, es, f, upto);
    hide EntryOK;
  }

  lemma FinishedOK(r: Range, b: nat, lvi: nat, e: BlockInfo, es: seq<BlockInfo>, f: BlockInfo)
    requires Sorted(r) && Scanning(r, b, lvi, e, es)
    requires f == (if r.bound[b + 1] <= r.segs[lvi].stop then e
                   else e.(liveOut := false, lastInstr := r.segs[lvi].stop))
    ensures EntryOK(r, f)
  {
    hide FirstUse, LastUse, EntriesOK, Exact, LiveBetween;
    assert f.Lower(r) == e.Lower(r) && f.Upper(r) <= r.segs[lvi].stop;
    assert forall i :: lvi < i < |r.segs| ==> !DefinesIn(r, f, r.segs[i]);
    if e.firstDef.Some? {
      var i :| 0 <= i <= lvi && r.segs[i].start == e.firstDef.value;
      assert DefinesIn(r, f, r.segs[i]);
    }
  }

  lemma FinishedExact(r: Range, b: nat, lvi: nat, e: BlockInfo, es: seq<BlockInfo>, f: BlockInfo, upto: Slot)
    requires Sorted(r) && Scanning(r, b, lvi, e, es) && upto <= r.bound[b + 1]
    requires f == (if r.bound[b + 1] <= r.segs[lvi].stop then e
                   else e.(liveOut := false, lastInstr := r.segs[lvi].stop))
    requires lvi + 1 < |r.segs| ==> upto <= r.segs[lvi + 1].start
    ensures Exact(r, es + [f], b, upto)
  {
    hide FirstUse, LastUse, EntriesOK, DefSoFar;
    assert f.Lower(r) == e.Lower(r);
    var all := es + [f];
    forall x | InBlock(r, b, x) && x < upto ensures Live(r, x) <==> Covered(r, all, b, x) {
      if x < f.Lower(r) {
        CoveredPrefix(r, es, f, b, x);
      } else if x < f.Upper(r) {
        assert Has(r, all[|es|], b, x);
      } else {
        assert forall k :: 0 <= k < |es| ==> all[k] == es[k];
        assert forall i :: 0 <= i < |r.segs| ==> !r.segs[i].Has(x);
      }
    }
  }

  lemma CoveredPrefix(r: Range, es: seq<BlockInfo>, f: BlockInfo, b: nat, x: Slot)
    requires !Has(r, f, b, x)
    ensures Covered(r, es + [f], b, x) <==> Covered(r, es, b, x)
  {
    if Covered(r, es, b, x) {
      var k :| 0 <= k < |es| && Has(r, es[k], b, x);
      assert Has(r, (es + [f])[k], b, x);
    }
  }

  // After a gap, a new entry starts with the next segment.
  lemma ScanGap(r: Range, b: nat, lvi: nat, e: BlockInfo, es: seq<BlockInfo>, d: BlockInfo, f: BlockInfo)
    requires Sorted(r) && Scanning(r, b, lvi, e, es) && r.segs[lvi].stop < r.bound[b + 1]
    requires lvi + 1 < |r.segs| && r.segs[lvi].stop < r.segs[lvi + 1].start < r.bound[b + 1]
    requires d == e.(liveOut := false, lastInstr := r.segs[lvi].stop)
    requires f == e.(liveIn := false, firstInstr := r.segs[lvi + 1].start, firstDef := Some(r.segs[lvi + 1].start))
    requires EntriesOK(r, es + [d]) && Exact(r, es + [d], b, r.segs[lvi + 1].start)
    ensures Scanning(r, b, lvi + 1, f, es + [d])
  {
    assert d.Upper(r) < f.Lower(r);
    SegmentLive(r, lvi + 1);
    GapApart(r, es, e, d, f);
    hide FirstUse, LastUse, EntriesOK, Exact, Apart, Live, LiveBetween;
  }

  lemma SegmentLive(r: Range, i: nat)
    requires i < |r.segs|
    ensures LiveBetween(r, r.segs[i].start, r.segs[i].stop)
  {
    forall x | r.segs[i].start <= x < r.segs[i].stop ensures Live(r, x) {
      assert r.segs[i].Has(x);
    }
  }

  lemma GapApart(r: Range, es: seq<BlockInfo>, e: BlockInfo, d: BlockInfo, f: BlockInfo)
    requires forall k :: 0 <= k < |es| ==> es[k].block < Blocks(r)
    requires e.block == d.block == f.block < Blocks(r) && d.Upper(r) < f.Lower(r) && e.Lower(r) <= f.Lower(r)
    requires forall k :: 0 <= k < |es| ==> Apart(r, es[k], e)
    ensures forall k :: 0 <= k < |es + [d]| ==> (es + [d])[k].block < Blocks(r) && Apart(r, (es + [d])[k], f)
  {
    forall k | 0 <= k < |es + [d]| ensures (es + [d])[k].block < Blocks(r) && Apart(r, (es + [d])[k], f) {
      if k < |es| { assert Apart(r, es[k], e); }
    }
  }

  // A block with uses: one entry, and one more for each gap inside the block.
  method ScanBlock(r: Range, b: nat, from: nat, firstInstr: Slot, lastInstr: Slot, done: seq<BlockInfo>)
    returns (es: seq<BlockInfo>, lvi: nat, gaps: nat)
    requires WellFormed(r) && FirstOverlap(r, b, from)
    requires FirstUse(r, b, firstInstr) && LastUse(r, b, lastInstr)
    requires EntriesOK(r, done) && forall k :: 0 <= k < |done| ==> done[k].block < b
    ensures EntriesOK(r, es) && |es| == |done| + 1 + gaps && done <= es
    ensures forall k :: |done| <= k < |es| ==> es[k].block == b
    ensures Exact(r, es, b, r.bound[b + 1])
    ensures from <= lvi <= |r.segs| && forall j :: 0 <= j < lvi ==> r.segs[j].stop < r.bound[b + 1]
    ensures lvi < |r.segs| ==> r.bound[b + 1] <= r.segs[lvi].stop
  {
    hide FirstUse, LastUse, Scanning, EntriesOK, Exact, StartsAtDef, StopsAtUse, UsesLive;
    var start, stop := r.bound[b], r.bound[b + 1];
    lvi, gaps, es := from, 0, done;
    var liveIn := r.segs[lvi].start <= start;
    var bi := BlockInfo(b, firstInstr, lastInstr, if liveIn then None else Some(firstInstr), liveIn, true);
    ScanBegins(r, b, lvi, bi, es);
    ghost var at := lvi;
    while r.segs[lvi].stop < stop
      invariant from <= lvi < |r.segs| && at == lvi && Scanning(r, b, lvi, bi, es)
      invariant forall j :: 0 <= j < lvi ==> r.segs[j].stop < stop
      invariant |es| == |done| + gaps && done <= es && forall k :: |done| <= k < |es| ==> es[k].block == b
      invariant bi.block == b && bi.liveOut
      decreases |r.segs| - lvi
    {
      var lastStop := r.segs[lvi].stop;
      lvi := lvi + 1;
      if lvi == |r.segs| || r.segs[lvi].start >= stop {
        ghost var was := bi;
        bi := bi.(liveOut := false, lastInstr := lastStop);
        ScanEntry(r, b, at, was, es, bi, stop);
        es := es + [bi];
        return;
      }
      if lastStop < r.segs[lvi].start {
        gaps := gaps + 1;
        ghost var was := bi;
        ghost var before := es;
        bi := bi.(liveOut := false);
        es := es + [bi.(lastInstr := lastStop)];
        ScanEntry(r, b, at, was, before, es[|before|], r.segs[lvi].start);
        bi := bi.(liveIn := false, liveOut := true, firstInstr := r.segs[lvi].start,
            firstDef := Some(r.segs[lvi].start));
        ScanGap(r, b, at, was, before, es[|before|], bi);
      } else {
        ghost var was := bi;
        if bi.firstDef.None? { bi := bi.(firstDef := Some(r.segs[lvi].start)); }
        ScanJoins(r, b, at, was, es, bi);
      }
      at := lvi;
    }
    ScanEntry(r, b, at, bi, es, bi, stop);
    es := es + [bi];
  }

  // The first and last use of the block, and the first use after it.
  method ScanUses(r: Range, b: nat, from: nat) returns (firstInstr: Slot, lastInstr: Slot, ui: nat)
    requires Sorted(r) && from < |r.uses| && InBlock(r, b, r.uses[from])
    requires forall j :: 0 <= j < from ==> r.uses[j] < r.bound[b]
    ensures FirstUse(r, b, firstInstr) && LastUse(r, b, lastInstr)
    ensures from < ui <= |r.uses| && forall j :: 0 <= j < ui ==> r.uses[j] < r.bound[b + 1]
    ensures ui < |r.uses| ==> r.bound[b + 1] <= r.uses[ui]
  {
    firstInstr := r.uses[from];
    ui := from + 1;
    while ui < |r.uses| && r.uses[ui] < r.bound[b + 1]
      invariant from < ui <= |r.uses| && r.uses[ui - 1] < r.bound[b + 1]
    {
      ui := ui + 1;
    }
    lastInstr := r.uses[ui - 1];
  }

  // getMBBFromIndex
  method BlockOf(r: Range, x: Slot) returns (b: nat)
    requires Sorted(r) && |r.bound| > 1 && r.bound[0] <= x < r.bound[|r.bound| - 1]
    ensures InBlock(r, b, x)
  {
    b := 0;
    while r.bound[b + 1] <= x
      invariant b < Blocks(r) && r.bound[b] <= x
      decreases Blocks(r) - b
    {
      b := b + 1;
    }
  }

  lemma InRange(r: Range, i: nat)
    requires Sorted(r) && i < |r.segs|
    ensures |r.bound| > 1 && r.bound[0] <= r.segs[i].start < r.segs[i].stop <= r.bound[|r.bound| - 1]
    ensures i > 0 ==> r.segs[i - 1].stop <= r.segs[i].start
  {
  }

  // What is known of the blocks before m.
  ghost predicate DoneBefore(r: Range, m: nat, useBlocks: seq<BlockInfo>, through: set<nat>) {
    && EntriesOK(r, useBlocks) && (forall k :: 0 <= k < |useBlocks| ==> useBlocks[k].block < m)
    && (forall b: nat :: b in through <==> b < m && Meets(r, b) && !HasUse(r, b))
    && (forall b: nat :: b < m && HasUse(r, b) ==> Exact(r, useBlocks, b, r.bound[b + 1]))
    && (forall k :: 0 <= k < |useBlocks| ==> HasUse(r, useBlocks[k].block))
  }

  // Next, m is the first block met from segment lvi on, and ui is the first use in it or after it.
  ghost predicate AtBlock(r: Range, m: nat, lvi: nat, ui: nat) {
    && FirstOverlap(r, m, lvi)
    && ui <= |r.uses| && (forall j :: 0 <= j < ui ==> r.uses[j] < r.bound[m])
    && (ui < |r.uses| ==> r.bound[m] <= r.uses[ui])
  }

  // One entry more for each gap; all counts agree with counting the blocks met.
  ghost predicate CountsAgree(r: Range, m: nat, useBlocks: seq<BlockInfo>, numThrough: nat, numGap: nat) {
    |useBlocks| == numGap + CountUsed(r, m) && numThrough + CountUsed(r, m) == CountMet(r, m)
  }

  lemma NoSegmentsNoUses(r: Range)
    requires r.segs == [] && forall j: nat :: j < |r.uses| ==> UsesLive(r, j)
    ensures r.uses == []
  {
    assert |r.uses| > 0 ==> UsesLive(r, 0);
  }

  lemma {:induction false} NothingLive(r: Range, n: nat)
    requires WellFormed(r) && r.segs == [] && n <= Blocks(r)
    ensures DoneBefore(r, n, [], {}) && CountsAgree(r, n, [], 0, 0)
  {
    NoSegmentsNoUses(r);
    hide StartsAtDef, StopsAtUse, UsesLive, Sorted;
    if n > 0 { NothingLive(r, n - 1); }
  }

  lemma FirstBlock(r: Range, m: nat)
    requires WellFormed(r) && |r.segs| > 0 && InBlock(r, m, r.segs[0].start)
    ensures AtBlock(r, m, 0, 0) && DoneBefore(r, m, [], {}) && CountsAgree(r, m, [], 0, 0)
  {
    hide StartsAtDef, StopsAtUse, UsesLive;
    forall j: nat | j < |r.uses| ensures r.bound[m] <= r.uses[j] {
      UseAfterFirst(r, j, m);
    }
    forall b: nat | b < m ensures !Meets(r, b) && !HasUse(r, b) {
      assert r.bound[b + 1] <= r.bound[m];
    }
    MetSkip(r, 0, m);
    UsedSkip(r, 0, m);
  }

  lemma UseAfterFirst(r: Range, j: nat, m: nat)
    requires WellFormed(r) && j < |r.uses| && |r.segs| > 0 && InBlock(r, m, r.segs[0].start)
    ensures r.bound[m] <= r.uses[j]
  {
    assert UsesLive(r, j);
    hide StartsAtDef, StopsAtUse;
  }

  lemma EntriesBefore(r: Range, m: nat, es: seq<BlockInfo>, through: set<nat>)
    requires DoneBefore(r, m, es, through)
    ensures EntriesOK(r, es) && forall k :: 0 <= k < |es| ==> es[k].block < m
  {
    hide EntriesOK, HasUse, Exact, Meets;
  }

  // The guard for a block without uses is exact.
  lemma UsesAhead(r: Range, m: nat, lvi: nat, ui: nat)
    requires WellFormed(r) && AtBlock(r, m, lvi, ui)
    ensures m < Blocks(r) && lvi < |r.segs| && FirstOverlap(r, m, lvi) && ui <= |r.uses|
              && forall j :: 0 <= j < ui ==> r.uses[j] < r.bound[m]
    ensures (ui == |r.uses| || r.uses[ui] >= r.bound[m + 1]) <==> !HasUse(r, m)
    ensures ui < |r.uses| && r.uses[ui] < r.bound[m + 1] ==> InBlock(r, m, r.uses[ui])
    ensures !HasUse(r, m) ==> r.bound[m + 1] <= r.segs[lvi].stop
    ensures forall j :: 0 <= j < lvi ==> r.segs[j].stop <= r.bound[m + 1]
  {
    if !HasUse(r, m) { NoUseLiveThrough(r, m, lvi); }
    hide StartsAtDef, StopsAtUse, UsesLive;
  }

  lemma DoneThrough(r: Range, m: nat, lvi: nat, es: seq<BlockInfo>, through: set<nat>, numThrough: nat, numGap: nat)
    requires FirstOverlap(r, m, lvi) && !HasUse(r, m)
    requires DoneBefore(r, m, es, through) && CountsAgree(r, m, es, numThrough, numGap)
    ensures DoneBefore(r, m + 1, es, through + {m}) && CountsAgree(r, m + 1, es, numThrough + 1, numGap)
  {
    assert Meets(r, m);
    hide HasUse, Exact, EntriesOK, Meets;
  }

  lemma DoneUsed(r: Range, m: nat, es: seq<BlockInfo>, through: set<nat>, numThrough: nat, numGap: nat,
        more: seq<BlockInfo>, gaps: nat)
    requires WellFormed(r) && m < Blocks(r) && HasUse(r, m)
    requires DoneBefore(r, m, es, through) && CountsAgree(r, m, es, numThrough, numGap)
    requires EntriesOK(r, more) && |more| == |es| + 1 + gaps && es <= more
    requires forall k :: |es| <= k < |more| ==> more[k].block == m
    requires Exact(r, more, m, r.bound[m + 1])
    ensures DoneBefore(r, m + 1, more, through) && CountsAgree(r, m + 1, more, numThrough, numGap + gaps)
  {
    UseMeets(r, m);
    forall b: nat | b < m && HasUse(r, b) ensures Exact(r, more, b, r.bound[b + 1]) {
      ExactGrows(r, es, more, b);
    }
    hide HasUse, Exact, EntriesOK, Meets, WellFormed;
  }

  lemma ExactGrows(r: Range, es: seq<BlockInfo>, more: seq<BlockInfo>, b: nat)
    requires b < Blocks(r) && Exact(r, es, b, r.bound[b + 1]) && es <= more
    requires forall k :: |es| <= k < |more| ==> more[k].block != b
    ensures Exact(r, more, b, r.bound[b + 1])
  {
    hide Live;
    forall x ensures Covered(r, more, b, x) <==> Covered(r, es, b, x) {
      if Covered(r, es, b, x) {
        var k :| 0 <= k < |es| && Has(r, es[k], b, x);
        assert Has(r, more[k], b, x);
      }
    }
  }

  // No block strictly between is met.
  lemma RestUnmet(r: Range, m: nat, lvi: nat, next: nat, es: seq<BlockInfo>, through: set<nat>, numThrough: nat,
        numGap: nat)
    requires WellFormed(r) && m < next <= Blocks(r) && lvi <= |r.segs|
    requires forall j :: 0 <= j < lvi ==> r.segs[j].stop <= r.bound[m + 1]
    requires next == m + 1 || lvi == |r.segs| || r.bound[next] <= r.segs[lvi].start
    requires DoneBefore(r, m + 1, es, through) && CountsAgree(r, m + 1, es, numThrough, numGap)
    ensures DoneBefore(r, next, es, through) && CountsAgree(r, next, es, numThrough, numGap)
  {
    forall b: nat | m < b < next ensures !Meets(r, b) && !HasUse(r, b) {
      UnmetBetween(r, m, lvi, next, b);
    }
    MetSkip(r, m + 1, next);
    UsedSkip(r, m + 1, next);
    hide HasUse, Exact, EntriesOK, Meets, WellFormed;
  }

  lemma UnmetBetween(r: Range, m: nat, lvi: nat, next: nat, b: nat)
    requires WellFormed(r) && m < b < next <= Blocks(r) && lvi <= |r.segs|
    requires forall j :: 0 <= j < lvi ==> r.segs[j].stop <= r.bound[m + 1]
    requires lvi == |r.segs| || r.bound[next] <= r.segs[lvi].start
    ensures !Meets(r, b) && !HasUse(r, b)
  {
    if HasUse(r, b) { UseMeets(r, b); }
    hide HasUse, StartsAtDef, StopsAtUse, UsesLive;
    assert lvi < |r.segs| ==> forall i :: lvi <= i < |r.segs| ==> r.segs[lvi].start <= r.segs[i].start;
    assert r.bound[m + 1] <= r.bound[b] && r.bound[b + 1] <= r.bound[next];
  }

  lemma ArriveAt(r: Range, m: nat, lvi: nat, ui: nat, next: nat)
    requires WellFormed(r) && m < next < Blocks(r) && lvi < |r.segs|
    requires forall j :: 0 <= j < lvi ==> r.segs[j].stop <= r.bound[m + 1]
    requires r.segs[lvi].stop > r.bound[m + 1]
    requires ui <= |r.uses| && forall j :: 0 <= j < ui ==> r.uses[j] < r.bound[m + 1]
    requires ui < |r.uses| ==> r.bound[m + 1] <= r.uses[ui]
    requires if r.segs[lvi].start >= r.bound[m + 1] then InBlock(r, next, r.segs[lvi].start) else next == m + 1
    ensures AtBlock(r, next, lvi, ui)
  {
    if ui < |r.uses| && r.uses[ui] < r.bound[next] {
      var b := BlockBefore(r, m + 1, next, r.uses[ui]);
      UnmetBetween(r, m, lvi, next, b);
    }
    hide StartsAtDef, StopsAtUse, UsesLive;
  }

  lemma {:induction false} BlockBefore(r: Range, m: nat, next: nat, x: Slot) returns (b: nat)
    requires Sorted(r) && m < next <= Blocks(r) && r.bound[m] <= x < r.bound[next]
    ensures m <= b < next && InBlock(r, b, x)
    decreases next - m
  {
    if x < r.bound[m + 1] { b := m; } else { b := BlockBefore(r, m + 1, next, x); }
  }

  lemma BlockInRange(r: Range, b: nat, x: Slot)
    requires InBlock(r, b, x)
    ensures b < Blocks(r) && r.bound[b] <= x
  {}

  lemma LaterBlock(r: Range, m: nat, next: nat, x: Slot)
    requires Sorted(r) && m < Blocks(r) && r.bound[m + 1] <= x && InBlock(r, next, x)
    ensures m < next < Blocks(r) && r.bound[next] <= x
  {}

  lemma NextBlock(r: Range, m: nat, i: nat)
    requires Sorted(r) && m < Blocks(r) && i < |r.segs| && r.bound[m + 1] < r.segs[i].stop
    ensures m + 1 < Blocks(r)
  {}

  method CalcLiveBlockInfo(r: Range)
        returns (useBlocks: seq<BlockInfo>, through: set<nat>, numThrough: nat, numGap: nat)
    requires WellFormed(r)
    ensures DoneBefore(r, Blocks(r), useBlocks, through)
    ensures CountsAgree(r, Blocks(r), useBlocks, numThrough, numGap)
  {
    hide DoneBefore, AtBlock, CountsAgree, FirstUse, LastUse, Exact, StartsAtDef, StopsAtUse, UsesLive;
    assert Sorted(r);
    hide HasUse, EntriesOK, FirstOverlap, Meets, WellFormed, Sorted, InBlock;
    useBlocks, through, numThrough, numGap := [], {}, 0, 0;
    if r.segs == [] {
      NothingLive(r, Blocks(r));
      return;
    }
    var lvi: nat, ui: nat := 0, 0;
    InRange(r, lvi);
    var mfi := BlockOf(r, r.segs[lvi].start);
    FirstBlock(r, mfi);
    BlockInRange(r, mfi, r.segs[lvi].start);
    while true
      invariant mfi < Blocks(r) && lvi < |r.segs|
      invariant AtBlock(r, mfi, lvi, ui) && DoneBefore(r, mfi, useBlocks, through)
      invariant CountsAgree(r, mfi, useBlocks, numThrough, numGap)
      decreases Blocks(r) - mfi
    {
      var stop := r.bound[mfi + 1];
      UsesAhead(r, mfi, lvi, ui);
      if ui == |r.uses| || r.uses[ui] >= stop {
        DoneThrough(r, mfi, lvi, useBlocks, through, numThrough, numGap);
        numThrough := numThrough + 1;
        through := through + {mfi};
      } else {
        EntriesBefore(r, mfi, useBlocks, through);
        var firstInstr, lastInstr, next := ScanUses(r, mfi, ui);
        ui := next;
        var es, at, gaps := ScanBlock(r, mfi, lvi, firstInstr, lastInstr, useBlocks);
        DoneUsed(r, mfi, useBlocks, through, numThrough, numGap, es, gaps);
        useBlocks, lvi, numGap := es, at, numGap + gaps;
        if lvi == |r.segs| {
          RestUnmet(r, mfi, lvi, Blocks(r), useBlocks, through, numThrough, numGap);
          break;
        }
      }
      // A live segment that ends exactly at the block's end: move to the next one.
      if r.segs[lvi].stop == stop {
        lvi := lvi + 1;
        if lvi == |r.segs| {
          RestUnmet(r, mfi, lvi, Blocks(r), useBlocks, through, numThrough, numGap);
          break;
        }
      }
      InRange(r, lvi);
      var next := mfi + 1;
      if r.segs[lvi].start >= stop {
        next := BlockOf(r, r.segs[lvi].start);
        LaterBlock(r, mfi, next, r.segs[lvi].start);
      } else {
        NextBlock(r, mfi, lvi);
      }
      RestUnmet(r, mfi, lvi, next, useBlocks, through, numThrough, numGap);
      ArriveAt(r, mfi, lvi, ui, next);
      mfi := next;
    }
  }

  // Every block met is a through block or has entries, never both, and no other
  // block is or has; a through block is live at every slot.
  lemma ClassifiedOnce(r: Range, useBlocks: seq<BlockInfo>, through: set<nat>, b: nat)
    requires WellFormed(r) && DoneBefore(r, Blocks(r), useBlocks, through) && b < Blocks(r)
    ensures Meets(r, b) <==> b in through || HasEntry(useBlocks, b)
    ensures !(b in through && HasEntry(useBlocks, b))
    ensures b in through ==> forall x :: InBlock(r, b, x) ==> Live(r, x)
    ensures b !in through ==> forall x :: InBlock(r, b, x) ==> (Live(r, x) <==> Covered(r, useBlocks, b, x))
  {
    if HasEntry(useBlocks, b) { UseMeets(r, b); }
    if Meets(r, b) {
      var i := FirstMeeting(r, b);
      if HasUse(r, b) {
        var x := if r.segs[i].start <= r.bound[b] then r.bound[b] else r.segs[i].start;
        assert r.segs[i].Has(x) && InBlock(r, b, x);
        assert Covered(r, useBlocks, b, x);
      } else {
        NoUseLiveThrough(r, b, i);
      }
    } else {
      NotMetNotLive(r, b);
    }
  }

  ghost predicate HasEntry(es: seq<BlockInfo>, b: nat) {
    exists k :: 0 <= k < |es| && es[k].block == b
  }

  lemma NotMetNotLive(r: Range, b: nat)
    requires Sorted(r) && !Meets(r, b)
    ensures forall x :: InBlock(r, b, x) ==> !Live(r, x)
  {
    forall x | InBlock(r, b, x) ensures !Live(r, x) {
      forall i: nat | i < |r.segs| ensures !r.segs[i].Has(x) {
        assert !Overlaps(r, b, i);
      }
    }
  }

  lemma FirstMeeting(r: Range, b: nat) returns (i: nat)
    requires Sorted(r) && Meets(r, b)
    ensures FirstOverlap(r, b, i)
  {
    i :| i < |r.segs| && Overlaps(r, b, i);
    while i > 0 && Overlaps(r, b, i - 1)
      invariant Overlaps(r, b, i)
    {
      i := i - 1;
    }
  }

  // Counting the blocks met on their own, without any uses.
  method CountLiveBlocks(r: Range) returns (count: nat)
    requires Sorted(r)
    ensures count == CountMet(r, Blocks(r))
  {
    hide Meets, Sorted;
    count := 0;
    if r.segs == [] {
      MetSkipFrom(r, 0, 0, Blocks(r));
      return;
    }
    var lvi: nat := 0;
    InRange(r, lvi);
    var mfi := BlockOf(r, r.segs[lvi].start);
    MetSkipFrom(r, 0, 0, mfi);
    while true
      invariant FirstOverlap(r, mfi, lvi) && count == CountMet(r, mfi)
      decreases Blocks(r) - mfi
    {
      MetByFirst(r, mfi, lvi);
      count := count + 1;
      var stop := r.bound[mfi + 1];
      BoundsRise(r, mfi, mfi + 1);
      while lvi < |r.segs| && r.segs[lvi].stop <= stop
        invariant lvi <= |r.segs| && forall j :: 0 <= j < lvi ==> r.segs[j].stop <= stop
      {
        lvi := lvi + 1;
      }
      if lvi == |r.segs| {
        MetSkipFrom(r, mfi + 1, lvi, Blocks(r));
        return;
      }
      InRange(r, lvi);
      ghost var from := mfi + 1;
      mfi := mfi + 1;
      while r.bound[mfi + 1] <= r.segs[lvi].start
        invariant from <= mfi < Blocks(r)
        invariant from < mfi ==> r.bound[mfi] <= r.segs[lvi].start
        decreases Blocks(r) - mfi
      {
        mfi := mfi + 1;
      }
      MetSkipFrom(r, from, lvi, mfi);
      BoundsRise(r, from, mfi);
    }
  }

  lemma BoundsRise(r: Range, b: nat, c: nat)
    requires Sorted(r) && b <= c < |r.bound|
    ensures r.bound[b] <= r.bound[c]
  {
  }

  lemma MetByFirst(r: Range, b: nat, i: nat)
    requires FirstOverlap(r, b, i)
    ensures Meets(r, b)
  {
  }

  // Segments before lvi stop at block m, the others start at block n at the earliest.
  lemma MetSkipFrom(r: Range, m: nat, lvi: nat, n: nat)
    requires Sorted(r) && lvi <= |r.segs| && m <= n <= Blocks(r)
    requires forall j :: 0 <= j < lvi ==> r.segs[j].stop <= r.bound[m]
    requires m == n || lvi == |r.segs| || r.bound[n] <= r.segs[lvi].start
    ensures CountMet(r, n) == CountMet(r, m)
  {
    assert lvi < |r.segs| ==> forall i :: lvi <= i < |r.segs| ==> r.segs[lvi].start <= r.segs[i].start;
    forall b: nat | m <= b < n ensures !Meets(r, b) {
      assert r.bound[m] <= r.bound[b] && r.bound[b + 1] <= r.bound[n];
    }
    MetSkip(r, m, n);
  }
}
