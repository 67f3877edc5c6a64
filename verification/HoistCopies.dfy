// Back-copies of the complement interval: which are hoisted to a common
// dominator, which are removed, and what dominates every removed one.
module HoistCopies {
  import opened Collections
  import opened Dominators

  type Slot = int

  // A definition in the complement interval: its slot and the parent value it copies.
  datatype Def = Def(slot: Slot, parent: nat)

  datatype SpillMode = SMPartition | SMSize | SMSpeed

  // The innermost loop of a block: its header and depth.
  datatype Loop = Loop(header: Block, depth: nat)

  // Facts about the parent interval and the function.
  datatype Context = Context(
    tree: Tree,
    blockOf: Slot -> Block,
    numValues: nat,
    parentDef: nat -> Slot,
    remat: nat -> bool,
    single: nat -> bool,
    freq: Block -> nat,
    loopOf: Block -> Option<Loop>,
    lastSplitPoint: Block -> Slot)

  // d comes before e on every path: earlier in the same block, or in a block
  // that strictly dominates e's block.
  ghost predicate Before(c: Context, d: Slot, e: Slot)
    requires TreeOK(c.tree) && c.blockOf(e) < c.tree.size
  {
    if c.blockOf(d) == c.blockOf(e) then d < e else Dominates(c.tree, c.blockOf(d), c.blockOf(e))
  }

  ghost predicate ContextOK(c: Context) {
    && TreeOK(c.tree)
    && (forall s: Slot :: c.blockOf(s) < c.tree.size)
    && (forall b: Block :: b < c.tree.size ==> c.blockOf(c.lastSplitPoint(b)) == b)
    // Natural loops: the header dominates every block of the loop.
    && (forall b: Block :: b < c.tree.size && c.loopOf(b).Some? ==>
          c.loopOf(b).value.header < c.tree.size && Dominates(c.tree, c.loopOf(b).value.header, b))
  }

  // Complement definitions copy parent values that reach them, and differ in slot.
  ghost predicate DefsOK(c: Context, defs: seq<Def>)
    requires ContextOK(c)
  {
    && (forall i :: 0 <= i < |defs| ==>
          defs[i].parent < c.numValues
          && (defs[i].slot == c.parentDef(defs[i].parent) || Before(c, c.parentDef(defs[i].parent), defs[i].slot)))
    && (forall i, j :: 0 <= i < j < |defs| ==> defs[i].slot != defs[j].slot)
  }

  // ---- findShallowDominator ----

  // Nothing is gained by leaving b's loop, or it cannot be left below the definition.
  ghost predicate LastStop(c: Context, def: Block, b: Block)
    requires ContextOK(c) && b < c.tree.size && def < c.tree.size
  {
    var loop := c.loopOf(b);
    loop.None? || loop == c.loopOf(def) || c.tree.level(loop.value.header) == 0
      || !Dominates(c.tree, def, c.tree.idom(loop.value.header))
  }

  // The blocks looked at, each one just outside the loop of the one before.
  ghost predicate Stops(c: Context, def: Block, mbb: Block, stops: seq<Block>)
    requires ContextOK(c) && def < c.tree.size
  {
    && |stops| > 0 && stops[0] == mbb && (forall k :: 0 <= k < |stops| ==> stops[k] < c.tree.size)
    && (forall k :: 0 <= k < |stops| - 1 ==>
          !LastStop(c, def, stops[k]) && stops[k + 1] == c.tree.idom(c.loopOf(stops[k]).value.header))
  }

  // r is the first of the blocks looked at whose loop is no deeper than the others.
  ghost predicate Shallowest(c: Context, stops: seq<Block>, r: Block) {
    exists i :: 0 <= i < |stops| && stops[i] == r && ShallowestAt(c, stops, i)
  }

  ghost predicate ShallowestAt(c: Context, stops: seq<Block>, i: nat)
    requires i < |stops|
  {
    && c.loopOf(stops[i]).Some?
    && (forall k :: 0 <= k < i && c.loopOf(stops[k]).Some? ==>
          c.loopOf(stops[i]).value.depth < c.loopOf(stops[k]).value.depth)
    && (forall k :: i <= k < |stops| && c.loopOf(stops[k]).Some? ==>
          c.loopOf(stops[i]).value.depth <= c.loopOf(stops[k]).value.depth)
  }

  ghost predicate LeastBusy(c: Context, def: Block, mbb: Block, stops: seq<Block>, r: Block)
    requires ContextOK(c) && def < c.tree.size
  {
    && Stops(c, def, mbb, stops) && LastStop(c, def, stops[|stops| - 1])
    && var last := stops[|stops| - 1];
       if c.loopOf(last).None? || c.loopOf(last) == c.loopOf(def) then r == last else Shallowest(c, stops, r)
  }

  // The block findShallowDominator settles on.
  ghost predicate ShallowFor(c: Context, def: Block, mbb: Block, r: Block)
    requires ContextOK(c) && def < c.tree.size
  {
    if mbb == def then r == mbb else exists stops :: LeastBusy(c, def, mbb, stops, r)
  }

  lemma {:induction false} StopsAgree(c: Context, def: Block, mbb: Block, a: seq<Block>, b: seq<Block>, k: nat)
    requires ContextOK(c) && def < c.tree.size && Stops(c, def, mbb, a) && Stops(c, def, mbb, b)
    requires k < |a| && k < |b|
    ensures a[k] == b[k]
  {
    hide LastStop, ContextOK;
    if k > 0 { StopsAgree(c, def, mbb, a, b, k - 1); }
  }

  lemma StopsUnique(c: Context, def: Block, mbb: Block, a: seq<Block>, b: seq<Block>)
    requires ContextOK(c) && def < c.tree.size && Stops(c, def, mbb, a) && Stops(c, def, mbb, b)
    requires LastStop(c, def, a[|a| - 1]) && LastStop(c, def, b[|b| - 1])
    ensures a == b
  {
    hide LastStop, ContextOK;
    var n := if |a| < |b| then |a| else |b|;
    StopsAgree(c, def, mbb, a, b, n - 1);
    forall k | 0 <= k < n ensures a[k] == b[k] {
      StopsAgree(c, def, mbb, a, b, k);
    }
  }

  // There is only one such block.
  lemma ShallowUnique(c: Context, def: Block, mbb: Block, x: Block, y: Block)
    requires ContextOK(c) && def < c.tree.size && ShallowFor(c, def, mbb, x) && ShallowFor(c, def, mbb, y)
    ensures x == y
  {
    hide LastStop, ContextOK;
    if mbb != def {
      var a :| LeastBusy(c, def, mbb, a, x);
      var b :| LeastBusy(c, def, mbb, b, y);
      StopsUnique(c, def, mbb, a, b);
      hide Stops;
    }
  }

  lemma FoundLast(c: Context, def: Block, mbb: Block, stops: seq<Block>)
    requires ContextOK(c) && def < c.tree.size && Stops(c, def, mbb, stops)
    requires var last := stops[|stops| - 1]; c.loopOf(last).None? || c.loopOf(last) == c.loopOf(def)
    ensures LeastBusy(c, def, mbb, stops, stops[|stops| - 1])
  {
    hide Dominates;
  }

  lemma FoundBest(c: Context, def: Block, mbb: Block, stops: seq<Block>, best: Block)
    requires ContextOK(c) && def < c.tree.size && Stops(c, def, mbb, stops) && Shallowest(c, stops, best)
    requires var last := stops[|stops| - 1];
             c.loopOf(last).Some? && c.loopOf(last) != c.loopOf(def) && LastStop(c, def, last)
    ensures LeastBusy(c, def, mbb, stops, best)
  {
    hide Dominates;
  }

  lemma HeaderAbove(c: Context, def: Block, b: Block)
    requires ContextOK(c) && b < c.tree.size && def < c.tree.size && c.loopOf(b).Some?
    ensures var header := c.loopOf(b).value.header;
            && header < c.tree.size && Dominates(c.tree, header, b) && c.tree.level(header) <= c.tree.level(b)
            && (c.tree.level(header) > 0 ==>
                  c.tree.idom(header) < c.tree.size && c.tree.level(c.tree.idom(header)) < c.tree.level(header))
            && (c.loopOf(b) != c.loopOf(def) ==>
                  (LastStop(c, def, b) <==> c.tree.level(header) == 0 || !Dominates(c.tree, def, c.tree.idom(header))))
  {
    DominatorIsAbove(c.tree, c.loopOf(b).value.header, b);
  }

  // A dominator of mbb below the definition: the first one outside all loops or
  // in the definition's loop, or else the one in the shallowest loop.
  method FindShallowDominator(c: Context, mbb: Block, defMBB: Block) returns (r: Block, ghost stops: seq<Block>)
    requires ContextOK(c) && mbb < c.tree.size && defMBB < c.tree.size && Dominates(c.tree, defMBB, mbb)
    ensures r < c.tree.size && Dominates(c.tree, r, mbb) && Dominates(c.tree, defMBB, r)
    ensures ShallowFor(c, defMBB, mbb, r) && (mbb != defMBB ==> LeastBusy(c, defMBB, mbb, stops, r))
  {
    stops := [mbb];
    assert Stops(c, defMBB, mbb, stops) && TreeOK(c.tree);
    hide Stops, Shallowest, LastStop, LeastBusy, BestSoFar, Dominates, ContextOK, TreeOK;
    if mbb == defMBB { return mbb, stops; }
    var defLoop := c.loopOf(defMBB);
    var cur: Block := mbb;
    var best: Block := mbb;
    var bestDepth: Option<nat> := None;
    while true
      invariant cur < c.tree.size && best < c.tree.size
      invariant Dominates(c.tree, cur, mbb) && Dominates(c.tree, defMBB, cur)
      invariant Dominates(c.tree, best, mbb) && Dominates(c.tree, defMBB, best)
      invariant |stops| > 0 && Stops(c, defMBB, mbb, stops) && stops[|stops| - 1] == cur
      invariant BestSoFar(c, stops, best, bestDepth)
      decreases c.tree.level(cur)
    {
      var loop := c.loopOf(cur);
      if loop.None? || loop == defLoop {
        FoundLast(c, defMBB, mbb, stops);
        return cur, stops;
      }
      var depth := loop.value.depth;
      ghost var before, beforeDepth := best, bestDepth;
      if bestDepth.None? || depth < bestDepth.value {
        best, bestDepth := cur, Some(depth);
      }
      LookAt(c, stops, before, beforeDepth, best, c.tree.idom(loop.value.header));
      var header := loop.value.header;
      HeaderAbove(c, defMBB, cur);
      if c.tree.level(header) == 0 || !Dominates(c.tree, defMBB, c.tree.idom(header)) {
        FoundBest(c, defMBB, mbb, stops, best);
        return best, stops;
      }
      DominatesTransitive(c.tree, header, cur, mbb);
      ClimbUp(c.tree, header, mbb);
      StopsMore(c, defMBB, mbb, stops);
      cur := c.tree.idom(header);
      stops := stops + [cur];
    }
  }

  lemma StopsMore(c: Context, def: Block, mbb: Block, stops: seq<Block>)
    requires ContextOK(c) && def < c.tree.size && Stops(c, def, mbb, stops) && !LastStop(c, def, stops[|stops| - 1])
    ensures var next := c.tree.idom(c.loopOf(stops[|stops| - 1]).value.header);
            next < c.tree.size && Stops(c, def, mbb, stops + [next])
  {
    hide LastStop, Dominates;
    LeavesLoop(c, def, stops[|stops| - 1]);
  }

  lemma LeavesLoop(c: Context, def: Block, b: Block)
    requires ContextOK(c) && b < c.tree.size && def < c.tree.size && !LastStop(c, def, b)
    ensures c.loopOf(b).Some? && c.tree.level(c.loopOf(b).value.header) > 0
  {
  }

  // Best of the blocks before the present one.
  ghost predicate BestSoFar(c: Context, stops: seq<Block>, best: Block, bestDepth: Option<nat>) {
    if bestDepth.None? then |stops| == 1
    else |stops| > 1 && Shallowest(c, stops[..|stops| - 1], best) && c.loopOf(best).Some?
         && c.loopOf(best).value.depth == bestDepth.value
  }

  lemma LookAt(c: Context, stops: seq<Block>, best: Block, bestDepth: Option<nat>, now: Block, next: Block)
    requires |stops| > 0 && c.loopOf(stops[|stops| - 1]).Some? && BestSoFar(c, stops, best, bestDepth)
    requires var cur := stops[|stops| - 1];
             now == if bestDepth.None? || c.loopOf(cur).value.depth < bestDepth.value then cur else best
    ensures c.loopOf(now).Some? && Shallowest(c, stops, now)
              && BestSoFar(c, stops + [next], now, Some(c.loopOf(now).value.depth))
  {
    var n := |stops| - 1;
    assert forall k :: 0 <= k < n ==> stops[k] == stops[..n][k];
    assert (stops + [next])[..|stops|] == stops;
    if now == best && bestDepth.Some? && !(c.loopOf(stops[n]).value.depth < bestDepth.value) {
      var i :| 0 <= i < n && stops[..n][i] == best && ShallowestAt(c, stops[..n], i);
      assert ShallowestAt(c, stops, i);
    } else {
      assert ShallowestAt(c, stops, n);
    }
  }

  // ---- hoistCopies: nearest common dominators ----

  // Where to define a parent value: a block, and the slot of a definition there
  // that is early enough, or None when a new one is needed.
  datatype DomPair = DomPair(block: Option<Block>, slot: Option<Slot>)

  // Does the first loop look beyond direct definitions at this one?
  predicate Skipped(c: Context, d: Def) {
    c.remat(d.parent) || (d.slot != c.parentDef(d.parent) && c.single(d.parent))
  }

  // dom's block dominates the slot, and if it is the slot's own block, the
  // definition recorded there comes no later.
  ghost predicate Covers(c: Context, dom: DomPair, slot: Slot)
    requires ContextOK(c) && dom.block.Some?
  {
    && Dominates(c.tree, dom.block.value, c.blockOf(slot))
    && (dom.block.value == c.blockOf(slot) ==> dom.slot.Some? && dom.slot.value <= slot)
  }

  // What is known about the pair of parent value p after the definitions seen.
  ghost predicate PairOK(c: Context, seen: seq<Def>, p: nat, dom: DomPair)
    requires ContextOK(c)
  {
    && (dom.block.None? ==>
          dom.slot.None? && (forall i :: 0 <= i < |seen| && seen[i].parent == p ==> Skipped(c, seen[i])))
    && (dom.block.Some? ==>
          && dom.block.value < c.tree.size && !c.remat(p)
          && (exists i :: 0 <= i < |seen| && seen[i].parent == p)
          && (forall i :: 0 <= i < |seen| && seen[i].parent == p && !Skipped(c, seen[i]) ==>
                Covers(c, dom, seen[i].slot))
          && (c.single(p) ==> dom == DomPair(Some(c.blockOf(c.parentDef(p))), Some(c.parentDef(p))))
          && (dom.slot.Some? ==>
                && c.blockOf(dom.slot.value) == dom.block.value
                && exists i :: 0 <= i < |seen| && seen[i] == Def(dom.slot.value, p))
          && Dominates(c.tree, c.blockOf(c.parentDef(p)), dom.block.value))
  }

  // ---- what the first loop counts ----

  predicate IsCopy(c: Context, d: Def, p: nat) { d.parent == p && d.slot != c.parentDef(p) }

  // A copy is counted when it is in another block than the pair of its value so far.
  predicate Counts(c: Context, b: Option<Block>, d: Def) {
    !Skipped(c, d) && d.slot != c.parentDef(d.parent) && b.Some? && b.value != c.blockOf(d.slot)
  }

  ghost predicate InTree(c: Context, b: Option<Block>) { b.Some? ==> b.value < c.tree.size }

  // The block of the pair after one definition more.
  ghost function NextBlock(c: Context, b: Option<Block>, d: Def): (r: Option<Block>)
    requires ContextOK(c) && InTree(c, b)
    ensures InTree(c, r)
  {
    if c.remat(d.parent) then b
    else if d.slot == c.parentDef(d.parent) then Some(c.blockOf(d.slot))
    else if c.single(d.parent) then b
    else if b.None? then Some(c.blockOf(d.slot))
    else Some(Near(c.tree, b.value, c.blockOf(d.slot)))
  }

  ghost function BlockSoFar(c: Context, defs: seq<Def>, p: nat): (r: Option<Block>)
    requires ContextOK(c)
    ensures InTree(c, r)
  {
    if defs == [] then None
    else
      var d, b := defs[|defs| - 1], BlockSoFar(c, defs[..|defs| - 1], p);
      if d.parent == p then NextBlock(c, b, d) else b
  }

  // The frequencies of the copies of p that are counted.
  ghost function Cost(c: Context, defs: seq<Def>, p: nat): nat
    requires ContextOK(c)
  {
    if defs == [] then 0
    else
      var d, init := defs[|defs| - 1], defs[..|defs| - 1];
      Cost(c, init, p)
      + if d.parent == p && Counts(c, BlockSoFar(c, init, p), d) then c.freq(c.blockOf(d.slot)) else 0
  }

  // What all the copies of p cost.
  function CopyFreq(c: Context, defs: seq<Def>, p: nat): nat {
    if defs == [] then 0
    else
      var d := defs[|defs| - 1];
      CopyFreq(c, defs[..|defs| - 1], p) + if IsCopy(c, d, p) then c.freq(c.blockOf(d.slot)) else 0
  }

  // Definition i is a copy of p that the first loop counts, or that costs nothing.
  ghost predicate Accounted(c: Context, defs: seq<Def>, p: nat, i: nat)
    requires ContextOK(c) && i < |defs|
  {
    IsCopy(c, defs[i], p) ==> Counts(c, BlockSoFar(c, defs[..i], p), defs[i]) || c.freq(c.blockOf(defs[i].slot)) == 0
  }

  // The cost weighed against hoisting never exceeds that of all copies, and is
  // all of it exactly when no copy of a positive frequency goes uncounted.
  lemma {:induction false} CostExactly(c: Context, defs: seq<Def>, p: nat)
    requires ContextOK(c)
    ensures Cost(c, defs, p) <= CopyFreq(c, defs, p)
    ensures Cost(c, defs, p) == CopyFreq(c, defs, p) <==> forall i: nat :: i < |defs| ==> Accounted(c, defs, p, i)
  {
    hide ContextOK, BlockSoFar;
    if defs != [] {
      var n := |defs| - 1;
      var init := defs[..n];
      CostExactly(c, init, p);
      forall i: nat | i < n ensures Accounted(c, defs, p, i) <==> Accounted(c, init, p, i) {
        assert defs[..i] == init[..i];
      }
      assert Cost(c, defs, p) == CopyFreq(c, defs, p)
        <==> Cost(c, init, p) == CopyFreq(c, init, p) && Accounted(c, defs, p, n);
    }
  }

  // The first definition of p is the parent's own.
  ghost predicate DirectFirst(c: Context, defs: seq<Def>, p: nat) {
    forall i: nat :: i < |defs| && IsCopy(c, defs[i], p) ==> exists j :: 0 <= j < i && defs[j] == Def(c.parentDef(p), p)
  }

  // From the parent's own definition on, its block is the pair's.
  lemma {:induction false} DirectStays(c: Context, defs: seq<Def>, p: nat)
    requires ContextOK(c) && DefsOK(c, defs) && !c.remat(p)
    ensures (exists j :: 0 <= j < |defs| && defs[j] == Def(c.parentDef(p), p)) ==>
              BlockSoFar(c, defs, p) == Some(c.blockOf(c.parentDef(p)))
    ensures (forall j :: 0 <= j < |defs| ==> defs[j].parent != p) ==> BlockSoFar(c, defs, p) == None
  {
    hide TreeOK, Dominates, Near;
    if defs != [] {
      var n := |defs| - 1;
      DefsPrefix(c, defs, n);
      DirectStays(c, defs[..n], p);
      if j :| 0 <= j < n && defs[j] == Def(c.parentDef(p), p) {
        assert defs[..n][j] == defs[j];
        if defs[n].parent == p {
          CopyAfterParent(c, defs, n);
          NearOfDominator(c, c.parentDef(p), defs[n].slot);
        }
      }
    }
  }

  lemma NearOfDominator(c: Context, x: Slot, y: Slot)
    requires ContextOK(c) && (x == y || Before(c, x, y))
    ensures Near(c.tree, c.blockOf(x), c.blockOf(y)) == c.blockOf(x)
  {
    var a, b := c.blockOf(x), c.blockOf(y);
    BelowItself(c.tree, a, b);
    NearUnique(c.tree, a, b, a);
  }

  lemma DirectCounts(c: Context, defs: seq<Def>, p: nat, i: nat)
    requires ContextOK(c) && DefsOK(c, defs) && !c.remat(p) && !c.single(p) && i < |defs| && IsCopy(c, defs[i], p)
    ensures (exists j :: 0 <= j < i && defs[j] == Def(c.parentDef(p), p)) ==>
              (Counts(c, BlockSoFar(c, defs[..i], p), defs[i]) <==>
                  c.blockOf(defs[i].slot) != c.blockOf(c.parentDef(p)))
    ensures (forall j :: 0 <= j < i ==> defs[j].parent != p) ==> !Counts(c, BlockSoFar(c, defs[..i], p), defs[i])
  {
    DefsPrefix(c, defs, i);
    DirectStays(c, defs[..i], p);
    hide BlockSoFar, ContextOK, DefsOK;
    if j :| 0 <= j < i && defs[j] == Def(c.parentDef(p), p) { assert defs[..i][j] == defs[j]; }
  }

  // The value is neither rematerialized nor singly mapped, its own definition
  // comes before its copies in the list, and none of these is in that block.
  ghost predicate CopiesElsewhere(c: Context, defs: seq<Def>, p: nat) {
    && !c.remat(p) && !c.single(p) && DirectFirst(c, defs, p)
    && (forall i: nat :: i < |defs| && IsCopy(c, defs[i], p) ==>
          c.blockOf(defs[i].slot) != c.blockOf(c.parentDef(p)))
  }

  lemma ElsewhereCounts(c: Context, defs: seq<Def>, p: nat, i: nat)
    requires ContextOK(c) && DefsOK(c, defs) && CopiesElsewhere(c, defs, p) && i < |defs|
    ensures Accounted(c, defs, p, i)
  {
    hide ContextOK, DefsOK, BlockSoFar, Counts;
    if IsCopy(c, defs[i], p) { DirectCounts(c, defs, p, i); }
  }

  lemma SomeUncounted(c: Context, defs: seq<Def>, p: nat, i: nat) returns (k: nat)
    requires ContextOK(c) && DefsOK(c, defs) && !CopiesElsewhere(c, defs, p) && i < |defs| && IsCopy(c, defs[i], p)
    requires forall j: nat :: j < |defs| && IsCopy(c, defs[j], p) ==> c.freq(c.blockOf(defs[j].slot)) > 0
    ensures k < |defs| && !Accounted(c, defs, p, k)
  {
    hide ContextOK, DefsOK, BlockSoFar;
    if c.remat(p) || c.single(p) {
      k := i;
    } else if j: nat :| j < |defs| && IsCopy(c, defs[j], p)
                      && !exists m :: 0 <= m < j && defs[m] == Def(c.parentDef(p), p) {
      k := FirstOfValue(defs, p, j);
      assert defs[k].slot != c.parentDef(p);
      DirectCounts(c, defs, p, k);
    } else {
      k :| k < |defs| && IsCopy(c, defs[k], p) && c.blockOf(defs[k].slot) == c.blockOf(c.parentDef(p));
      DirectCounts(c, defs, p, k);
    }
  }

  // Where every copy has a positive frequency, all of them are counted exactly
  // when there is none, or when they all come after the value's own definition
  // and in other blocks.
  lemma CostIsAllExactly(c: Context, defs: seq<Def>, p: nat)
    requires ContextOK(c) && DefsOK(c, defs)
    requires forall i: nat :: i < |defs| && IsCopy(c, defs[i], p) ==> c.freq(c.blockOf(defs[i].slot)) > 0
    ensures Cost(c, defs, p) == CopyFreq(c, defs, p)
       <==> (forall i: nat :: i < |defs| ==> !IsCopy(c, defs[i], p)) || CopiesElsewhere(c, defs, p)
  {
    CostExactly(c, defs, p);
    hide ContextOK, DefsOK, Cost, CopyFreq, CopiesElsewhere;
    if CopiesElsewhere(c, defs, p) {
      forall i: nat | i < |defs| ensures Accounted(c, defs, p, i) { ElsewhereCounts(c, defs, p, i); }
    } else if i: nat :| i < |defs| && IsCopy(c, defs[i], p) {
      var k := SomeUncounted(c, defs, p, i);
    } else {
      assert forall i: nat :: i < |defs| ==> Accounted(c, defs, p, i);
    }
  }

  // Two branches below the entry block, each with a copy of the value defined
  // there. The entry block is as busy as both together.
  function Branches(): Context {
    Context(Tree(3, b => 0, b => if b == 0 then 0 else 1),
            s => if s < 10 then 0 else if s < 20 then 1 else 2,
            1, p => 0, p => false, p => false, b => if b == 0 then 2 else 1, b => None, b => 10 * b + 9)
  }

  lemma BranchesOK()
    ensures ContextOK(Branches()) && DefsOK(Branches(), [Def(12, 0), Def(22, 0)])
  {
    var c := Branches();
    assert TreeOK(c.tree);
    assert forall b: Block :: b < 3 ==> c.blockOf(c.lastSplitPoint(b)) == b;
    assert Dominates(c.tree, 0, 0);
  }

  // The cost weighed need not be that of all copies, and it can matter: hoisting
  // is refused in speed mode although it would cost no more than the copies.
  lemma CostCanFallShort() returns (c: Context, defs: seq<Def>)
    ensures ContextOK(c) && DefsOK(c, defs) && BlockSoFar(c, defs, 0) == Some(0)
    ensures Cost(c, defs, 0) < c.freq(0) <= CopyFreq(c, defs, 0)
    ensures NotWorthHoisting(c, DomPair(Some(0), None), Cost(c, defs, 0), 0, SMSpeed)
  {
    c, defs := Branches(), [Def(12, 0), Def(22, 0)];
    BranchesOK();
    assert TreeOK(c.tree);
    assert defs[..1] == [Def(12, 0)] && defs[..1][..0] == [];
    hide ContextOK, DefsOK;
    assert BlockSoFar(c, defs[..1], 0) == Some(1) && Cost(c, defs[..1], 0) == 0;
    assert Near(c.tree, 1, 2) == 0;
    assert CopyFreq(c, defs[..1], 0) == 1;
    BelowItself(c.tree, 0, 0);
    Decline(c, DomPair(Some(0), None), Cost(c, defs, 0), 0, SMSpeed, 0);
  }

  // The first definition of p up to number i.
  lemma {:induction false} FirstOfValue(defs: seq<Def>, p: nat, i: nat) returns (k: nat)
    requires i < |defs| && defs[i].parent == p
    ensures k <= i && defs[k].parent == p && forall j :: 0 <= j < k ==> defs[j].parent != p
  {
    if j: nat :| j < i && defs[j].parent == p {
      k := FirstOfValue(defs, p, j);
    } else {
      k := i;
    }
  }

  // The first loop's update of a pair.
  method MergePair(c: Context, seen: seq<Def>, d: Def, dom: DomPair) returns (r: DomPair, extra: nat)
    requires ContextOK(c) && DefsOK(c, seen + [d]) && PairOK(c, seen, d.parent, dom) && !c.remat(d.parent)
    ensures PairOK(c, seen + [d], d.parent, r)
    ensures r.block == NextBlock(c, dom.block, d)
    ensures extra == if Counts(c, dom.block, d) then c.freq(c.blockOf(d.slot)) else 0
  {
    hide TreeOK, Dominates;
    var val := c.blockOf(d.slot);
    extra := 0;
    ParentFirst(c, seen, d);
    BelowItself(c.tree, val, val);
    ghost var all := seen + [d];
    assert all[|seen|] == d && forall i :: 0 <= i < |seen| ==> all[i] == seen[i];
    // Keep directly defined parent values.
    if d.slot == c.parentDef(d.parent) {
      DirectCovers(c, seen, d);
      assert Covers(c, DomPair(Some(val), Some(d.slot)), d.slot);
      return DomPair(Some(val), Some(d.slot)), 0;
    }
    if c.single(d.parent) {
      return dom, 0;
    }
    if dom.block.None? {
      r := DomPair(Some(val), Some(d.slot));
    } else if dom.block.value == val {
      r := if dom.slot.None? || d.slot < dom.slot.value then DomPair(dom.block, Some(d.slot)) else dom;
    } else {
      var near := NearestCommonDominator(c.tree, dom.block.value, val);
      if near == val {
        r := DomPair(Some(val), Some(d.slot));
      } else if near != dom.block.value {
        r := DomPair(Some(near), None);
      } else {
        r := dom;
      }
      MergeCovers(c, seen, d, dom, near, r);
      extra := c.freq(val);
    }
  }

  // The parent's definition dominates its copies.
  lemma ParentFirst(c: Context, seen: seq<Def>, d: Def)
    requires ContextOK(c) && DefsOK(c, seen + [d])
    ensures Dominates(c.tree, c.blockOf(c.parentDef(d.parent)), c.blockOf(d.slot))
    ensures c.blockOf(c.parentDef(d.parent)) == c.blockOf(d.slot) ==> c.parentDef(d.parent) <= d.slot
  {
    var all := seen + [d];
    assert all[|seen|] == d;
  }

  lemma DirectCovers(c: Context, seen: seq<Def>, d: Def)
    requires ContextOK(c) && DefsOK(c, seen + [d]) && d.slot == c.parentDef(d.parent)
    ensures forall i :: 0 <= i < |seen| && seen[i].parent == d.parent ==>
              Covers(c, DomPair(Some(c.blockOf(d.slot)), Some(d.slot)), seen[i].slot)
  {
    var all := seen + [d];
    forall i | 0 <= i < |seen| && seen[i].parent == d.parent
      ensures Covers(c, DomPair(Some(c.blockOf(d.slot)), Some(d.slot)), seen[i].slot)
    {
      assert all[i] == seen[i];
    }
  }

  // Moving up to the common dominator still covers everything seen.
  lemma MergeCovers(c: Context, seen: seq<Def>, d: Def, dom: DomPair, near: Block, r: DomPair)
    requires ContextOK(c) && DefsOK(c, seen + [d]) && PairOK(c, seen, d.parent, dom) && dom.block.Some?
    requires var val := c.blockOf(d.slot);
             && dom.block.value != val && near < c.tree.size
             && Dominates(c.tree, near, dom.block.value) && Dominates(c.tree, near, val)
             && BelowCommon(c.tree, dom.block.value, val, near)
             && r == if near == val then DomPair(Some(val), Some(d.slot))
                     else if near != dom.block.value then DomPair(Some(near), None) else dom
    ensures r.block.Some? && r.block.value == near && Covers(c, r, d.slot)
    ensures forall i :: 0 <= i < |seen| && seen[i].parent == d.parent && !Skipped(c, seen[i]) ==>
              Covers(c, r, seen[i].slot)
    ensures Dominates(c.tree, c.blockOf(c.parentDef(d.parent)), near)
  {
    hide TreeOK, Dominates;
    var val := c.blockOf(d.slot);
    ParentFirst(c, seen, d);
    assert Common(c.tree, dom.block.value, val, c.blockOf(c.parentDef(d.parent)));
    forall i | 0 <= i < |seen| && seen[i].parent == d.parent && !Skipped(c, seen[i])
      ensures Covers(c, r, seen[i].slot)
    {
      var b := c.blockOf(seen[i].slot);
      assert Covers(c, dom, seen[i].slot);
      DominatesTransitive(c.tree, near, dom.block.value, b);
      if near == b {
        DominatesAntisymmetric(c.tree, near, dom.block.value);
      }
    }
  }

  // The first loop over all complement definitions, with exactly the costs that
  // the order of the definitions leads to.
  method NearestDoms(c: Context, defs: seq<Def>) returns (near: seq<DomPair>, costs: seq<nat>)
    requires ContextOK(c) && DefsOK(c, defs)
    ensures |near| == |costs| == c.numValues
    ensures forall p :: 0 <= p < c.numValues ==> PairOK(c, defs, p, near[p])
    ensures forall p :: 0 <= p < c.numValues ==> costs[p] == Cost(c, defs, p) && near[p].block == BlockSoFar(c, defs, p)
  {
    hide PairOK;
    near := seq(c.numValues, _ => DomPair(None, None));
    costs := seq(c.numValues, _ => 0);
    forall p: nat ensures PairOK(c, [], p, DomPair(None, None)) { NoPairYet(c, p); }
    assert defs[..0] == [];
    for i := 0 to |defs|
      invariant |near| == |costs| == c.numValues
      invariant forall p :: 0 <= p < c.numValues ==> PairOK(c, defs[..i], p, near[p])
      invariant forall p :: 0 <= p < c.numValues ==>
                  costs[p] == Cost(c, defs[..i], p) && near[p].block == BlockSoFar(c, defs[..i], p)
    {
      var d := defs[i];
      assert defs[..i + 1] == defs[..i] + [d];
      assert defs[..i + 1][..i] == defs[..i];
      DefsPrefix(c, defs, i + 1);
      if c.remat(d.parent) {
        forall p: nat | p < c.numValues ensures PairOK(c, defs[..i + 1], p, near[p]) {
          OtherPair(c, defs[..i], d, p, near[p]);
        }
        continue;
      }
      var pair, extra := MergePair(c, defs[..i], d, near[d.parent]);
      forall p: nat | p < c.numValues && p != d.parent ensures PairOK(c, defs[..i + 1], p, near[p]) {
        OtherPair(c, defs[..i], d, p, near[p]);
      }
      near := near[d.parent := pair];
      costs := costs[d.parent := costs[d.parent] + extra];
    }
    assert defs[..|defs|] == defs;
  }

  lemma NoPairYet(c: Context, p: nat)
    requires ContextOK(c)
    ensures PairOK(c, [], p, DomPair(None, None))
  {}

  lemma DefsPrefix(c: Context, defs: seq<Def>, n: nat)
    requires ContextOK(c) && DefsOK(c, defs) && n <= |defs|
    ensures DefsOK(c, defs[..n])
  {}

  // A definition of another value, or of a rematerialized one, changes nothing.
  lemma OtherPair(c: Context, seen: seq<Def>, d: Def, p: nat, dom: DomPair)
    requires ContextOK(c) && PairOK(c, seen, p, dom) && (p != d.parent || c.remat(p))
    ensures PairOK(c, seen + [d], p, dom)
  {
    hide TreeOK, Dominates;
    var all := seen + [d];
    assert forall i :: 0 <= i < |seen| ==> all[i] == seen[i];
  }

  // ---- hoistCopies: new definitions ----

  // After the second loop: a value that is to be cleaned up has a definition,
  // old or new, that comes before every other definition of it.
  ghost predicate HoistOK(c: Context, defs: seq<Def>, added: seq<Def>, p: nat, dom: DomPair)
    requires ContextOK(c)
  {
    dom.block.Some? ==>
      && dom.slot.Some? && (Def(dom.slot.value, p) in defs || Def(dom.slot.value, p) in added)
      && (forall d :: d in defs && d.parent == p && d.slot != dom.slot.value ==> Before(c, dom.slot.value, d.slot))
      && (Def(c.parentDef(p), p) in defs ==> dom.slot.value == c.parentDef(p))
  }

  // A pair that already names a definition.
  lemma NamedPair(c: Context, defs: seq<Def>, added: seq<Def>, p: nat, dom: DomPair)
    requires ContextOK(c) && DefsOK(c, defs) && PairOK(c, defs, p, dom) && dom.slot.Some?
    ensures HoistOK(c, defs, added, p, dom)
  {
    hide TreeOK, Dominates;
    var x := dom.slot.value;
    forall d | d in defs && d.parent == p && d.slot != x ensures Before(c, x, d.slot) {
      var i :| 0 <= i < |defs| && defs[i] == d;
      if Skipped(c, d) {
        assert Before(c, c.parentDef(p), d.slot);
      } else {
        assert Covers(c, dom, defs[i].slot);
      }
    }
    if Def(c.parentDef(p), p) in defs {
      var i :| 0 <= i < |defs| && defs[i] == Def(c.parentDef(p), p);
      DirectIsChosen(c, defs, p, dom, i);
    }
  }

  lemma CopyAfterParent(c: Context, defs: seq<Def>, k: nat)
    requires ContextOK(c) && DefsOK(c, defs) && k < |defs|
    ensures defs[k].slot == c.parentDef(defs[k].parent) || Before(c, c.parentDef(defs[k].parent), defs[k].slot)
  {}

  // A direct definition in the complement is always the one kept.
  lemma DirectIsChosen(c: Context, defs: seq<Def>, p: nat, dom: DomPair, i: nat)
    requires ContextOK(c) && DefsOK(c, defs) && PairOK(c, defs, p, dom) && dom.block.Some?
    requires i < |defs| && defs[i] == Def(c.parentDef(p), p)
    ensures dom.slot == Some(c.parentDef(p))
  {
    hide TreeOK, Dominates;
    var b := c.blockOf(c.parentDef(p));
    assert !Skipped(c, defs[i]) && Covers(c, dom, defs[i].slot);
    DominatesAntisymmetric(c.tree, dom.block.value, b);
    assert dom.slot.Some? && dom.slot.value <= c.parentDef(p);
    var k :| 0 <= k < |defs| && defs[k] == Def(dom.slot.value, p);
    CopyAfterParent(c, defs, k);
  }

  // A new definition at the last split point of a shallow enough dominator.
  lemma HoistedPair(c: Context, defs: seq<Def>, added: seq<Def>, p: nat, dom: DomPair, shallow: Block)
    requires ContextOK(c) && DefsOK(c, defs) && PairOK(c, defs, p, dom) && dom.block.Some? && dom.slot.None?
    requires shallow < c.tree.size && Dominates(c.tree, shallow, dom.block.value)
    requires Def(c.lastSplitPoint(shallow), p) in added
    ensures HoistOK(c, defs, added, p, DomPair(Some(shallow), Some(c.lastSplitPoint(shallow))))
  {
    hide TreeOK, Dominates;
    var x := c.lastSplitPoint(shallow);
    forall d | d in defs && d.parent == p && d.slot != x ensures Before(c, x, d.slot) {
      var i :| 0 <= i < |defs| && defs[i] == d;
      assert !Skipped(c, d);
      assert Covers(c, dom, defs[i].slot);
      var b := c.blockOf(d.slot);
      DominatesTransitive(c.tree, shallow, dom.block.value, b);
      if shallow == b { DominatesAntisymmetric(c.tree, shallow, dom.block.value); }
    }
    if Def(c.parentDef(p), p) in defs {
      var i :| 0 <= i < |defs| && defs[i] == Def(c.parentDef(p), p);
      DirectIsChosen(c, defs, p, dom, i);
      assert false;
    }
  }

  // The block of the parent's own definition.
  ghost function HomeOf(c: Context, p: nat): (b: Block)
    requires ContextOK(c)
    ensures b < c.tree.size
  {
    BlockInRange(c, c.parentDef(p));
    c.blockOf(c.parentDef(p))
  }

  // No definition of the value dominates the others.
  ghost predicate NeedsNew(c: Context, pair: DomPair) {
    pair.block.Some? && pair.slot.None? && pair.block.value < c.tree.size
  }

  // Too expensive for what it saves, or no place for a copy behind the parent's definition.
  ghost predicate Refused(c: Context, b: Block, cost: nat, p: nat, mode: SpillMode) {
    (mode == SMSpeed && c.freq(b) > cost) || c.lastSplitPoint(b) <= c.parentDef(p)
  }

  // A new definition is needed, and the block it would go to refuses it.
  ghost predicate NotWorthHoisting(c: Context, pair: DomPair, cost: nat, p: nat, mode: SpillMode)
    requires ContextOK(c)
  {
    NeedsNew(c, pair)
    && exists b: Block :: ShallowFor(c, HomeOf(c, p), pair.block.value, b) && Refused(c, b, cost, p, mode)
  }

  // A new definition is needed, and its block accepts it at its last split point.
  ghost predicate HoistsTo(c: Context, pair: DomPair, cost: nat, p: nat, mode: SpillMode, slot: Slot)
    requires ContextOK(c)
  {
    NeedsNew(c, pair)
    && exists b: Block :: b < c.tree.size && ShallowFor(c, HomeOf(c, p), pair.block.value, b)
         && !Refused(c, b, cost, p, mode) && slot == c.lastSplitPoint(b)
  }

  // What the second loop makes of a pair: the pair itself unless a definition is
  // needed, and the place of the new definition if there is one.
  ghost predicate Decided(c: Context, pair: DomPair, cost: nat, p: nat, mode: SpillMode, near: DomPair, refused: bool)
    requires ContextOK(c)
  {
    && (refused <==> NotWorthHoisting(c, pair, cost, p, mode))
    && (!NeedsNew(c, pair) ==> near == pair)
    && (NeedsNew(c, pair) && !refused ==> near.slot.Some? && HoistsTo(c, pair, cost, p, mode, near.slot.value))
  }

  lemma Decline(c: Context, pair: DomPair, cost: nat, p: nat, mode: SpillMode, b: Block)
    requires ContextOK(c) && NeedsNew(c, pair) && ShallowFor(c, HomeOf(c, p), pair.block.value, b)
    requires b < c.tree.size
    ensures Refused(c, b, cost, p, mode) ==> Decided(c, pair, cost, p, mode, DomPair(Some(b), None), true)
    ensures !Refused(c, b, cost, p, mode) ==>
              Decided(c, pair, cost, p, mode, DomPair(Some(b), Some(c.lastSplitPoint(b))), false)
  {
    hide ShallowFor, Refused, TreeOK, Dominates;
    var def, mbb := HomeOf(c, p), pair.block.value;
    if x: Block :| ShallowFor(c, def, mbb, x) && Refused(c, x, cost, p, mode) {
      ShallowUnique(c, def, mbb, x, b);
    }
  }

  lemma NothingNeeded(c: Context, pair: DomPair, cost: nat, p: nat, mode: SpillMode)
    requires ContextOK(c) && !NeedsNew(c, pair)
    ensures Decided(c, pair, cost, p, mode, pair, false)
  {}

  // The second loop: insert the hoisted copies, or decide against hoisting.
  method InsertHoisted(c: Context, defs: seq<Def>, pairs: seq<DomPair>, costs: seq<nat>, mode: SpillMode)
    returns (near: seq<DomPair>, added: seq<Def>, notToHoist: set<nat>)
    requires ContextOK(c) && DefsOK(c, defs) && |pairs| == |costs| == c.numValues
    requires forall p :: 0 <= p < c.numValues ==> PairOK(c, defs, p, pairs[p])
    ensures |near| == c.numValues
    ensures forall p: nat :: p < c.numValues && p !in notToHoist ==> HoistOK(c, defs, added, p, near[p])
    ensures forall p: nat :: p < c.numValues ==>
              Decided(c, pairs[p], costs[p], p, mode, near[p], p in notToHoist)
    ensures forall p: nat :: p in notToHoist ==> p < c.numValues
    ensures forall d :: d in added <==>
              d.parent < c.numValues && NeedsNew(c, pairs[d.parent]) && d.parent !in notToHoist
              && near[d.parent].slot == Some(d.slot)
    ensures forall p :: 0 <= p < c.numValues ==> (near[p].block.Some? <==> pairs[p].block.Some?)
  {
    hide PairOK, HoistOK, Decided, ShallowFor, Refused, TreeOK, Dominates;
    near, added, notToHoist := pairs, [], {};
    for i := 0 to c.numValues
      invariant |near| == c.numValues
      invariant forall p :: 0 <= p < c.numValues ==> (near[p].block.Some? <==> pairs[p].block.Some?)
      invariant forall d :: d in added <==>
                  d.parent < i && NeedsNew(c, pairs[d.parent]) && d.parent !in notToHoist
                  && near[d.parent].slot == Some(d.slot)
      invariant forall p: nat :: p in notToHoist ==> p < i
      invariant forall p: nat :: p < i ==> Decided(c, pairs[p], costs[p], p, mode, near[p], p in notToHoist)
      invariant forall p: nat :: i <= p < c.numValues ==> near[p] == pairs[p]
      invariant forall p: nat :: p < i && p !in notToHoist ==> HoistOK(c, defs, added, p, near[p])
    {
      if near[i].block.None? {
        NoPairNoHoist(c, defs, added, i, near[i]);
        NothingNeeded(c, near[i], costs[i], i, mode);
        continue;
      }
      if near[i].slot.Some? {
        NamedPair(c, defs, added, i, near[i]);
        NothingNeeded(c, near[i], costs[i], i, mode);
        continue;
      }
      var defMBB := c.blockOf(c.parentDef(i));
      PairBlock(c, defs, i, near[i]);
      var shallow, _ := FindShallowDominator(c, near[i].block.value, defMBB);
      ghost var pair := near[i];
      Decline(c, pair, costs[i], i, mode, shallow);
      near := near[i := DomPair(Some(shallow), None)];
      var lsp := c.lastSplitPoint(shallow);
      RefusedIs(c, shallow, costs[i], i, mode);
      if mode == SMSpeed && c.freq(shallow) > costs[i] {
        notToHoist := notToHoist + {i};
        continue;
      }
      if lsp <= c.parentDef(i) {
        notToHoist := notToHoist + {i};
        continue;
      }
      ghost var before := added;
      added := added + [Def(lsp, i)];
      near := near[i := DomPair(Some(shallow), Some(lsp))];
      HoistedPair(c, defs, added, i, pair, shallow);
      forall p: nat | p < i && p !in notToHoist ensures HoistOK(c, defs, added, p, near[p]) {
        HoistMore(c, defs, before, added, p, near[p]);
      }
    }
  }

  lemma RefusedIs(c: Context, b: Block, cost: nat, p: nat, mode: SpillMode)
    ensures Refused(c, b, cost, p, mode) <==>
            (mode == SMSpeed && c.freq(b) > cost) || c.lastSplitPoint(b) <= c.parentDef(p)
  {}

  lemma PairBlock(c: Context, defs: seq<Def>, p: nat, dom: DomPair)
    requires ContextOK(c) && PairOK(c, defs, p, dom) && dom.block.Some?
    ensures dom.block.value < c.tree.size && Dominates(c.tree, c.blockOf(c.parentDef(p)), dom.block.value)
    ensures c.blockOf(c.parentDef(p)) < c.tree.size
  {
    BlockInRange(c, c.parentDef(p));
  }

  lemma BlockInRange(c: Context, s: Slot)
    requires ContextOK(c)
    ensures c.blockOf(s) < c.tree.size
  {}

  lemma NoPairNoHoist(c: Context, defs: seq<Def>, added: seq<Def>, p: nat, dom: DomPair)
    requires ContextOK(c) && dom.block.None?
    ensures HoistOK(c, defs, added, p, dom)
  {}

  lemma HoistMore(c: Context, defs: seq<Def>, before: seq<Def>, added: seq<Def>, p: nat, dom: DomPair)
    requires ContextOK(c) && HoistOK(c, defs, before, p, dom) && before <= added
    ensures HoistOK(c, defs, added, p, dom)
  {}

  // ---- hoistCopies: removal ----

  // The third loop: every other definition of a hoisted value goes.
  method CollectBackCopies(c: Context, defs: seq<Def>, near: seq<DomPair>, notToHoist: set<nat>)
        returns (removed: set<Def>)
    requires ContextOK(c) && DefsOK(c, defs) && |near| == c.numValues
    ensures forall d :: d in removed <==>
              d in defs && d.parent !in notToHoist && near[d.parent].block.Some? && near[d.parent].slot != Some(d.slot)
  {
    removed := {};
    for i := 0 to |defs|
      invariant forall d :: d in removed <==>
                  d in defs[..i] && d.parent !in notToHoist && d.parent < c.numValues
                  && near[d.parent].block.Some? && near[d.parent].slot != Some(d.slot)
    {
      var d := defs[i];
      assert defs[..i + 1] == defs[..i] + [d];
      if near[d.parent].block.None? || near[d.parent].slot == Some(d.slot) || d.parent in notToHoist { continue; }
      removed := removed + {d};
    }
    assert defs[..|defs|] == defs;
  }

  // ---- computeRedundantBackCopies ----

  lemma BeforeIrreflexive(c: Context, a: Slot)
    requires ContextOK(c)
    ensures !Before(c, a, a)
  {}

  lemma BeforeTransitive(c: Context, x: Slot, y: Slot, z: Slot)
    requires ContextOK(c) && Before(c, x, y) && Before(c, y, z)
    ensures Before(c, x, z)
  {
    hide TreeOK, Dominates;
    var a, b, d := c.blockOf(x), c.blockOf(y), c.blockOf(z);
    if a != b && b != d {
      DominatesTransitive(c.tree, a, b, d);
      if a == d { DominatesAntisymmetric(c.tree, a, b); }
    }
  }

  // Among the definitions with a strict dominator, each has one without.
  lemma {:induction false} RootAbove(c: Context, vs: seq<Def>, i: nat, above: set<nat>) returns (r: nat)
    requires ContextOK(c) && i < |vs|
    requires forall j: nat :: j in above <==> j < |vs| && Before(c, vs[j].slot, vs[i].slot)
    requires above != {}
    ensures r < |vs| && Before(c, vs[r].slot, vs[i].slot)
    ensures forall j :: 0 <= j < |vs| ==> !Before(c, vs[j].slot, vs[r].slot)
    decreases above
  {
    hide Before;
    var j :| j in above;
    var higher: set<nat> := set k: nat | 0 <= k < |vs| && Before(c, vs[k].slot, vs[j].slot);
    if higher == {} {
      r := j;
      forall k | 0 <= k < |vs| ensures !Before(c, vs[k].slot, vs[r].slot) { assert k !in higher; }
    } else {
      forall k | k in higher ensures k in above {
        BeforeTransitive(c, vs[k].slot, vs[j].slot, vs[i].slot);
      }
      BeforeIrreflexive(c, vs[j].slot);
      assert j in above && j !in higher;
      r := RootAbove(c, vs, j, higher);
      BeforeTransitive(c, vs[r].slot, vs[j].slot, vs[i].slot);
    }
  }

  // The definitions of one parent value, in any order: exactly those with a
  // strict dominator among them are marked.
  method MarkDominated(c: Context, vs: seq<Def>) returns (dominated: set<nat>)
    requires ContextOK(c) && forall i, j :: 0 <= i < j < |vs| ==> vs[i].slot != vs[j].slot
    ensures forall i: nat :: i in dominated <==>
              i < |vs| && exists j :: 0 <= j < |vs| && Before(c, vs[j].slot, vs[i].slot)
  {
    hide Before, Marked, TreeOK, Dominates;
    dominated := {};
    NothingMarked(c, vs);
    for a := 0 to |vs|
      invariant Marked(c, vs, dominated)
      invariant forall i, j :: 0 <= i < a && i < j < |vs| ==> Settled(c, vs, dominated, i, j)
    {
      for b := a + 1 to |vs|
        invariant Marked(c, vs, dominated)
        invariant forall i, j :: 0 <= i < a && i < j < |vs| ==> Settled(c, vs, dominated, i, j)
        invariant forall j :: a < j < b ==> Settled(c, vs, dominated, a, j)
      {
        if a in dominated || b in dominated { continue; }
        var m1, m2 := c.blockOf(vs[a].slot), c.blockOf(vs[b].slot);
        PairOrder(c, vs[a].slot, vs[b].slot);
        BlockInRange(c, vs[a].slot);
        BlockInRange(c, vs[b].slot);
        ghost var before := dominated;
        if m1 == m2 {
          if vs[a].slot < vs[b].slot {
            MarkOne(c, vs, dominated, b, a);
            dominated := dominated + {b};
          } else {
            MarkOne(c, vs, dominated, a, b);
            dominated := dominated + {a};
          }
        } else if Dominates(c.tree, m1, m2) {
          MarkOne(c, vs, dominated, b, a);
          dominated := dominated + {b};
        } else if Dominates(c.tree, m2, m1) {
          MarkOne(c, vs, dominated, a, b);
          dominated := dominated + {a};
        }
        forall i: nat, j: nat | i < j < |vs| && Settled(c, vs, before, i, j) ensures Settled(c, vs, dominated, i, j) {}
        assert forall i: nat, j: nat :: i < a && i < j < |vs| ==> Settled(c, vs, before, i, j);
        assert forall j: nat :: a < j < b ==> Settled(c, vs, before, a, j);
      }
    }
    MarkedMeans(c, vs, dominated);
    forall i: nat | i < |vs| && exists j :: 0 <= j < |vs| && Before(c, vs[j].slot, vs[i].slot) ensures i in dominated {
      var above: set<nat> := set j: nat | 0 <= j < |vs| && Before(c, vs[j].slot, vs[i].slot);
      var j :| 0 <= j < |vs| && Before(c, vs[j].slot, vs[i].slot);
      assert j in above;
      var r := RootAbove(c, vs, i, above);
      BeforeIrreflexive(c, vs[i].slot);
      assert r !in dominated;
      assert if r < i then Settled(c, vs, dominated, r, i) else Settled(c, vs, dominated, i, r);
    }
  }

  // Only definitions with a strict dominator are marked.
  ghost predicate Marked(c: Context, vs: seq<Def>, dominated: set<nat>)
    requires ContextOK(c)
  {
    forall i: nat :: i in dominated ==> i < |vs| && exists j :: 0 <= j < |vs| && Before(c, vs[j].slot, vs[i].slot)
  }

  lemma NothingMarked(c: Context, vs: seq<Def>)
    requires ContextOK(c)
    ensures Marked(c, vs, {})
  {}

  lemma MarkOne(c: Context, vs: seq<Def>, dominated: set<nat>, x: nat, up: nat)
    requires ContextOK(c) && Marked(c, vs, dominated) && x < |vs| && up < |vs| && Before(c, vs[up].slot, vs[x].slot)
    ensures Marked(c, vs, dominated + {x})
  {}

  lemma MarkedMeans(c: Context, vs: seq<Def>, dominated: set<nat>)
    requires ContextOK(c) && Marked(c, vs, dominated)
    ensures forall i: nat :: i in dominated ==>
              i < |vs| && exists j :: 0 <= j < |vs| && Before(c, vs[j].slot, vs[i].slot)
  {}

  // The pair has been looked at: if one dominates the other, one is marked.
  ghost predicate Settled(c: Context, vs: seq<Def>, dominated: set<nat>, i: nat, j: nat)
    requires ContextOK(c) && i < |vs| && j < |vs|
  {
    Before(c, vs[i].slot, vs[j].slot) || Before(c, vs[j].slot, vs[i].slot) ==> i in dominated || j in dominated
  }

  lemma PairOrder(c: Context, x: Slot, y: Slot)
    requires ContextOK(c)
    ensures c.blockOf(x) == c.blockOf(y) ==> (Before(c, x, y) <==> x < y) && (Before(c, y, x) <==> y < x)
    ensures c.blockOf(x) != c.blockOf(y) ==>
              (Before(c, x, y) <==> Dominates(c.tree, c.blockOf(x), c.blockOf(y)))
              && (Before(c, y, x) <==> Dominates(c.tree, c.blockOf(y), c.blockOf(x)))
  {}

  // The definitions of parent value p.
  method EqualValues(defs: seq<Def>, p: nat) returns (vs: seq<Def>)
    requires forall i, j :: 0 <= i < j < |defs| ==> defs[i].slot != defs[j].slot
    ensures forall d :: d in vs <==> d in defs && d.parent == p
    ensures forall i, j :: 0 <= i < j < |vs| ==> vs[i].slot != vs[j].slot
  {
    vs := [];
    for i := 0 to |defs|
      invariant forall d :: d in vs <==> d in defs[..i] && d.parent == p
      invariant forall k, j :: 0 <= k < j < |vs| ==> vs[k].slot != vs[j].slot
    {
      assert defs[..i + 1] == defs[..i] + [defs[i]];
      if defs[i].parent == p {
        forall k | 0 <= k < |vs| ensures vs[k].slot != defs[i].slot {
          assert vs[k] in defs[..i];
        }
        vs := vs + [defs[i]];
      }
    }
    assert defs[..|defs|] == defs;
  }

  ghost predicate Redundant(c: Context, defs: seq<Def>, d: Def)
    requires ContextOK(c)
  {
    exists e :: e in defs && e.parent == d.parent && Before(c, e.slot, d.slot)
  }

  // Exactly the dominated definitions of the values that are not hoisted.
  method ComputeRedundantBackCopies(c: Context, defs: seq<Def>, notToHoist: set<nat>) returns (removed: set<Def>)
    requires ContextOK(c) && DefsOK(c, defs)
    ensures forall d :: d in removed <==> d in defs && d.parent in notToHoist && Redundant(c, defs, d)
  {
    hide Before, TreeOK;
    removed := {};
    for p := 0 to c.numValues
      invariant forall d :: d in removed <==>
                  d in defs && d.parent < p && d.parent in notToHoist && Redundant(c, defs, d)
    {
      if p !in notToHoist { continue; }
      var vs := EqualValues(defs, p);
      var dominated := MarkDominated(c, vs);
      ghost var before := removed;
      removed := removed + (set i | i in dominated :: vs[i]);
      forall d ensures d in removed <==> d in before || (d in defs && d.parent == p && Redundant(c, defs, d)) {
        OnePass(c, defs, p, vs, dominated, d);
      }
    }
  }

  lemma OnePass(c: Context, defs: seq<Def>, p: nat, vs: seq<Def>, dominated: set<nat>, d: Def)
    requires ContextOK(c) && forall e :: e in vs <==> e in defs && e.parent == p
    requires forall i: nat :: i in dominated <==>
               i < |vs| && exists j :: 0 <= j < |vs| && Before(c, vs[j].slot, vs[i].slot)
    ensures d in (set i | i in dominated :: vs[i]) <==> d in defs && d.parent == p && Redundant(c, defs, d)
  {
    hide Before, TreeOK;
    if d in defs && d.parent == p && Redundant(c, defs, d) {
      var e :| e in defs && e.parent == d.parent && Before(c, e.slot, d.slot);
      var i: nat :| i < |vs| && vs[i] == d;
      var j: nat :| j < |vs| && vs[j] == e;
      assert i in dominated;
    }
    if d in (set i | i in dominated :: vs[i]) {
      var i :| i in dominated && vs[i] == d;
      var j :| 0 <= j < |vs| && Before(c, vs[j].slot, vs[i].slot);
      assert vs[j] in vs && vs[i] in vs;
    }
  }

  // ---- hoistCopies ----

  // A kept or new definition of the same parent value comes before d.
  ghost predicate Replaced(c: Context, defs: seq<Def>, removed: set<Def>, added: seq<Def>, d: Def)
    requires ContextOK(c)
  {
    exists e :: Stays(defs, removed, added, e) && e.parent == d.parent && Before(c, e.slot, d.slot)
  }

  ghost predicate Stays(defs: seq<Def>, removed: set<Def>, added: seq<Def>, d: Def) {
    (d in defs && d !in removed) || d in added
  }

  // Some definition of p is neither rematerialized nor the only one.
  ghost predicate Handled(c: Context, defs: seq<Def>, p: nat) {
    exists d :: d in defs && d.parent == p && !Skipped(c, d)
  }

  // Every removed definition is dominated by one that stays or is new, and the
  // parent's own definition is never removed. Of what stays or is new nothing
  // dominates another definition of its value, unless the value was left alone:
  // outside speed mode, because its copy would have had to precede its definition.
  method HoistCopies(c: Context, defs: seq<Def>, mode: SpillMode)
    returns (removed: set<Def>, added: seq<Def>, ghost alone: set<nat>, ghost pairs: seq<DomPair>,
        ghost costs: seq<nat>, ghost near: seq<DomPair>)
    requires ContextOK(c) && DefsOK(c, defs)
    ensures forall d, e | Stays(defs, removed, added, d) && Stays(defs, removed, added, e) && d.parent == e.parent ::
              Handled(c, defs, d.parent) && (mode == SMSpeed || d.parent !in alone) ==> !Before(c, d.slot, e.slot)
    ensures |pairs| == |costs| == |near| == c.numValues
    ensures forall p :: 0 <= p < c.numValues ==>
              PairOK(c, defs, p, pairs[p]) && pairs[p].block == BlockSoFar(c, defs, p) && costs[p] == Cost(c, defs, p)
    ensures forall p: nat :: p in alone <==> p < c.numValues && NotWorthHoisting(c, pairs[p], costs[p], p, mode)
    ensures forall d :: d in added <==>
              d.parent < c.numValues && d.parent !in alone
              && HoistsTo(c, pairs[d.parent], costs[d.parent], d.parent, mode, d.slot)
    ensures forall p: nat :: p < c.numValues ==> Decided(c, pairs[p], costs[p], p, mode, near[p], p in alone)
    ensures forall d :: d in removed <==>
              d in defs && if d.parent in alone then mode == SMSpeed && Redundant(c, defs, d)
                           else near[d.parent].block.Some? && near[d.parent].slot != Some(d.slot)
    ensures mode == SMSpeed ==> forall d :: d in added ==> c.freq(c.blockOf(d.slot)) <= CopyFreq(c, defs, d.parent)
    ensures forall d :: d in removed ==> d in defs && Replaced(c, defs, removed, added, d)
    ensures forall d :: d in removed ==> d.slot != c.parentDef(d.parent)
  {
    hide Before, TreeOK, PairOK, HoistOK, Decided, NotWorthHoisting, HoistsTo, NeedsNew, Redundant, Replaced, Handled;
    var found, total := NearestDoms(c, defs);
    var chosen, notToHoist;
    chosen, added, notToHoist := InsertHoisted(c, defs, found, total, mode);
    alone, pairs, costs, near := notToHoist, found, total, chosen;
    AddedExactly(c, pairs, costs, mode, near, added, notToHoist);
    if mode == SMSpeed { NeverDearer(c, defs, pairs, costs, added); }
    removed := CollectBackCopies(c, defs, chosen, notToHoist);
    ghost var hoisted := removed;
    if mode == SMSpeed && notToHoist != {} {
      var redundant := ComputeRedundantBackCopies(c, defs, notToHoist);
      removed := removed + redundant;
    }
    forall d | d in removed ensures Replaced(c, defs, removed, added, d) && d.slot != c.parentDef(d.parent) {
      if d in hoisted {
        var p := d.parent;
        assert HoistOK(c, defs, added, p, near[p]);
        HoistedAway(c, defs, added, p, near[p], d);
        StandsFor(c, defs, removed, added, d, Def(near[p].slot.value, p));
      } else {
        RedundantAway(c, defs, removed, added, notToHoist, d);
      }
    }
    forall d, e | Stays(defs, removed, added, d) && Stays(defs, removed, added, e) && d.parent == e.parent
                  && Handled(c, defs, d.parent) && (mode == SMSpeed || d.parent !in alone)
      ensures !Before(c, d.slot, e.slot)
    {
      var p := d.parent;
      if p in notToHoist {
        NothingAbove(c, defs, d, e);
      } else {
        HandledHasPair(c, defs, p, pairs[p]);
        HoistedHasSlot(c, defs, added, p, near[p]);
        BeforeIrreflexive(c, d.slot);
      }
    }
  }

  lemma DecidedParts(c: Context, pair: DomPair, cost: nat, p: nat, mode: SpillMode, near: DomPair, refused: bool)
    requires ContextOK(c) && Decided(c, pair, cost, p, mode, near, refused)
    ensures refused <==> NotWorthHoisting(c, pair, cost, p, mode)
    ensures NeedsNew(c, pair) && !refused ==>
              forall slot :: near.slot == Some(slot) <==> HoistsTo(c, pair, cost, p, mode, slot)
    ensures forall slot :: HoistsTo(c, pair, cost, p, mode, slot) ==> NeedsNew(c, pair)
  {
    hide ShallowFor, Refused, TreeOK, Dominates;
    forall slot | NeedsNew(c, pair) && !refused && HoistsTo(c, pair, cost, p, mode, slot)
      ensures near.slot == Some(slot)
    {
      var def, mbb := HomeOf(c, p), pair.block.value;
      var x: Block :| x < c.tree.size && ShallowFor(c, def, mbb, x) && slot == c.lastSplitPoint(x);
      var y: Block :| y < c.tree.size && ShallowFor(c, def, mbb, y) && near.slot == Some(c.lastSplitPoint(y));
      ShallowUnique(c, def, mbb, x, y);
    }
  }

  lemma AddedExactly(c: Context, pairs: seq<DomPair>, costs: seq<nat>, mode: SpillMode, near: seq<DomPair>,
                     added: seq<Def>, alone: set<nat>)
    requires ContextOK(c) && |pairs| == |costs| == |near| == c.numValues
    requires forall p: nat :: p < c.numValues ==> Decided(c, pairs[p], costs[p], p, mode, near[p], p in alone)
    requires forall p: nat :: p in alone ==> p < c.numValues
    requires forall d :: d in added <==>
               d.parent < c.numValues && NeedsNew(c, pairs[d.parent]) && d.parent !in alone
               && near[d.parent].slot == Some(d.slot)
    ensures forall p: nat :: p in alone <==> p < c.numValues && NotWorthHoisting(c, pairs[p], costs[p], p, mode)
    ensures forall d :: d in added <==>
              d.parent < c.numValues && d.parent !in alone
              && HoistsTo(c, pairs[d.parent], costs[d.parent], d.parent, mode, d.slot)
  {
    forall p: nat | p < c.numValues
      ensures p in alone <==> NotWorthHoisting(c, pairs[p], costs[p], p, mode)
      ensures NeedsNew(c, pairs[p]) && p !in alone ==>
                forall slot :: near[p].slot == Some(slot) <==> HoistsTo(c, pairs[p], costs[p], p, mode, slot)
      ensures forall slot :: HoistsTo(c, pairs[p], costs[p], p, mode, slot) ==> NeedsNew(c, pairs[p])
    {
      DecidedParts(c, pairs[p], costs[p], p, mode, near[p], p in alone);
    }
    hide Decided, NotWorthHoisting, HoistsTo, NeedsNew, TreeOK, Dominates;
  }

  // In speed mode a hoisted copy never runs more often than the copies it replaces.
  lemma NeverDearer(c: Context, defs: seq<Def>, pairs: seq<DomPair>, costs: seq<nat>, added: seq<Def>)
    requires ContextOK(c) && |pairs| == |costs| == c.numValues
    requires forall d :: d in added ==>
               d.parent < c.numValues && HoistsTo(c, pairs[d.parent], costs[d.parent], d.parent, SMSpeed, d.slot)
    requires forall p :: 0 <= p < c.numValues ==> costs[p] == Cost(c, defs, p)
    ensures forall d :: d in added ==> c.freq(c.blockOf(d.slot)) <= CopyFreq(c, defs, d.parent)
  {
    forall d | d in added ensures c.freq(c.blockOf(d.slot)) <= CopyFreq(c, defs, d.parent) {
      hide ShallowFor, TreeOK, Dominates;
      CostExactly(c, defs, d.parent);
    }
  }

  lemma NothingAbove(c: Context, defs: seq<Def>, d: Def, e: Def)
    requires ContextOK(c) && d in defs && d.parent == e.parent && !Redundant(c, defs, e)
    ensures !Before(c, d.slot, e.slot)
  {
    hide Before, TreeOK;
  }

  lemma HandledHasPair(c: Context, defs: seq<Def>, p: nat, pair: DomPair)
    requires ContextOK(c) && PairOK(c, defs, p, pair) && Handled(c, defs, p)
    ensures pair.block.Some?
  {
    hide TreeOK, Dominates;
    var d :| d in defs && d.parent == p && !Skipped(c, d);
    var i := IndexIn(defs, d);
    assert !Skipped(c, defs[i]);
  }

  lemma HoistedHasSlot(c: Context, defs: seq<Def>, added: seq<Def>, p: nat, dom: DomPair)
    requires ContextOK(c) && HoistOK(c, defs, added, p, dom) && dom.block.Some?
    ensures dom.slot.Some?
  {
  }

  lemma HoistedAway(c: Context, defs: seq<Def>, added: seq<Def>, p: nat, dom: DomPair, d: Def)
    requires ContextOK(c) && HoistOK(c, defs, added, p, dom) && dom.block.Some? && d in defs && d.parent == p
    requires dom.slot != Some(d.slot)
    ensures dom.slot.Some? && (Def(dom.slot.value, p) in defs || Def(dom.slot.value, p) in added)
    ensures Before(c, dom.slot.value, d.slot) && d.slot != c.parentDef(p)
  {
    hide Before, TreeOK;
    assert d == Def(d.slot, p);
  }

  // The root above a redundant definition is itself not redundant.
  lemma RedundantAway(c: Context, defs: seq<Def>, removed: set<Def>, added: seq<Def>, notToHoist: set<nat>, d: Def)
    requires ContextOK(c) && DefsOK(c, defs) && d in defs && d.parent in notToHoist && Redundant(c, defs, d)
    requires forall e :: e in removed && e.parent in notToHoist ==> Redundant(c, defs, e)
    ensures Replaced(c, defs, removed, added, d) && d.slot != c.parentDef(d.parent)
  {
    var vs := SameParent(defs, d.parent);
    var e :| e in defs && e.parent == d.parent && Before(c, e.slot, d.slot);
    var m := IndexIn(defs, e);
    NothingBeforeParent(c, defs, m, d.slot);
    hide Before, Redundant, Replaced;
    var i := IndexIn(vs, d);
    var j := IndexIn(vs, e);
    var above: set<nat> := set k: nat | 0 <= k < |vs| && Before(c, vs[k].slot, vs[i].slot);
    assert j in above;
    var r := RootAbove(c, vs, i, above);
    assert vs[r] in vs;
    RootStays(c, defs, vs, vs[r]);
    StandsFor(c, defs, removed, added, d, vs[r]);
  }

  lemma IndexIn(ds: seq<Def>, d: Def) returns (i: nat)
    requires d in ds
    ensures i < |ds| && ds[i] == d
  {
    i :| i < |ds| && ds[i] == d;
  }

  // A definition that no other of the same value dominates is not redundant.
  lemma RootStays(c: Context, defs: seq<Def>, vs: seq<Def>, e: Def)
    requires ContextOK(c) && forall x :: x in defs && x.parent == e.parent ==> x in vs
    requires forall k :: 0 <= k < |vs| ==> !Before(c, vs[k].slot, e.slot)
    ensures !Redundant(c, defs, e)
  {
    hide Before, TreeOK;
    forall x | x in defs && x.parent == e.parent ensures !Before(c, x.slot, e.slot) {
      var k := IndexIn(vs, x);
    }
  }

  lemma StandsFor(c: Context, defs: seq<Def>, removed: set<Def>, added: seq<Def>, d: Def, e: Def)
    requires ContextOK(c) && Stays(defs, removed, added, e) && e.parent == d.parent && Before(c, e.slot, d.slot)
    ensures Replaced(c, defs, removed, added, d)
  {
    hide Before, TreeOK;
  }

  lemma NothingBeforeParent(c: Context, defs: seq<Def>, m: nat, slot: Slot)
    requires ContextOK(c) && DefsOK(c, defs) && m < |defs| && Before(c, defs[m].slot, slot)
    ensures slot != c.parentDef(defs[m].parent)
  {
    CopyAfterParent(c, defs, m);
    var p := c.parentDef(defs[m].parent);
    hide Before;
    BeforeIrreflexive(c, p);
    if slot == p && defs[m].slot != p { BeforeTransitive(c, p, defs[m].slot, p); }
  }

  ghost function SameParent(defs: seq<Def>, p: nat): (vs: seq<Def>)
    ensures forall d :: d in vs <==> d in defs && d.parent == p
  {
    if defs == [] then []
    else
      var rest := SameParent(defs[..|defs| - 1], p);
      if defs[|defs| - 1].parent == p then rest + [defs[|defs| - 1]] else rest
  }
}
