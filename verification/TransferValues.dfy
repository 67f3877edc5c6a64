// Handing the segments of a split interval to the new intervals.
module TransferValues {
  type Slot = int

  // A live segment of the parent, with its value.
  datatype Segment = Segment(start: Slot, stop: Slot, valno: nat) {
    predicate Has(x: Slot) { start <= x < stop }
  }

  // A stretch of the register assignment map; holes belong to interval 0.
  datatype Assign = Assign(start: Slot, stop: Slot, reg: nat) {
    predicate Has(x: Slot) { start <= x < stop }
  }

  // How a value maps into a new interval: one definition that can be copied
  // over, several, or a forced recomputation.
  datatype Mapping = Simple(vni: nat) | Forced | Complex

  datatype Action =
    | Blit(vni: nat)
    | Recalc
    | DefInBlock(block: nat, liveOut: bool)
    | LiveIn(block: nat, liveOut: bool)

  // What is done with [start, stop) of the parent.
  datatype Piece = Piece(start: Slot, stop: Slot, reg: nat, valno: nat, action: Action) {
    predicate Has(x: Slot) { start <= x < stop }
  }

  // Mapping of (reg, valno); definition slot of a parent value; block boundaries.
  datatype Context = Context(mapping: (nat, nat) -> Mapping, def: nat -> Slot, numBlocks: nat, boundary: nat -> Slot)

  ghost predicate SegmentsOK(segs: seq<Segment>) {
    && (forall i :: 0 <= i < |segs| ==> segs[i].start < segs[i].stop)
    && (forall i, j :: 0 <= i < j < |segs| ==> segs[i].stop <= segs[j].start)
  }

  ghost predicate AssignOK(assigns: seq<Assign>) {
    && (forall i :: 0 <= i < |assigns| ==> assigns[i].start < assigns[i].stop)
    && (forall i, j :: 0 <= i < j < |assigns| ==> assigns[i].stop <= assigns[j].start)
  }

  ghost predicate ContextOK(c: Context, segs: seq<Segment>) {
    && (forall p: nat, q: nat :: p < q <= c.numBlocks ==> c.boundary(p) < c.boundary(q))
    && (forall i :: 0 <= i < |segs| ==> c.boundary(0) <= segs[i].start && segs[i].stop <= c.boundary(c.numBlocks))
  }

  // The interval that x is assigned to.
  ghost predicate AssignedTo(assigns: seq<Assign>, x: Slot, reg: nat) {
    if exists i :: 0 <= i < |assigns| && assigns[i].Has(x)
    then exists i :: 0 <= i < |assigns| && assigns[i].Has(x) && assigns[i].reg == reg
    else reg == 0
  }

  // The action fits the mapping, and block actions stay inside their block.
  ghost predicate ActionOK(c: Context, p: Piece) {
    match p.action
    case Blit(vni) => c.mapping(p.reg, p.valno) == Simple(vni)
    case Recalc => c.mapping(p.reg, p.valno) == Forced
    case DefInBlock(b, liveOut) =>
      && c.mapping(p.reg, p.valno) == Complex && InBlock(c, p, b, liveOut)
      && (p.start != c.boundary(b) || p.start == c.def(p.valno))
    case LiveIn(b, liveOut) =>
      && c.mapping(p.reg, p.valno) == Complex && InBlock(c, p, b, liveOut)
      && p.start == c.boundary(b) && p.start != c.def(p.valno)
  }

  ghost predicate InBlock(c: Context, p: Piece, b: nat, liveOut: bool) {
    && b < c.numBlocks && c.boundary(b) <= p.start && p.stop <= c.boundary(b + 1)
    && (liveOut <==> p.stop == c.boundary(b + 1))
  }

  // A non-empty piece of one parent segment, with one assignment throughout.
  ghost predicate PieceOK(c: Context, segs: seq<Segment>, assigns: seq<Assign>, p: Piece) {
    && p.start < p.stop
    && (exists i :: 0 <= i < |segs| && segs[i].valno == p.valno && segs[i].start <= p.start && p.stop <= segs[i].stop)
    && (forall x :: p.Has(x) ==> AssignedTo(assigns, x, p.reg))
    && ActionOK(c, p)
  }

  ghost predicate Covered(pieces: seq<Piece>, x: Slot) {
    exists k :: 0 <= k < |pieces| && pieces[k].Has(x)
  }

  ghost predicate Live(segs: seq<Segment>, x: Slot) {
    exists i :: 0 <= i < |segs| && segs[i].Has(x)
  }

  // The pieces tile the parent up to the given bound.
  ghost predicate Tiles(c: Context, segs: seq<Segment>, assigns: seq<Assign>, pieces: seq<Piece>, upto: Slot) {
    && (forall k :: 0 <= k < |pieces| ==> PieceOK(c, segs, assigns, pieces[k]) && pieces[k].stop <= upto)
    && (forall k, l :: 0 <= k < l < |pieces| ==> pieces[k].stop <= pieces[l].start)
    && (forall x :: Live(segs, x) && x < upto ==> Covered(pieces, x))
  }

  // First assignment that ends after x.
  ghost predicate AtAssign(assigns: seq<Assign>, x: Slot, i: nat) {
    && i <= |assigns|
    && (i < |assigns| ==> assigns[i].stop > x)
    && (forall j :: 0 <= j < i ==> assigns[j].stop <= x)
  }

  method AdvanceTo(assigns: seq<Assign>, from: nat, x: Slot) returns (i: nat)
    requires AssignOK(assigns) && from <= |assigns| && forall j :: 0 <= j < from ==> assigns[j].stop <= x
    ensures AtAssign(assigns, x, i)
  {
    i := from;
    while i < |assigns| && assigns[i].stop <= x
      invariant from <= i <= |assigns| && forall j :: 0 <= j < i ==> assigns[j].stop <= x
    {
      i := i + 1;
    }
  }

  // getMBBFromIndex
  method BlockOf(c: Context, x: Slot) returns (b: nat)
    requires forall p: nat, q: nat :: p < q <= c.numBlocks ==> c.boundary(p) < c.boundary(q)
    requires c.boundary(0) <= x < c.boundary(c.numBlocks)
    ensures b < c.numBlocks && c.boundary(b) <= x < c.boundary(b + 1)
  {
    b := 0;
    while c.boundary(b + 1) <= x
      invariant b < c.numBlocks && c.boundary(b) <= x
      decreases c.numBlocks - b
    {
      b := b + 1;
    }
  }

  // One more piece directly after the ones so far.
  lemma TilesMore(c: Context, segs: seq<Segment>, assigns: seq<Assign>, pieces: seq<Piece>, at: Slot, p: Piece)
    requires Tiles(c, segs, assigns, pieces, at) && PieceOK(c, segs, assigns, p) && p.start == at
    ensures Tiles(c, segs, assigns, pieces + [p], p.stop)
  {
    assert p.start < p.stop;
    hide PieceOK, Live;
    var more := pieces + [p];
    forall x | Live(segs, x) && x < p.stop ensures Covered(more, x) {
      if x < at {
        var k :| 0 <= k < |pieces| && pieces[k].Has(x);
        assert more[k].Has(x);
      } else {
        assert more[|pieces|].Has(x);
      }
    }
  }

  // Nothing of the parent lies between two segments.
  lemma TilesGap(c: Context, segs: seq<Segment>, assigns: seq<Assign>, pieces: seq<Piece>, at: Slot, next: Slot)
    requires Tiles(c, segs, assigns, pieces, at) && at <= next
    requires forall x :: Live(segs, x) ==> !(at <= x < next)
    ensures Tiles(c, segs, assigns, pieces, next)
  {
    hide PieceOK, Live, Covered;
  }

  // All points of [at, end) are assigned as the iterator says.
  lemma StretchAssigned(assigns: seq<Assign>, at: Slot, end: Slot, i: nat, reg: nat)
    requires AssignOK(assigns) && AtAssign(assigns, at, i) && at < end
    requires if i == |assigns| then reg == 0
             else if assigns[i].start <= at then reg == assigns[i].reg && end <= assigns[i].stop
             else reg == 0 && end <= assigns[i].start
    ensures ConstantlyAssigned(assigns, at, end, reg)
  {
    forall x | at <= x < end ensures AssignedTo(assigns, x, reg) {
      if i < |assigns| && assigns[i].start <= at {
        assert assigns[i].Has(x);
      } else {
        forall j | 0 <= j < |assigns| ensures !assigns[j].Has(x) {
          if j > i { assert assigns[i].stop <= assigns[j].start; }
        }
      }
    }
  }

  ghost predicate ConstantlyAssigned(assigns: seq<Assign>, at: Slot, end: Slot, reg: nat) {
    forall x :: at <= x < end ==> AssignedTo(assigns, x, reg)
  }

  // A piece [at, stop) of segment s is fine when its action is.
  lemma PieceFits(c: Context, segs: seq<Segment>, assigns: seq<Assign>, s: nat, lo: Slot, hi: Slot, p: Piece)
    requires s < |segs| && segs[s].valno == p.valno && segs[s].start <= p.start < p.stop <= segs[s].stop
    requires lo <= p.start && p.stop <= hi && ConstantlyAssigned(assigns, lo, hi, p.reg) && ActionOK(c, p)
    ensures PieceOK(c, segs, assigns, p)
  {
    hide ActionOK, AssignedTo;
  }

  // A value with several definitions: one action per block that [start, end) meets.
  method BlockActions(c: Context, segs: seq<Segment>, assigns: seq<Assign>, s: nat, start: Slot, end: Slot, reg: nat,
        done: seq<Piece>)
    returns (pieces: seq<Piece>)
    requires ContextOK(c, segs) && s < |segs| && segs[s].start <= start < end <= segs[s].stop
    requires c.mapping(reg, segs[s].valno) == Complex && Tiles(c, segs, assigns, done, start)
    requires ConstantlyAssigned(assigns, start, end, reg)
    ensures Tiles(c, segs, assigns, pieces, end) && done <= pieces
    ensures forall k :: |done| <= k < |pieces| ==> !pieces[k].action.Recalc?
  {
    hide ConstantlyAssigned, Tiles, PieceOK;
    pieces := done;
    var mbb := BlockOf(c, start);
    var blockStart, blockEnd := c.boundary(mbb), c.boundary(mbb + 1);
    ghost var at := start;
    // A stretch that begins inside a block begins with a definition there.
    if start != blockStart {
      var stop := if blockEnd < end then blockEnd else end;
      var p := Piece(start, stop, reg, segs[s].valno, DefInBlock(mbb, blockEnd <= end));
      PieceFits(c, segs, assigns, s, start, end, p);
      TilesMore(c, segs, assigns, pieces, start, p);
      pieces := pieces + [p];
      at := stop;
      mbb := mbb + 1;
      blockStart := blockEnd;
    }
    // Live-in blocks covered by the rest.
    while blockStart < end
      invariant mbb <= c.numBlocks && blockStart == c.boundary(mbb)
      invariant start <= at <= end && at == (if blockStart < end then blockStart else end)
      invariant Tiles(c, segs, assigns, pieces, at) && done <= pieces
      invariant forall k :: |done| <= k < |pieces| ==> !pieces[k].action.Recalc?
      decreases c.numBlocks - mbb
    {
      blockEnd := c.boundary(mbb + 1);
      var stop := if blockEnd < end then blockEnd else end;
      var liveOut := end >= blockEnd;
      var action := if blockStart == c.def(segs[s].valno) then DefInBlock(mbb, liveOut) else LiveIn(mbb, liveOut);
      var p := Piece(blockStart, stop, reg, segs[s].valno, action);
      PieceFits(c, segs, assigns, s, start, end, p);
      TilesMore(c, segs, assigns, pieces, at, p);
      pieces := pieces + [p];
      at := stop;
      blockStart := blockEnd;
      mbb := mbb + 1;
    }
  }

  // Some value has to be recomputed.
  predicate AnyRecalc(pieces: seq<Piece>) {
    exists k :: 0 <= k < |pieces| && pieces[k].action.Recalc?
  }

  // One stretch [start, end) of segment s, all of it assigned to reg.
  method TransferStretch(c: Context, segs: seq<Segment>, assigns: seq<Assign>, s: nat, start: Slot, end: Slot,
        reg: nat, done: seq<Piece>, before: bool)
    returns (pieces: seq<Piece>, skipped: bool)
    requires ContextOK(c, segs) && s < |segs| && segs[s].start <= start < end <= segs[s].stop
    requires Tiles(c, segs, assigns, done, start) && ConstantlyAssigned(assigns, start, end, reg)
    requires before <==> AnyRecalc(done)
    ensures Tiles(c, segs, assigns, pieces, end) && (skipped <==> AnyRecalc(pieces))
  {
    hide Tiles, ConstantlyAssigned, PieceOK, ContextOK;
    skipped := before;
    var valno := segs[s].valno;
    match c.mapping(reg, valno)
    case Complex =>
      pieces := BlockActions(c, segs, assigns, s, start, end, reg, done);
    case Simple(vni) =>
      var p := Piece(start, end, reg, valno, Blit(vni));
      PieceFits(c, segs, assigns, s, start, end, p);
      TilesMore(c, segs, assigns, done, start, p);
      pieces := done + [p];
      assert forall k :: 0 <= k < |done| ==> pieces[k] == done[k];
    case Forced =>
      var p := Piece(start, end, reg, valno, Recalc);
      PieceFits(c, segs, assigns, s, start, end, p);
      TilesMore(c, segs, assigns, done, start, p);
      pieces := done + [p];
      assert pieces[|done|].action.Recalc?;
      skipped := true;
  }

  // One parent segment.
  method TransferSegment(c: Context, segs: seq<Segment>, assigns: seq<Assign>, s: nat, from: nat, done: seq<Piece>,
        before: bool)
    returns (pieces: seq<Piece>, i: nat, skipped: bool)
    requires SegmentsOK(segs) && AssignOK(assigns) && ContextOK(c, segs) && s < |segs|
    requires AtAssign(assigns, segs[s].start, from) && Tiles(c, segs, assigns, done, segs[s].start)
    requires before <==> AnyRecalc(done)
    ensures Tiles(c, segs, assigns, pieces, segs[s].stop) && (skipped <==> AnyRecalc(pieces))
    ensures i <= |assigns| && forall j :: 0 <= j < i ==> assigns[j].stop <= segs[s].stop
  {
    hide Tiles, ConstantlyAssigned, ContextOK, AnyRecalc;
    pieces, i, skipped := done, from, before;
    var start := segs[s].start;
    while start != segs[s].stop
      invariant segs[s].start <= start <= segs[s].stop && i <= |assigns|
      invariant start < segs[s].stop ==> AtAssign(assigns, start, i)
      invariant forall j :: 0 <= j < i ==> assigns[j].stop <= start
      invariant Tiles(c, segs, assigns, pieces, start) && (skipped <==> AnyRecalc(pieces))
      decreases segs[s].stop - start
    {
      var reg, end := 0, segs[s].stop;
      ghost var at := i;
      if i == |assigns| {
      } else if assigns[i].start <= start {
        reg := assigns[i].reg;
        if assigns[i].stop < end {
          end := assigns[i].stop;
          i := i + 1;
        }
      } else {
        end := if end < assigns[i].start then end else assigns[i].start;
      }
      StretchAssigned(assigns, start, end, at, reg);
      pieces, skipped := TransferStretch(c, segs, assigns, s, start, end, reg, pieces, skipped);
      start := end;
    }
  }

  // Each live point of the parent is in exactly one piece, which has the value
  // live there and the interval assigned there; no piece has other points.
  ghost predicate HandedOverOnce(c: Context, segs: seq<Segment>, assigns: seq<Assign>, pieces: seq<Piece>) {
    && (forall k :: 0 <= k < |pieces| ==> PieceOK(c, segs, assigns, pieces[k]))
    && (forall x :: Live(segs, x) <==> Covered(pieces, x))
    && (forall k, l, x :: 0 <= k < |pieces| && 0 <= l < |pieces| && pieces[k].Has(x) && pieces[l].Has(x) ==> k == l)
  }

  lemma TiledIsHandedOver(c: Context, segs: seq<Segment>, assigns: seq<Assign>, pieces: seq<Piece>)
    requires SegmentsOK(segs) && |segs| > 0 && Tiles(c, segs, assigns, pieces, segs[|segs| - 1].stop)
    ensures HandedOverOnce(c, segs, assigns, pieces)
  {
    forall x ensures Live(segs, x) <==> Covered(pieces, x) {
      if Covered(pieces, x) {
        var k :| 0 <= k < |pieces| && pieces[k].Has(x);
        var i :| 0 <= i < |segs| && segs[i].start <= pieces[k].start && pieces[k].stop <= segs[i].stop;
        assert segs[i].Has(x);
      }
      if Live(segs, x) {
        var i :| 0 <= i < |segs| && segs[i].Has(x);
        assert x < segs[|segs| - 1].stop;
      }
    }
  }

  lemma NothingToHandOver(c: Context, assigns: seq<Assign>)
    ensures HandedOverOnce(c, [], assigns, []) && !AnyRecalc([])
  {
  }

  lemma NothingYet(c: Context, segs: seq<Segment>, assigns: seq<Assign>)
    requires SegmentsOK(segs) && |segs| > 0
    ensures Tiles(c, segs, assigns, [], segs[0].start) && !AnyRecalc([])
  {
    forall x | Live(segs, x) ensures segs[0].start <= x {
      var i :| 0 <= i < |segs| && segs[i].Has(x);
    }
  }

  lemma NoneBetween(segs: seq<Segment>, s: nat)
    requires SegmentsOK(segs) && 0 < s < |segs|
    ensures forall x :: Live(segs, x) ==> !(segs[s - 1].stop <= x < segs[s].start)
  {
    forall x | Live(segs, x) ensures !(segs[s - 1].stop <= x < segs[s].start) {
      var i :| 0 <= i < |segs| && segs[i].Has(x);
    }
  }

  // All of the parent: its segments in order, with one pass over the assignments.
  method TransferValues(c: Context, segs: seq<Segment>, assigns: seq<Assign>)
        returns (pieces: seq<Piece>, skipped: bool)
    requires SegmentsOK(segs) && AssignOK(assigns) && ContextOK(c, segs)
    ensures HandedOverOnce(c, segs, assigns, pieces) && (skipped <==> AnyRecalc(pieces))
  {
    hide Tiles, ContextOK, AssignOK, AnyRecalc;
    pieces, skipped := [], false;
    if segs == [] {
      NothingToHandOver(c, assigns);
      return;
    }
    var i: nat, s: nat := 0, 0;
    NothingYet(c, segs, assigns);
    while s < |segs|
      invariant s <= |segs| && i <= |assigns| && (skipped <==> AnyRecalc(pieces))
      invariant Tiles(c, segs, assigns, pieces, if s == 0 then segs[0].start else segs[s - 1].stop)
      invariant forall j :: 0 <= j < i ==> assigns[j].stop <= if s == 0 then segs[0].start else segs[s - 1].stop
    {
      if s > 0 {
        NoneBetween(segs, s);
        TilesGap(c, segs, assigns, pieces, segs[s - 1].stop, segs[s].start);
      }
      i := AdvanceTo(assigns, i, segs[s].start);
      pieces, i, skipped := TransferSegment(c, segs, assigns, s, i, pieces, skipped);
      s := s + 1;
    }
    TiledIsHandedOver(c, segs, assigns, pieces);
  }
}
