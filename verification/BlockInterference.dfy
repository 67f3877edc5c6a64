// Interference of one physical register in one basic block: virtual segments,
// fixed segments and register masks, and the naive scan the cache must agree with.
module BlockInterference {
  import opened Collections
  import opened Segments

  type PReg = nat
  type Unit = nat

  // A register mask operand at a slot; slots come in groups of four per
  // instruction, the last of which is the dead slot.
  datatype Mask = Mask(slot: int, clobbers: PReg -> bool)

  // The last slot of the same instruction.
  function DeadSlot(s: int): (r: int)
    ensures r / 4 == s / 4 && r % 4 == 3
  {
    s - s % 4 + 3
  }

  datatype BlockInfo = BlockInfo(tag: nat, first: Option<int>, last: Option<int>)

  // What interferes in the function: blocks in layout order with their slot
  // ranges, the contents of every live interval union at every tag, fixed
  // ranges, and masks.
  datatype Function = Function(
    numBlocks: nat,
    position: nat -> nat,
    atPosition: nat -> nat,
    boundary: nat -> int,
    masks: nat -> seq<Mask>,
    regUnits: PReg -> seq<Unit>,
    contents: (Unit, nat) -> seq<Seg>,
    fixed: Unit -> seq<Seg>)

  function Start(f: Function, b: nat): int { f.boundary(f.position(b)) }
  function Stop(f: Function, b: nat): int { f.boundary(f.position(b) + 1) }

  ghost predicate FunctionOK(f: Function) {
    && (forall b: nat :: b < f.numBlocks ==> f.position(b) < f.numBlocks && f.atPosition(f.position(b)) == b)
    && (forall p: nat :: p < f.numBlocks ==> f.atPosition(p) < f.numBlocks && f.position(f.atPosition(p)) == p)
    && (forall p: nat, q: nat :: p < q <= f.numBlocks ==> f.boundary(p) < f.boundary(q))
    && (forall p: nat :: p <= f.numBlocks ==> f.boundary(p) % 4 == 0)
    && (forall u, tag :: Sorted(f.contents(u, tag)))
    && (forall u :: Sorted(f.fixed(u)))
    && (forall b: nat :: b < f.numBlocks ==> MasksOK(f.masks(b), Start(f, b), Stop(f, b)))
  }

  // Masks of a block lie inside it, in ascending order.
  ghost predicate MasksOK(masks: seq<Mask>, lo: int, hi: int) {
    && (forall i :: 0 <= i < |masks| ==> lo <= masks[i].slot < hi)
    && (forall i, j :: 0 <= i < j < |masks| ==> masks[i].slot <= masks[j].slot)
  }

  // ---- the naive scan ----

  // The first interference: smallest start of an overlapping segment or slot of
  // a clobbering mask.
  ghost predicate NaiveFirst(lists: seq<seq<Seg>>, masks: seq<Mask>, p: PReg, lo: int, hi: int, first: Option<int>) {
    && (first.None? ==> FirstOf(lists, lo, hi, None) && forall i :: 0 <= i < |masks| ==> !masks[i].clobbers(p))
    && (first.Some? ==>
          && (FirstOf(lists, lo, hi, first)
              || exists i :: 0 <= i < |masks| && masks[i].clobbers(p) && masks[i].slot == first.value)
          && (forall i :: 0 <= i < |masks| && masks[i].clobbers(p) ==> first.value <= masks[i].slot)
          && (forall k, j :: 0 <= k < |lists| && 0 <= j < |lists[k]| && Overlaps(lists[k][j], lo, hi) ==>
                first.value <= lists[k][j].start))
  }

  // The last interference; a mask counts as a dead definition.
  ghost predicate NaiveLast(lists: seq<seq<Seg>>, masks: seq<Mask>, p: PReg, lo: int, hi: int, last: Option<int>) {
    && (last.None? ==> LastOf(lists, lo, hi, None) && forall i :: 0 <= i < |masks| ==> !masks[i].clobbers(p))
    && (last.Some? ==>
          && (LastOf(lists, lo, hi, last)
              || exists i :: 0 <= i < |masks| && masks[i].clobbers(p) && DeadSlot(masks[i].slot) == last.value)
          && (forall i :: 0 <= i < |masks| && masks[i].clobbers(p) ==> DeadSlot(masks[i].slot) <= last.value)
          && (forall k, j :: 0 <= k < |lists| && 0 <= j < |lists[k]| && Overlaps(lists[k][j], lo, hi) ==>
                lists[k][j].stop <= last.value))
  }

  // Either end is present exactly when something interferes.
  lemma BothOrNeither(lists: seq<seq<Seg>>, masks: seq<Mask>, p: PReg, lo: int, hi: int, first: Option<int>,
        last: Option<int>)
    requires NaiveFirst(lists, masks, p, lo, hi, first) && NaiveLast(lists, masks, p, lo, hi, last)
    ensures first.Some? <==> last.Some?
  {}

  // The naive scan has one answer.
  lemma NaiveUnique(lists: seq<seq<Seg>>, masks: seq<Mask>, p: PReg, lo: int, hi: int, a: Option<int>, b: Option<int>)
    ensures NaiveFirst(lists, masks, p, lo, hi, a) && NaiveFirst(lists, masks, p, lo, hi, b) ==> a == b
    ensures NaiveLast(lists, masks, p, lo, hi, a) && NaiveLast(lists, masks, p, lo, hi, b) ==> a == b
  {}

  // ---- masks ----

  // The earliest clobbering mask before the segment interference, if any.
  method FirstWithMasks(masks: seq<Mask>, p: PReg, lo: int, hi: int, found: Option<int>, ghost lists: seq<seq<Seg>>)
    returns (first: Option<int>)
    requires MasksOK(masks, lo, hi) && FirstOf(lists, lo, hi, found)
    ensures NaiveFirst(lists, masks, p, lo, hi, first)
    ensures first.None? ==> found.None?
  {
    first := found;
    var limit := if first.Some? then first.value else hi;
    var i := 0;
    while i < |masks| && masks[i].slot < limit
      invariant 0 <= i <= |masks| && first == found
      invariant forall j :: 0 <= j < i ==> !masks[j].clobbers(p)
    {
      if masks[i].clobbers(p) {
        first := Some(masks[i].slot);
        return;
      }
      i := i + 1;
    }
  }

  lemma DeadMonotone(a: int, b: int)
    requires a <= b
    ensures DeadSlot(a) <= DeadSlot(b)
  {}

  method LastWithMasks(masks: seq<Mask>, p: PReg, lo: int, hi: int, found: Option<int>, ghost lists: seq<seq<Seg>>)
    returns (last: Option<int>)
    requires MasksOK(masks, lo, hi) && LastOf(lists, lo, hi, found) && lo % 4 == 0
    ensures NaiveLast(lists, masks, p, lo, hi, last)
  {
    last := found;
    var limit := if last.Some? then last.value else lo;
    var i := |masks|;
    while i > 0 && DeadSlot(masks[i - 1].slot) > limit
      invariant 0 <= i <= |masks| && last == found
      invariant forall j :: i <= j < |masks| ==> !masks[j].clobbers(p)
    {
      if masks[i - 1].clobbers(p) {
        last := Some(DeadSlot(masks[i - 1].slot));
        forall j | 0 <= j < i ensures DeadSlot(masks[j].slot) <= last.value {
          DeadMonotone(masks[j].slot, masks[i - 1].slot);
        }
        return;
      }
      i := i - 1;
    }
    forall j | 0 <= j < i ensures DeadSlot(masks[j].slot) <= limit && DeadSlot(masks[j].slot) > lo {
      DeadMonotone(masks[j].slot, masks[i - 1].slot);
      DeadMonotone(lo, masks[j].slot);
    }
  }
}
