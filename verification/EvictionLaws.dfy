// What the eviction test lets through, said of weights, stages, cascade numbers
// and hints, one budget at a time.
module EvictionLaws {
  import opened Collections
  import opened GreedyState
  import opened GreedyFrames
  import opened Eviction

  // v cannot be spilled, and w can or has the larger order.
  predicate Pressing(t: Target, v: VReg, w: VReg) {
    !t.spillable(v) && !(!t.spillable(w) && t.numAllocatable(w) <= t.numAllocatable(v))
  }

  // w belongs to an older cascade than v, or than the one v would start.
  predicate Older(s: State, v: VReg, w: VReg)
    requires v in s.cascade && w in s.cascade
  {
    s.cascade[w] < (if s.cascade[v] != 0 then s.cascade[v] else s.next)
  }

  predicate Newer(s: State, v: VReg, w: VReg)
    requires v in s.cascade && w in s.cascade
  {
    s.cascade[w] > (if s.cascade[v] != 0 then s.cascade[v] else s.next)
  }

  // w is lighter, or stands on v's hint without a hint of its own there and may
  // still be split.
  predicate Outweighed(t: Target, s: State, v: VReg, isHint: bool, w: VReg)
    requires w in s.stage
  {
    || t.weight(w) < t.weight(v)
    || (isHint && s.stage[w] in {RSNew, RSAssign, RSSplit, RSSplit2} && !t.prefersPhys(w, s.phys))
  }

  predicate MayThrowOff(t: Target, s: State, v: VReg, isHint: bool, w: VReg)
    requires v in s.cascade && w in s.cascade && w in s.stage
  {
    && w !in s.fixed && s.stage[w] != RSDone
    && (if Pressing(t, v, w) then Older(s, v, w) || Newer(s, v, w)
        else Older(s, v, w) && Outweighed(t, s, v, isHint, w))
  }

  // Some register of w's order other than p is free of virtual interference.
  ghost predicate MovesOver(t: Target, phys: Assignment, w: VReg, p: PReg) {
    exists c :: c in t.order(w, phys) && c.reg != p && forall x :: x !in Conflicts(t, phys, w, c.reg)
  }

  // Evicting w for v does not just move the pressure about within one block.
  ghost predicate StaysLocal(t: Target, s: State, v: VReg, p: PReg, w: VReg) {
    !Pressing(t, v, w) && t.local(v) && t.local(w) && !(t.localReassign && MovesOver(t, s.phys, w, p))
  }

  // ---- one range in the way ----

  lemma {:induction false} FindReassignExactly(t: Target, phys: Assignment, w: VReg, prev: PReg, order: seq<Candidate>)
    requires forall c :: c in order ==> c.reg != 0
    ensures FindReassign(t, phys, w, prev, order) != 0 <==>
            exists c :: c in order && c.reg != prev && forall x :: x !in Conflicts(t, phys, w, c.reg)
  {
    hide Conflicts;
    if order != [] {
      assert forall c :: c in order <==> c == order[0] || c in order[1..];
      FindReassignExactly(t, phys, w, prev, order[1..]);
      if order[0].reg != prev && Conflicts(t, phys, w, order[0].reg) == {} {
        assert order[0] in order;
      }
    }
  }

  // canReassign looks for exactly that.
  lemma CanReassignExactly(t: Target, phys: Assignment, w: VReg, p: PReg)
    requires WellFormed(t)
    ensures CanReassign(t, phys, w, p) <==> MovesOver(t, phys, w, p)
  {
    hide Conflicts;
    FindReassignExactly(t, phys, w, p, t.order(w, phys));
  }

  lemma GateExactly(t: Target, s: State, v: VReg, p: PReg, isHint: bool, cheapOnly: bool, w: VReg)
    requires WellFormed(t) && v in s.cascade && w in s.cascade && w in s.stage
    ensures Gate(t, s, v, p, isHint, cheapOnly, w) <==>
            MayThrowOff(t, s, v, isHint, w) && !(cheapOnly && StaysLocal(t, s, v, p, w))
  {
    CanReassignExactly(t, s.phys, w, p);
    hide MovesOver, CanReassign, WellFormed;
  }

  // ---- what clearing a register costs ----

  lemma {:induction false} SetHintsBound(t: Target, s: State, v: VReg, ws: set<VReg>)
    requires v in s.cascade && ws <= s.cascade.Keys
    ensures SetHints(t, s, v, ws) <= 11 * |ws|
    ensures SetHints(t, s, v, ws) == 0 <==> forall w :: w in ws ==> HintCost(t, s, v, w) == 0
  {
    if w :| w in ws {
      SetHintsRemove(t, s, v, ws, w);
      SetHintsBound(t, s, v, ws - {w});
    }
  }

  lemma {:induction false} SetWeightBelow(t: Target, ws: set<VReg>, b: real)
    ensures SetWeight(t, ws) < b <==> 0.0 < b && forall w :: w in ws ==> t.weight(w) < b
  {
    if w :| w in ws {
      SetWeightRemove(t, ws, w);
      SetWeightBelow(t, ws - {w}, b);
    }
  }

  ghost predicate FewOnUnits(t: Target, phys: Assignment, v: VReg, p: PReg) {
    forall u :: u in t.units(p) ==> |Query(t, phys, v, u)| < EVICT_CUTOFF
  }

  lemma {:induction false} HintsBound(t: Target, s: State, v: VReg, p: PReg, n: nat)
    requires Known(s, v) && n <= |t.units(p)| && FewOnUnits(t, s.phys, v, p)
    ensures UnitsCost(t, s, v, t.units(p)[..n]).hints <= 99 * n
  {
    if n > 0 {
      hide Query;
      HintsBound(t, s, v, p, n - 1);
      UnitsCostStep(t, s, v, p, n - 1);
      assert t.units(p)[n - 1] in t.units(p);
      SetHintsBound(t, s, v, Query(t, s.phys, v, t.units(p)[n - 1]));
    }
  }

  lemma {:induction false} UnitsCostLimits(t: Target, s: State, v: VReg, p: PReg, n: nat, b: real)
    requires Known(s, v) && n <= |t.units(p)|
    ensures MetOn(t, s.phys, v, p, n) <= s.cascade.Keys
    ensures UnitsCost(t, s, v, t.units(p)[..n]).hints == 0 <==>
            forall w :: w in MetOn(t, s.phys, v, p, n) ==> HintCost(t, s, v, w) == 0
    ensures UnitsCost(t, s, v, t.units(p)[..n]).weight < b <==>
            0.0 < b && forall w :: w in MetOn(t, s.phys, v, p, n) ==> t.weight(w) < b
  {
    hide HintCost, UnitsCost, MetOn, WithUnit, Query;
    if n == 0 {
      NothingMetOn(t, s, v, p);
    } else {
      UnitsCostLimits(t, s, v, p, n - 1, b);
      UnitsCostStep(t, s, v, p, n - 1);
      var q := Query(t, s.phys, v, t.units(p)[n - 1]);
      MetOnStep(t, s.phys, v, p, n - 1);
      WithUnitLimits(t, s, v, UnitsCost(t, s, v, t.units(p)[..n - 1]), q, b);
    }
  }

  lemma NothingMetOn(t: Target, s: State, v: VReg, p: PReg)
    requires Known(s, v)
    ensures MetOn(t, s.phys, v, p, 0) == {} && UnitsCost(t, s, v, t.units(p)[..0]) == NO_COST
  {}

  lemma MetOnStep(t: Target, phys: Assignment, v: VReg, p: PReg, n: nat)
    requires n < |t.units(p)|
    ensures MetOn(t, phys, v, p, n + 1) == MetOn(t, phys, v, p, n) + Query(t, phys, v, t.units(p)[n])
  {
    hide Query;
  }

  lemma WithUnitLimits(t: Target, s: State, v: VReg, base: EvictionCost, q: set<VReg>, b: real)
    requires v in s.cascade && q <= s.cascade.Keys
    ensures WithUnit(t, s, v, base, q).hints == 0 <==>
            base.hints == 0 && forall w :: w in q ==> HintCost(t, s, v, w) == 0
    ensures WithUnit(t, s, v, base, q).weight < b <==>
            base.weight < b && 0.0 < b && forall w :: w in q ==> t.weight(w) < b
  {
    SetHintsBound(t, s, v, q);
    SetWeightBelow(t, q, b);
  }

  // The ranges of a set that have hints at their registers, and those of newer cascades.
  ghost function Hinted(t: Target, s: State, ws: set<VReg>): set<VReg> {
    set w | w in ws && t.prefersPhys(w, s.phys)
  }

  ghost function NewerOnes(s: State, v: VReg, ws: set<VReg>): set<VReg>
    requires v in s.cascade && ws <= s.cascade.Keys
  {
    set w | w in ws && Newer(s, v, w)
  }

  // A broken hint counts once, a broken cascade ten times.
  lemma {:induction false} SetHintsExactly(t: Target, s: State, v: VReg, ws: set<VReg>)
    requires v in s.cascade && ws <= s.cascade.Keys
    ensures SetHints(t, s, v, ws) == |Hinted(t, s, ws)| + 10 * |NewerOnes(s, v, ws)|
  {
    if w :| w in ws {
      SetHintsRemove(t, s, v, ws, w);
      SetHintsExactly(t, s, v, ws - {w});
      HintedOne(t, s, ws, w);
      NewerOne(s, v, ws, w);
      hide Hinted, NewerOnes, SetHints;
    }
  }

  lemma HintedOne(t: Target, s: State, ws: set<VReg>, w: VReg)
    requires w in ws
    ensures |Hinted(t, s, ws)| == |Hinted(t, s, ws - {w})| + if t.prefersPhys(w, s.phys) then 1 else 0
  {
    var rest := ws - {w};
    assert Hinted(t, s, ws) == if t.prefersPhys(w, s.phys) then Hinted(t, s, rest) + {w} else Hinted(t, s, rest);
  }

  lemma NewerOne(s: State, v: VReg, ws: set<VReg>, w: VReg)
    requires v in s.cascade && w in ws && ws <= s.cascade.Keys
    ensures |NewerOnes(s, v, ws)| == |NewerOnes(s, v, ws - {w})| + if Newer(s, v, w) then 1 else 0
  {
    hide Newer;
    var rest := ws - {w};
    assert NewerOnes(s, v, ws) == if Newer(s, v, w) then NewerOnes(s, v, rest) + {w} else NewerOnes(s, v, rest);
  }

  // The hints of the total are zero, and its weight is below b, if and only if
  // that is so of every range in the way.
  lemma TotalCostExactly(t: Target, s: State, v: VReg, p: PReg, b: real)
    requires Known(s, v)
    ensures TotalCost(t, s, v, p).hints == 0 <==>
            forall w :: w in Conflicts(t, s.phys, v, p) ==> !Newer(s, v, w) && !t.prefersPhys(w, s.phys)
    ensures TotalCost(t, s, v, p).weight < b <==>
            0.0 < b && forall w :: w in Conflicts(t, s.phys, v, p) ==> t.weight(w) < b
  {
    var n := |t.units(p)|;
    assert t.units(p)[..n] == t.units(p);
    UnitsCostLimits(t, s, v, p, n, b);
    MetAll(t, s.phys, v, p);
    ConflictsKnown(t, s.phys, v, p);
    hide Conflicts, MetOn, UnitsCost;
    assert forall w :: w in Conflicts(t, s.phys, v, p) ==>
                       (HintCost(t, s, v, w) == 0 <==> !Newer(s, v, w) && !t.prefersPhys(w, s.phys));
  }

  // ---- the three budgets ----

  ghost predicate Clearable(t: Target, s: State, v: VReg, p: PReg, isHint: bool)
    requires Known(s, v)
  {
    && !t.fixedInterference(v, p) && FewOnUnits(t, s.phys, v, p)
    && forall w :: w in Conflicts(t, s.phys, v, p) ==> MayThrowOff(t, s, v, isHint, w)
  }

  lemma EvictableParts(t: Target, s: State, v: VReg, p: PReg, isHint: bool, max: EvictionCost)
    requires WellFormed(t) && Known(s, v)
    ensures Evictable(t, s, v, p, isHint, max) <==>
            && Clearable(t, s, v, p, isHint)
            && (IsMax(max) || forall w :: w in Conflicts(t, s.phys, v, p) ==> !StaysLocal(t, s, v, p, w))
            && (Conflicts(t, s.phys, v, p) == {} || Less(TotalCost(t, s, v, p), max))
  {
    forall w | w in Conflicts(t, s.phys, v, p)
      ensures Gate(t, s, v, p, isHint, !IsMax(max), w) <==>
              MayThrowOff(t, s, v, isHint, w) && !(!IsMax(max) && StaysLocal(t, s, v, p, w))
    {
      GateExactly(t, s, v, p, isHint, !IsMax(max), w);
    }
    hide Gate, MayThrowOff, StaysLocal, TotalCost, Less, WellFormed, Query;
  }

  // Without a budget, a register can be cleared exactly when every range in the
  // way can be thrown off it.
  lemma UnlimitedExactly(t: Target, s: State, v: VReg, p: PReg, isHint: bool)
    requires WellFormed(t) && Known(s, v) && 99 * |t.units(p)| < MAX_HINTS
    ensures Evictable(t, s, v, p, isHint, MAX_COST) <==> Clearable(t, s, v, p, isHint)
  {
    EvictableParts(t, s, v, p, isHint, MAX_COST);
    if FewOnUnits(t, s.phys, v, p) {
      HintsBound(t, s, v, p, |t.units(p)|);
      assert t.units(p)[..|t.units(p)|] == t.units(p);
    }
    hide FewOnUnits, MayThrowOff, Conflicts;
  }

  // For a hint, with a budget of no broken hint.
  lemma HintEvictionExactly(t: Target, s: State, v: VReg, p: PReg)
    requires WellFormed(t) && Known(s, v)
    ensures Evictable(t, s, v, p, true, EvictionCost(1, 0.0)) <==>
            && Clearable(t, s, v, p, true)
            && forall w :: w in Conflicts(t, s.phys, v, p) ==>
                 !Newer(s, v, w) && !t.prefersPhys(w, s.phys) && !StaysLocal(t, s, v, p, w)
  {
    EvictableParts(t, s, v, p, true, EvictionCost(1, 0.0));
    TotalCostExactly(t, s, v, p, 0.0);
    hide Clearable, Conflicts, TotalCost, StaysLocal;
  }

  // For a cheaper register, with a budget of v's own weight.
  lemma CheapEvictionExactly(t: Target, s: State, v: VReg, p: PReg)
    requires WellFormed(t) && Known(s, v)
    ensures Evictable(t, s, v, p, false, EvictionCost(0, t.weight(v))) <==>
            && Clearable(t, s, v, p, false)
            && forall w :: w in Conflicts(t, s.phys, v, p) ==>
                 && !Newer(s, v, w) && !t.prefersPhys(w, s.phys) && t.weight(w) < t.weight(v)
                 && !StaysLocal(t, s, v, p, w)
  {
    EvictableParts(t, s, v, p, false, EvictionCost(0, t.weight(v)));
    TotalCostExactly(t, s, v, p, t.weight(v));
    LightExists(t, s, v, p);
    hide Clearable, Conflicts, TotalCost, StaysLocal;
  }

  // What tryFindEvictionCandidate may take: anything that can be thrown off when
  // the register may cost what it likes, else only what is lighter and breaks no hint.
  lemma CanTakeExactly(t: Target, s: State, v: VReg, q: PReg, costLimit: nat)
    requires WellFormed(t) && Known(s, v) && 99 * |t.units(q)| < MAX_HINTS
    ensures CanTake(t, s, v, q, costLimit) <==>
            && t.allocatable(costLimit, q, s.phys) && Clearable(t, s, v, q, false)
            && (costLimit >= 255 || forall w :: w in Conflicts(t, s.phys, v, q) ==>
                  && !Newer(s, v, w) && !t.prefersPhys(w, s.phys) && t.weight(w) < t.weight(v)
                  && !StaysLocal(t, s, v, q, w))
  {
    UnlimitedExactly(t, s, v, q, false);
    CheapEvictionExactly(t, s, v, q);
    hide Clearable, Conflicts, StaysLocal, Evictable;
  }

  lemma LightExists(t: Target, s: State, v: VReg, p: PReg)
    requires WellFormed(t)
    ensures (forall w :: w in Conflicts(t, s.phys, v, p) ==> t.weight(w) < t.weight(v)) ==>
              Conflicts(t, s.phys, v, p) == {} || 0.0 < t.weight(v)
  {
    hide Conflicts;
    if w :| w in Conflicts(t, s.phys, v, p) { assert t.weight(w) >= 0.0; }
  }

  // Whatever the budget, who is evicted is lighter, unless v presses or p is
  // v's hint.
  lemma EvictedAreLighter(t: Target, s: State, v: VReg, p: PReg, isHint: bool, max: EvictionCost, w: VReg)
    requires WellFormed(t) && Known(s, v) && Evictable(t, s, v, p, isHint, max) && w in Conflicts(t, s.phys, v, p)
    ensures Pressing(t, v, w) || (Older(s, v, w) && Outweighed(t, s, v, isHint, w))
    ensures w !in s.fixed && s.stage[w] != RSDone && (Older(s, v, w) || Newer(s, v, w))
    ensures t.spillable(v) && !isHint ==> t.weight(w) < t.weight(v)
  {
    hide Conflicts;
    EvictableParts(t, s, v, p, isHint, max);
  }
}
