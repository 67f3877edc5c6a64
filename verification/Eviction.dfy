// Who may evict whom, at what cost, and what an eviction does to the state.
module Eviction {
  import opened Collections
  import opened GreedyState
  import opened GreedyFrames

  // EvictInterferenceCutoff
  const EVICT_CUTOFF: nat := 10
  // The weight and hint count of an unlimited budget.
  const MAX_HINTS: nat := 0xFFFF_FFFF

  datatype EvictionCost = EvictionCost(hints: nat, weight: real)

  const NO_COST := EvictionCost(0, 0.0)
  const MAX_COST := EvictionCost(MAX_HINTS, 0.0)

  predicate IsMax(c: EvictionCost) { c.hints == MAX_HINTS }

  predicate Less(a: EvictionCost, b: EvictionCost) {
    a.hints < b.hints || (a.hints == b.hints && a.weight < b.weight)
  }

  function MaxReal(a: real, b: real): real { if a < b then b else a }

  // Every assigned range has a stage and a cascade number, and so has v.
  ghost predicate Known(s: State, v: VReg) {
    v in s.cascade && s.phys.Keys <= s.cascade.Keys && s.phys.Keys <= s.stage.Keys
  }

  function CascadeOrNext(s: State, v: VReg): nat
    requires v in s.cascade
  {
    if s.cascade[v] == 0 then s.next else s.cascade[v]
  }

  // An unspillable range may evict a spillable one, or one with a larger order.
  predicate Urgent(t: Target, v: VReg, w: VReg) {
    !t.spillable(v) && (t.spillable(w) || t.numAllocatable(v) < t.numAllocatable(w))
  }

  predicate ShouldEvict(t: Target, s: State, v: VReg, isHint: bool, w: VReg, breaksHint: bool)
    requires w in s.stage
  {
    (Rank(s.stage[w]) < Rank(RSSpill) && isHint && !breaksHint) || t.weight(v) > t.weight(w)
  }

  // The first register other than prev in the order that is free of virtual
  // interference with w, or NoRegister.
  function FindReassign(t: Target, phys: Assignment, w: VReg, prev: PReg, order: seq<Candidate>): PReg {
    if order == [] then 0
    else if order[0].reg != prev && Conflicts(t, phys, w, order[0].reg) == {} then order[0].reg
    else FindReassign(t, phys, w, prev, order[1..])
  }

  predicate CanReassign(t: Target, phys: Assignment, w: VReg, prev: PReg) {
    FindReassign(t, phys, w, prev, t.order(w, phys)) != 0
  }

  // The per-interference conditions, apart from the budget.
  predicate Gate(t: Target, s: State, v: VReg, p: PReg, isHint: bool, cheapOnly: bool, w: VReg)
    requires v in s.cascade && w in s.cascade && w in s.stage
  {
    var k := CascadeOrNext(s, v);
    && w !in s.fixed
    && s.stage[w] != RSDone
    && k != s.cascade[w]
    && (k < s.cascade[w] ==> Urgent(t, v, w))
    && (Urgent(t, v, w)
        || (ShouldEvict(t, s, v, isHint, w, t.prefersPhys(w, s.phys))
            && !(cheapOnly && t.local(v) && t.local(w)
                 && (!t.localReassign || !CanReassign(t, s.phys, w, p)))))
  }

  // Hints broken by evicting w once: a broken cascade is made expensive.
  function HintCost(t: Target, s: State, v: VReg, w: VReg): nat
    requires v in s.cascade && w in s.cascade
  {
    (if CascadeOrNext(s, v) < s.cascade[w] then 10 else 0) + (if t.prefersPhys(w, s.phys) then 1 else 0)
  }

  ghost function SetHints(t: Target, s: State, v: VReg, ws: set<VReg>): nat
    requires v in s.cascade && ws <= s.cascade.Keys
  {
    if ws == {} then 0 else
      var w :| w in ws;
      HintCost(t, s, v, w) + SetHints(t, s, v, ws - {w})
  }

  lemma {:induction false} SetHintsRemove(t: Target, s: State, v: VReg, ws: set<VReg>, x: VReg)
    requires v in s.cascade && ws <= s.cascade.Keys && x in ws
    ensures SetHints(t, s, v, ws) == HintCost(t, s, v, x) + SetHints(t, s, v, ws - {x})
    decreases ws
  {
    var w :| w in ws && SetHints(t, s, v, ws) == HintCost(t, s, v, w) + SetHints(t, s, v, ws - {w});
    if w != x {
      var rest := ws - {w} - {x};
      assert ws - {x} - {w} == rest;
      SetHintsRemove(t, s, v, ws - {w}, x);
      SetHintsRemove(t, s, v, ws - {x}, w);
    }
  }

  ghost function SetWeight(t: Target, ws: set<VReg>): (r: real)
    ensures r >= 0.0
  {
    if ws == {} then 0.0 else
      var w :| w in ws;
      MaxReal(SetWeight(t, ws - {w}), t.weight(w))
  }

  lemma {:induction false} SetWeightRemove(t: Target, ws: set<VReg>, x: VReg)
    requires x in ws
    ensures SetWeight(t, ws) == MaxReal(SetWeight(t, ws - {x}), t.weight(x))
    decreases ws
  {
    var w :| w in ws && SetWeight(t, ws) == MaxReal(SetWeight(t, ws - {w}), t.weight(w));
    if w != x {
      var rest := ws - {w} - {x};
      assert ws - {x} - {w} == rest;
      SetWeightRemove(t, ws - {w}, x);
      SetWeightRemove(t, ws - {x}, w);
      calc {
        SetWeight(t, ws);
        MaxReal(SetWeight(t, ws - {w}), t.weight(w));
        MaxReal(MaxReal(SetWeight(t, rest), t.weight(x)), t.weight(w));
        MaxReal(MaxReal(SetWeight(t, rest), t.weight(w)), t.weight(x));
        MaxReal(SetWeight(t, ws - {x}), t.weight(x));
      }
    }
  }

  // Cost of clearing the given units for v: hints add up unit by unit, so a
  // range met on two units counts twice; the weight is the largest met.
  ghost function UnitsCost(t: Target, s: State, v: VReg, us: seq<Unit>): (r: EvictionCost)
    requires Known(s, v)
    ensures r.weight >= 0.0
  {
    if us == [] then NO_COST else
      var rest := UnitsCost(t, s, v, us[..|us| - 1]);
      var q := Query(t, s.phys, v, us[|us| - 1]);
      EvictionCost(rest.hints + SetHints(t, s, v, q), MaxReal(rest.weight, SetWeight(t, q)))
  }

  ghost function TotalCost(t: Target, s: State, v: VReg, p: PReg): EvictionCost
    requires Known(s, v)
  {
    UnitsCost(t, s, v, t.units(p))
  }

  // What canEvictInterferenceBasedOnCost decides.
  ghost predicate Evictable(t: Target, s: State, v: VReg, p: PReg, isHint: bool, max: EvictionCost)
    requires Known(s, v)
  {
    && !t.fixedInterference(v, p)
    && (forall u :: u in t.units(p) ==> |Query(t, s.phys, v, u)| < EVICT_CUTOFF)
    && (forall w :: w in Conflicts(t, s.phys, v, p) ==> Gate(t, s, v, p, isHint, !IsMax(max), w))
    && (Conflicts(t, s.phys, v, p) == {} || Less(TotalCost(t, s, v, p), max))
  }

  // ---- costs only grow ----

  ghost predicate AtMost(a: EvictionCost, b: EvictionCost) {
    a.hints <= b.hints && a.weight <= b.weight
  }

  lemma {:induction false} SetCostGrows(t: Target, s: State, v: VReg, small: set<VReg>, big: set<VReg>)
    requires v in s.cascade && small <= big <= s.cascade.Keys
    ensures SetHints(t, s, v, small) <= SetHints(t, s, v, big)
    ensures SetWeight(t, small) <= SetWeight(t, big)
    decreases big
  {
    if x :| x in big && x !in small {
      SetHintsRemove(t, s, v, big, x);
      SetWeightRemove(t, big, x);
      SetCostGrows(t, s, v, small, big - {x});
    } else {
      assert small == big;
    }
  }

  lemma {:induction false} UnitsCostGrows(t: Target, s: State, v: VReg, us: seq<Unit>, i: nat)
    requires Known(s, v) && i <= |us|
    ensures AtMost(UnitsCost(t, s, v, us[..i]), UnitsCost(t, s, v, us))
    decreases |us| - i
  {
    if i == |us| {
      assert us[..i] == us;
    } else {
      var longer := us[..i + 1];
      assert longer[..|longer| - 1] == us[..i];
      UnitsCostGrows(t, s, v, us, i + 1);
    }
  }

  // A range in v's way on p sits on one of p's units.
  lemma ConflictOnUnit(t: Target, phys: Assignment, v: VReg, p: PReg, w: VReg)
    ensures w in Conflicts(t, phys, v, p) <==>
            exists i :: 0 <= i < |t.units(p)| && w in Query(t, phys, v, t.units(p)[i])
  {
    if w in Conflicts(t, phys, v, p) {
      assert Aliases(t, p, phys[w]);
      var u :| u in t.units(p) && u in t.units(phys[w]);
      var i :| 0 <= i < |t.units(p)| && t.units(p)[i] == u;
      assert w in Query(t, phys, v, t.units(p)[i]);
    }
  }

  // Who is in the way on the first n units.
  ghost function MetOn(t: Target, phys: Assignment, v: VReg, p: PReg, n: nat): set<VReg>
    requires n <= |t.units(p)|
  {
    if n == 0 then {} else MetOn(t, phys, v, p, n - 1) + Query(t, phys, v, t.units(p)[n - 1])
  }

  lemma {:induction false} MetIs(t: Target, phys: Assignment, v: VReg, p: PReg, n: nat, w: VReg)
    requires n <= |t.units(p)|
    ensures w in MetOn(t, phys, v, p, n) <==> exists j :: 0 <= j < n && w in Query(t, phys, v, t.units(p)[j])
  {
    if n > 0 { MetIs(t, phys, v, p, n - 1, w); }
  }

  lemma MetAll(t: Target, phys: Assignment, v: VReg, p: PReg)
    ensures MetOn(t, phys, v, p, |t.units(p)|) == Conflicts(t, phys, v, p)
  {
    forall w ensures w in MetOn(t, phys, v, p, |t.units(p)|) <==> w in Conflicts(t, phys, v, p) {
      MetIs(t, phys, v, p, |t.units(p)|, w);
      ConflictOnUnit(t, phys, v, p, w);
    }
  }

  // ---- canEvictInterferenceBasedOnCost ----

  // The cost base after the ranges q of one more unit.
  ghost function WithUnit(t: Target, s: State, v: VReg, base: EvictionCost, q: set<VReg>): EvictionCost
    requires v in s.cascade && q <= s.cascade.Keys
  {
    EvictionCost(base.hints + SetHints(t, s, v, q), MaxReal(base.weight, SetWeight(t, q)))
  }

  lemma WithNobody(t: Target, s: State, v: VReg, base: EvictionCost)
    requires v in s.cascade && base.weight >= 0.0
    ensures WithUnit(t, s, v, base, {}) == base
  {
  }

  lemma WithUnitAdd(t: Target, s: State, v: VReg, base: EvictionCost, done: set<VReg>, w: VReg)
    requires v in s.cascade && done <= s.cascade.Keys && w in s.cascade && w !in done
    ensures WithUnit(t, s, v, base, done + {w})
         == EvictionCost(WithUnit(t, s, v, base, done).hints + HintCost(t, s, v, w),
                         MaxReal(WithUnit(t, s, v, base, done).weight, t.weight(w)))
  {
    hide SetHints, SetWeight, HintCost;
    SetHintsRemove(t, s, v, done + {w}, w);
    SetWeightRemove(t, done + {w}, w);
    assert done + {w} - {w} == done;
  }

  // Gate, in the order the source tests it; refuses also when over budget.
  method PassesGate(t: Target, s: State, v: VReg, p: PReg, isHint: bool, max: EvictionCost, w: VReg, base: EvictionCost)
    returns (ok: bool, cost: EvictionCost)
    requires Known(s, v) && w in s.phys
    ensures ok <==> Gate(t, s, v, p, isHint, !IsMax(max), w) && Less(cost, max)
    ensures Gate(t, s, v, p, isHint, !IsMax(max), w) ==>
              cost == EvictionCost(base.hints + HintCost(t, s, v, w), MaxReal(base.weight, t.weight(w)))
  {
    cost := base;
    if w in s.fixed { return false, cost; }
    if s.stage[w] == RSDone { return false, cost; }
    var urgent := Urgent(t, v, w);
    var k := CascadeOrNext(s, v);
    if k == s.cascade[w] { return false, cost; }
    if k < s.cascade[w] {
      if !urgent { return false, cost; }
      cost := EvictionCost(cost.hints + 10, cost.weight);
    }
    var breaksHint := t.prefersPhys(w, s.phys);
    cost := EvictionCost(cost.hints + (if breaksHint then 1 else 0), MaxReal(cost.weight, t.weight(w)));
    if !Less(cost, max) { return false, cost; }
    if urgent { return true, cost; }
    if !ShouldEvict(t, s, v, isHint, w, breaksHint) { return false, cost; }
    if !IsMax(max) && t.local(v) && t.local(w) && (!t.localReassign || !CanReassign(t, s.phys, w, p)) {
      return false, cost;
    }
    ok := true;
  }

  // The interferences of one unit, in any order.
  method ClearUnit(t: Target, s: State, v: VReg, p: PReg, isHint: bool, max: EvictionCost, q: set<VReg>,
        base: EvictionCost)
    returns (ok: bool, cost: EvictionCost, ghost bad: VReg)
    requires Known(s, v) && q <= s.phys.Keys && base.weight >= 0.0
    ensures ok ==> forall w :: w in q ==> Gate(t, s, v, p, isHint, !IsMax(max), w)
    ensures ok ==> cost == WithUnit(t, s, v, base, q)
    ensures ok && q != {} ==> Less(cost, max)
    ensures !ok ==> bad in q && (!Gate(t, s, v, p, isHint, !IsMax(max), bad)
                                 || !Less(WithUnit(t, s, v, base, q), max))
  {
    hide Gate, WithUnit, Less, HintCost;
    cost := base;
    bad := v;
    var done: set<VReg> := {};
    WithNobody(t, s, v, base);
    while done < q
      invariant done <= q
      invariant cost == WithUnit(t, s, v, base, done)
      invariant forall w :: w in done ==> Gate(t, s, v, p, isHint, !IsMax(max), w)
      invariant done != {} ==> Less(cost, max)
      decreases q - done
    {
      var w :| w in q && w !in done;
      var good, now := PassesGate(t, s, v, p, isHint, max, w, cost);
      WithUnitAdd(t, s, v, base, done, w);
      if !good {
        OverBudget(t, s, v, base, done + {w}, q, max);
        return false, now, w;
      }
      cost := now;
      done := done + {w};
    }
    assert done == q;
    ok := true;
  }

  lemma OverBudget(t: Target, s: State, v: VReg, base: EvictionCost, done: set<VReg>, q: set<VReg>, max: EvictionCost)
    requires v in s.cascade && done <= q <= s.cascade.Keys
    ensures !Less(WithUnit(t, s, v, base, done), max) ==> !Less(WithUnit(t, s, v, base, q), max)
  {
    SetCostGrows(t, s, v, done, q);
  }

  lemma FixedRefusal(t: Target, s: State, v: VReg, p: PReg, isHint: bool, max: EvictionCost)
    requires Known(s, v)
    ensures CheckInterference(t, s.phys, v, p) == IKFixed <==> t.fixedInterference(v, p)
    ensures t.fixedInterference(v, p) ==> !Evictable(t, s, v, p, isHint, max)
  {
    hide Gate, Query, Conflicts, TotalCost;
  }

  lemma NoUnits(t: Target, s: State, v: VReg, p: PReg, isHint: bool, cheapOnly: bool)
    requires Known(s, v)
    ensures UnitsCost(t, s, v, t.units(p)[..0]) == NO_COST
    ensures UnitsClear(t, s, v, p, isHint, cheapOnly, 0) && NothingMet(t, s, v, p, 0)
  {
  }

  lemma UnitsCostStep(t: Target, s: State, v: VReg, p: PReg, i: nat)
    requires Known(s, v) && i < |t.units(p)|
    ensures Query(t, s.phys, v, t.units(p)[i]) <= s.cascade.Keys
    ensures UnitsCost(t, s, v, t.units(p)[..i + 1])
         == WithUnit(t, s, v, UnitsCost(t, s, v, t.units(p)[..i]), Query(t, s.phys, v, t.units(p)[i]))
  {
    assert t.units(p)[..i + 1][..i] == t.units(p)[..i];
  }

  lemma QueryKnown(t: Target, phys: Assignment, v: VReg, u: Unit)
    ensures Query(t, phys, v, u) <= phys.Keys
  {
  }

  lemma TotalIsUnits(t: Target, s: State, v: VReg, p: PReg)
    requires Known(s, v)
    ensures TotalCost(t, s, v, p) == UnitsCost(t, s, v, t.units(p))
  {
  }

  lemma TooMany(t: Target, s: State, v: VReg, p: PReg, isHint: bool, max: EvictionCost, i: nat)
    requires Known(s, v) && i < |t.units(p)| && |Query(t, s.phys, v, t.units(p)[i])| >= EVICT_CUTOFF
    ensures !Evictable(t, s, v, p, isHint, max)
  {
    assert t.units(p)[i] in t.units(p);
    hide Query, Gate, UnitsCost;
  }

  // May every interference between v and p be evicted within the budget?
  method CanEvictInterferenceBasedOnCost(t: Target, s: State, v: VReg, p: PReg, isHint: bool, max: EvictionCost)
    returns (ok: bool, cost: EvictionCost)
    requires Known(s, v)
    ensures ok <==> Evictable(t, s, v, p, isHint, max)
    ensures cost == if ok then TotalCost(t, s, v, p) else max
  {
    hide CheckInterference, Gate, Evictable, UnitsClear, NothingMet, UnitsCost, TotalCost, Query, Less, Conflicts,
        WithUnit;
    FixedRefusal(t, s, v, p, isHint, max);
    if CheckInterference(t, s.phys, v, p) == IKFixed { return false, max; }
    var us := t.units(p);
    cost := NO_COST;
    ghost var met := false;
    NoUnits(t, s, v, p, isHint, !IsMax(max));
    for i := 0 to |us|
      invariant cost == UnitsCost(t, s, v, us[..i]) && cost.weight >= 0.0
      invariant UnitsClear(t, s, v, p, isHint, !IsMax(max), i)
      invariant if met then Less(cost, max) else NothingMet(t, s, v, p, i)
    {
      var q := Query(t, s.phys, v, us[i]);
      if |q| >= EVICT_CUTOFF {
        TooMany(t, s, v, p, isHint, max, i);
        return false, max;
      }
      QueryKnown(t, s.phys, v, us[i]);
      UnitsCostStep(t, s, v, p, i);
      var clear, now, bad := ClearUnit(t, s, v, p, isHint, max, q, cost);
      if !clear {
        if Gate(t, s, v, p, isHint, !IsMax(max), bad) {
          CostRefusal(t, s, v, p, isHint, max, i, bad);
        } else {
          GateRefusal(t, s, v, p, isHint, max, i, bad);
        }
        return false, max;
      }
      UnitsClearStep(t, s, v, p, isHint, !IsMax(max), i);
      if q != {} { met := true; } else { WithNobody(t, s, v, cost); }
      cost := now;
    }
    assert us[..|us|] == us;
    TotalIsUnits(t, s, v, p);
    ClearIsEvictable(t, s, v, p, isHint, max);
    ok := true;
  }

  // The part of Evictable that concerns the first n units.
  ghost predicate UnitsClear(t: Target, s: State, v: VReg, p: PReg, isHint: bool, cheapOnly: bool, n: nat)
    requires Known(s, v) && n <= |t.units(p)|
  {
    forall j :: 0 <= j < n ==>
      && |Query(t, s.phys, v, t.units(p)[j])| < EVICT_CUTOFF
      && (forall w :: w in Query(t, s.phys, v, t.units(p)[j]) ==> Gate(t, s, v, p, isHint, cheapOnly, w))
  }

  ghost predicate NothingMet(t: Target, s: State, v: VReg, p: PReg, n: nat)
    requires n <= |t.units(p)|
  {
    forall j :: 0 <= j < n ==> Query(t, s.phys, v, t.units(p)[j]) == {}
  }

  lemma UnitsClearStep(t: Target, s: State, v: VReg, p: PReg, isHint: bool, cheapOnly: bool, n: nat)
    requires Known(s, v) && n < |t.units(p)| && UnitsClear(t, s, v, p, isHint, cheapOnly, n)
    requires |Query(t, s.phys, v, t.units(p)[n])| < EVICT_CUTOFF
    requires forall w :: w in Query(t, s.phys, v, t.units(p)[n]) ==> Gate(t, s, v, p, isHint, cheapOnly, w)
    ensures UnitsClear(t, s, v, p, isHint, cheapOnly, n + 1)
    ensures NothingMet(t, s, v, p, n) && Query(t, s.phys, v, t.units(p)[n]) == {} ==> NothingMet(t, s, v, p, n + 1)
  {}

  lemma ClearIsEvictable(t: Target, s: State, v: VReg, p: PReg, isHint: bool, max: EvictionCost)
    requires Known(s, v) && !t.fixedInterference(v, p)
    requires UnitsClear(t, s, v, p, isHint, !IsMax(max), |t.units(p)|)
    requires Less(TotalCost(t, s, v, p), max) || NothingMet(t, s, v, p, |t.units(p)|)
    ensures Evictable(t, s, v, p, isHint, max)
  {
    forall w | w in Conflicts(t, s.phys, v, p)
      ensures Gate(t, s, v, p, isHint, !IsMax(max), w) && Less(TotalCost(t, s, v, p), max)
    {
      ConflictOnUnit(t, s.phys, v, p, w);
    }
  }

  // Refusing on one unit refuses the register ...
  lemma GateRefusal(t: Target, s: State, v: VReg, p: PReg, isHint: bool, max: EvictionCost, i: nat, bad: VReg)
    requires Known(s, v) && i < |t.units(p)| && bad in Query(t, s.phys, v, t.units(p)[i])
    requires !Gate(t, s, v, p, isHint, !IsMax(max), bad)
    ensures !Evictable(t, s, v, p, isHint, max)
  {
    ConflictOnUnit(t, s.phys, v, p, bad);
  }

  // ... because the cost of the units tried so far is at most the cost of all.
  lemma CostRefusal(t: Target, s: State, v: VReg, p: PReg, isHint: bool, max: EvictionCost, i: nat, bad: VReg)
    requires Known(s, v) && i < |t.units(p)| && bad in Query(t, s.phys, v, t.units(p)[i])
    requires !Less(UnitsCost(t, s, v, t.units(p)[..i + 1]), max)
    ensures !Evictable(t, s, v, p, isHint, max)
  {
    OverTotal(t, s, v, p, max, i + 1);
    ConflictOnUnit(t, s.phys, v, p, bad);
  }

  lemma OverTotal(t: Target, s: State, v: VReg, p: PReg, max: EvictionCost, n: nat)
    requires Known(s, v) && n <= |t.units(p)| && !Less(UnitsCost(t, s, v, t.units(p)[..n]), max)
    ensures !Less(TotalCost(t, s, v, p), max)
  {
    UnitsCostGrows(t, s, v, t.units(p), n);
  }

  // Evicting c for v respects fixed ranges, spill products and cascades.
  ghost predicate MayEvict(t: Target, s: State, v: VReg, c: set<VReg>)
    requires v in s.cascade && c <= s.cascade.Keys && c <= s.stage.Keys
  {
    forall w :: w in c ==>
      w !in s.fixed && s.stage[w] != RSDone && (s.cascade[w] < CascadeOrNext(s, v) || Urgent(t, v, w))
  }

  // ---- tryFindEvictionCandidate ----

  // Evictable within the budget, and still evictable when only cheap evictions
  // of other blocks' ranges are wanted.
  ghost predicate Qualifies(t: Target, s: State, v: VReg, q: PReg, costLimit: nat, budget: EvictionCost)
    requires Known(s, v)
  {
    && t.allocatable(costLimit, q, s.phys)
    && Evictable(t, s, v, q, false, budget)
    && (forall w :: w in Conflicts(t, s.phys, v, q) ==> Gate(t, s, v, q, false, true, w))
  }

  function StartBudget(t: Target, v: VReg, costLimit: nat): EvictionCost {
    if costLimit < 255 then EvictionCost(0, t.weight(v)) else MAX_COST
  }

  // Evicting nothing costs nothing.
  lemma {:induction false} EmptyCost(t: Target, s: State, v: VReg, p: PReg, n: nat)
    requires Known(s, v) && Conflicts(t, s.phys, v, p) == {} && n <= |t.units(p)|
    ensures UnitsCost(t, s, v, t.units(p)[..n]) == NO_COST
  {
    if n > 0 {
      EmptyCost(t, s, v, p, n - 1);
      assert t.units(p)[..n][..n - 1] == t.units(p)[..n - 1];
      var q := Query(t, s.phys, v, t.units(p)[n - 1]);
      if w :| w in q {
        ConflictOnUnit(t, s.phys, v, p, w);
      }
    }
  }

  // The hints at the front of the order.
  function Hints(order: seq<Candidate>): (n: nat)
    ensures n <= |order| && (forall i :: 0 <= i < n ==> order[i].hint) && (n < |order| ==> !order[n].hint)
  {
    if order == [] || !order[0].hint then 0 else 1 + Hints(order[1..])
  }

  // Where the order ends when only that many registers behind the hints are wanted.
  function LimitEnd(order: seq<Candidate>, limit: nat): (n: nat)
    ensures Hints(order) <= n <= |order| && (n == |order| || n == Hints(order) + limit)
  {
    if Hints(order) + limit < |order| then Hints(order) + limit else |order|
  }

  // q is worth trying at that cost limit and may be cleared for v.
  ghost predicate CanTake(t: Target, s: State, v: VReg, q: PReg, costLimit: nat)
    requires Known(s, v)
  {
    t.allocatable(costLimit, q, s.phys) && Evictable(t, s, v, q, false, StartBudget(t, v, costLimit))
  }

  ghost predicate TakesAmong(t: Target, s: State, v: VReg, order: seq<Candidate>, costLimit: nat, n: nat)
    requires Known(s, v) && n <= |order|
  {
    exists j :: 0 <= j < n && CanTake(t, s, v, order[j].reg, costLimit)
  }

  // The order up to its limit has a register that may be cleared for v.
  ghost predicate SomeEvictable(t: Target, s: State, v: VReg, order: seq<Candidate>, costLimit: nat)
    requires Known(s, v)
  {
    t.orderLimit(v, costLimit, s.phys).Some?
    && TakesAmong(t, s, v, order, costLimit, LimitEnd(order, t.orderLimit(v, costLimit, s.phys).value))
  }

  // order[n] is the first register of the order that may be cleared for v.
  ghost predicate FirstTake(t: Target, s: State, v: VReg, order: seq<Candidate>, costLimit: nat, n: nat)
    requires Known(s, v)
  {
    n < |order| && CanTake(t, s, v, order[n].reg, costLimit) && !TakesAmong(t, s, v, order, costLimit, n)
  }

  lemma TakesFirst(t: Target, s: State, v: VReg, order: seq<Candidate>, costLimit: nat, n: nat)
    requires Known(s, v) && n < |order|
    requires CanTake(t, s, v, order[n].reg, costLimit) && !TakesAmong(t, s, v, order, costLimit, n)
    ensures forall j: nat :: FirstTake(t, s, v, order, costLimit, j) ==> j == n
  {
    hide CanTake;
    forall j: nat | FirstTake(t, s, v, order, costLimit, j) ensures j == n {
      if n < j { TakesOne(t, s, v, order, costLimit, n, j); }
      if j < n { TakesOne(t, s, v, order, costLimit, j, n); }
    }
  }

  lemma NotFirst(t: Target, s: State, v: VReg, order: seq<Candidate>, costLimit: nat, n: nat)
    requires Known(s, v) && n < |order| && !CanTake(t, s, v, order[n].reg, costLimit)
    ensures !FirstTake(t, s, v, order, costLimit, n)
  {}

  lemma TakesOne(t: Target, s: State, v: VReg, order: seq<Candidate>, costLimit: nat, n: nat, end: nat)
    requires Known(s, v) && n < end <= |order| && CanTake(t, s, v, order[n].reg, costLimit)
    ensures TakesAmong(t, s, v, order, costLimit, end)
  {}

  lemma TakesNone(t: Target, s: State, v: VReg, order: seq<Candidate>, costLimit: nat)
    requires Known(s, v)
    ensures !TakesAmong(t, s, v, order, costLimit, 0)
  {}

  lemma TakesNext(t: Target, s: State, v: VReg, order: seq<Candidate>, costLimit: nat, n: nat)
    requires Known(s, v) && n < |order|
    requires !TakesAmong(t, s, v, order, costLimit, n) && !CanTake(t, s, v, order[n].reg, costLimit)
    ensures !TakesAmong(t, s, v, order, costLimit, n + 1)
  {
    hide CanTake;
  }

  // A smaller budget is stricter.
  lemma BudgetShrinks(t: Target, s: State, v: VReg, q: PReg, small: EvictionCost, big: EvictionCost)
    requires Known(s, v) && Evictable(t, s, v, q, false, small)
    requires !Less(big, small) && big.hints <= MAX_HINTS
    ensures Evictable(t, s, v, q, false, big)
  {
    hide Query, UnitsCost;
    forall w | w in Conflicts(t, s.phys, v, q) ensures Gate(t, s, v, q, false, !IsMax(big), w) {
      assert Gate(t, s, v, q, false, !IsMax(small), w);
    }
  }

  // The first seen candidates of the order were considered: all up to the limit,
  // or all up to a hint that was taken. The register taken can be cleared for v,
  // no qualifying candidate is cheaper, and a hint at the front that can be
  // cleared is not passed over.
  ghost predicate EvictChoice(t: Target, s: State, v: VReg, order: seq<Candidate>, costLimit: nat, best: PReg,
                              seen: nat)
    requires Known(s, v)
  {
    var limit := t.orderLimit(v, costLimit, s.phys);
    && seen <= |order|
    && (best != 0 ==> CanTake(t, s, v, best, costLimit) && exists j :: 0 <= j < seen && order[j].reg == best)
    && CheapestOf(t, s, v, order, costLimit, seen, best != 0, TotalCost(t, s, v, best))
    && (limit.None? ==> best == 0 && seen == 0)
    && (limit.Some? ==>
          && (seen == LimitEnd(order, limit.value)
              || (0 < seen <= LimitEnd(order, limit.value) && order[seen - 1] == Candidate(best, true)))
          && forall j :: 0 <= j < Hints(order) && FirstTake(t, s, v, order, costLimit, j) ==> best == order[j].reg)
  }

  method TryFindEvictionCandidate(t: Target, s: State, v: VReg, order: seq<Candidate>, costLimit: nat)
    returns (best: PReg, ghost seen: nat)
    requires Known(s, v) && t.weight(v) >= 0.0 && (forall i :: 0 <= i < |order| ==> order[i].reg != 0)
    ensures best != 0 <==> SomeEvictable(t, s, v, order, costLimit)
    ensures EvictChoice(t, s, v, order, costLimit, best, seen)
  {
    hide Conflicts, Evictable, Qualifies, TotalCost, CheapestOf, Less;
    best, seen := 0, 0;
    var limit := t.orderLimit(v, costLimit, s.phys);
    CheapestOfNone(t, s, v, order, costLimit);
    if limit.None? { return; }
    var end := LimitEnd(order, limit.value);
    var budget := StartBudget(t, v, costLimit);
    ghost var start := budget;
    TakesNone(t, s, v, order, costLimit);
    BudgetSame(start);
    for i := 0 to end
      invariant seen == i && !Less(start, budget)
      invariant best == 0 ==> budget == start && !TakesAmong(t, s, v, order, costLimit, i)
      invariant best != 0 ==> budget == TotalCost(t, s, v, best) && exists j :: 0 <= j < i && order[j].reg == best
      invariant best != 0 ==> CanTake(t, s, v, best, costLimit) && TakesAmong(t, s, v, order, costLimit, end)
      invariant CheapestOf(t, s, v, order, costLimit, i, best != 0, budget)
      invariant i <= Hints(order) ==> best == 0
      invariant forall j :: 0 <= j < Hints(order) && j < i ==> !FirstTake(t, s, v, order, costLimit, j)
    {
      hide CanTake, TakesAmong, FirstTake;
      assert i < Hints(order) ==> order[i].hint;
      seen := i + 1;
      var q := order[i].reg;
      var ok, cost := false, budget;
      if t.allocatable(costLimit, q, s.phys) {
        ok, cost := CanEvictInterferenceBasedOnCost(t, s, v, q, false, budget);
      }
      if ok {
        AcceptCandidate(t, s, v, order, costLimit, i, best != 0, budget);
        AcceptBudget(t, s, v, q, costLimit, budget);
        TakesOne(t, s, v, order, costLimit, i, end);
        if best == 0 { TakesFirst(t, s, v, order, costLimit, i); }
        best, budget := q, cost;
        assert order[i].reg == best;
        if order[i].hint { break; }
      } else {
        if best == 0 {
          RefusedAtStart(t, s, v, q, costLimit);
          TakesNext(t, s, v, order, costLimit, i);
          NotFirst(t, s, v, order, costLimit, i);
        }
        SkipCandidate(t, s, v, order, costLimit, i, best != 0, budget);
      }
    }
    if best == 0 { NothingCheaper(t, s, v, order, costLimit, seen, budget, TotalCost(t, s, v, best)); }
  }

  lemma BudgetSame(b: EvictionCost)
    ensures !Less(b, b)
  {}

  // A candidate within the budget of the moment is within the budget of the start.
  lemma AcceptBudget(t: Target, s: State, v: VReg, q: PReg, costLimit: nat, budget: EvictionCost)
    requires Known(s, v) && t.weight(v) >= 0.0 && t.allocatable(costLimit, q, s.phys)
    requires Evictable(t, s, v, q, false, budget) && !Less(StartBudget(t, v, costLimit), budget)
    ensures CanTake(t, s, v, q, costLimit) && !Less(StartBudget(t, v, costLimit), TotalCost(t, s, v, q))
  {
    BudgetShrinks(t, s, v, q, budget, StartBudget(t, v, costLimit));
    if Conflicts(t, s.phys, v, q) == {} {
      EmptyCost(t, s, v, q, |t.units(q)|);
      assert t.units(q)[..|t.units(q)|] == t.units(q);
    }
  }

  lemma RefusedAtStart(t: Target, s: State, v: VReg, q: PReg, costLimit: nat)
    requires Known(s, v)
    requires !(t.allocatable(costLimit, q, s.phys) && Evictable(t, s, v, q, false, StartBudget(t, v, costLimit)))
    ensures !CanTake(t, s, v, q, costLimit)
  {}

  lemma CheapestOfNone(t: Target, s: State, v: VReg, order: seq<Candidate>, costLimit: nat)
    requires Known(s, v)
    ensures forall c: EvictionCost :: CheapestOf(t, s, v, order, costLimit, 0, false, c)
  {}

  lemma NothingCheaper(t: Target, s: State, v: VReg, order: seq<Candidate>, costLimit: nat, n: nat,
        a: EvictionCost, b: EvictionCost)
    requires Known(s, v) && n <= |order| && CheapestOf(t, s, v, order, costLimit, n, false, a)
    ensures CheapestOf(t, s, v, order, costLimit, n, false, b)
  {}

  // No qualifying candidate among the first n is cheaper than the budget.
  ghost predicate CheapestOf(t: Target, s: State, v: VReg, order: seq<Candidate>, costLimit: nat, n: nat,
                             found: bool, budget: EvictionCost)
    requires Known(s, v) && n <= |order|
  {
    forall j :: 0 <= j < n && Qualifies(t, s, v, order[j].reg, costLimit, StartBudget(t, v, costLimit)) ==>
      found && !Less(TotalCost(t, s, v, order[j].reg), budget)
  }

  lemma AcceptCandidate(t: Target, s: State, v: VReg, order: seq<Candidate>, costLimit: nat, n: nat,
                        found: bool, budget: EvictionCost)
    requires Known(s, v) && n < |order| && CheapestOf(t, s, v, order, costLimit, n, found, budget)
    requires Evictable(t, s, v, order[n].reg, false, budget)
    ensures CheapestOf(t, s, v, order, costLimit, n + 1, true, TotalCost(t, s, v, order[n].reg))
  {
    forall j | 0 <= j < n + 1 && Qualifies(t, s, v, order[j].reg, costLimit, StartBudget(t, v, costLimit))
      ensures !Less(TotalCost(t, s, v, order[j].reg), TotalCost(t, s, v, order[n].reg))
    {
      CheaperAccepted(t, s, v, order[n].reg, budget, TotalCost(t, s, v, order[j].reg));
    }
  }

  // A qualifying candidate is only refused for being too expensive.
  lemma SkipCandidate(t: Target, s: State, v: VReg, order: seq<Candidate>, costLimit: nat, n: nat,
                      found: bool, budget: EvictionCost)
    requires Known(s, v) && n < |order| && CheapestOf(t, s, v, order, costLimit, n, found, budget)
    requires !(t.allocatable(costLimit, order[n].reg, s.phys) && Evictable(t, s, v, order[n].reg, false, budget))
    requires !found ==> budget == StartBudget(t, v, costLimit)
    ensures CheapestOf(t, s, v, order, costLimit, n + 1, found, budget)
  {
    var q := order[n].reg;
    if Qualifies(t, s, v, q, costLimit, StartBudget(t, v, costLimit)) {
      assert forall w :: w in Conflicts(t, s.phys, v, q) ==> Gate(t, s, v, q, false, !IsMax(budget), w);
      assert !Less(TotalCost(t, s, v, q), budget);
    }
  }

  lemma ClearedMayEvict(t: Target, s: State, v: VReg, q: PReg, isHint: bool, budget: EvictionCost)
    requires Known(s, v) && Evictable(t, s, v, q, isHint, budget)
    ensures MayEvict(t, s, v, Conflicts(t, s.phys, v, q))
  {}

  // Accepting q lowers the budget to q's cost, or leaves nothing cheaper.
  lemma CheaperAccepted(t: Target, s: State, v: VReg, q: PReg, budget: EvictionCost, c: EvictionCost)
    requires Known(s, v) && Evictable(t, s, v, q, false, budget)
    requires c.weight >= 0.0 && (c == TotalCost(t, s, v, q) || !Less(c, budget))
    ensures !Less(c, TotalCost(t, s, v, q))
  {
    if Conflicts(t, s.phys, v, q) == {} {
      EmptyCost(t, s, v, q, |t.units(q)|);
      assert t.units(q)[..|t.units(q)|] == t.units(q);
    }
  }

  // ---- the effect of an eviction ----

  // Every range in c loses its register and takes v's cascade number.
  function Evicted(s: State, v: VReg, c: set<VReg>): State
    requires v in s.cascade
  {
    var k := CascadeOrNext(s, v);
    s.(phys := s.phys - c,
       cascade := map w | w in s.cascade :: if w == v || w in c then k else s.cascade[w],
       next := if s.cascade[v] == 0 then s.next + 1 else s.next)
  }

  // Evicted, described range by range.
  lemma EvictedPointwise(s: State, s1: State, v: VReg, c: set<VReg>, k: nat, intfs: seq<VReg>)
    requires v in s.cascade && c <= s.phys.Keys <= s.cascade.Keys && k == CascadeOrNext(s, v)
    requires forall w :: w in intfs <==> w in c
    requires s1.phys.Keys == s.phys.Keys - Elems(intfs) && forall w :: w in s1.phys ==> s1.phys[w] == s.phys[w]
    requires forall w :: w in s1.cascade <==> w in s.cascade
    requires forall w :: w in s1.cascade ==> s1.cascade[w] == if w == v || w in intfs then k else s.cascade[w]
    requires s1 == s.(phys := s1.phys, cascade := s1.cascade, next := if s.cascade[v] == 0 then s.next + 1 else s.next)
    ensures s1 == Evicted(s, v, c)
  {
    assert Elems(intfs) == c by {
      assert forall w :: w in Elems(intfs) <==> w in intfs;
    }
    assert s1.phys == s.phys - c;
    assert s1.cascade == Evicted(s, v, c).cascade;
  }

  lemma EvictedCascades(t: Target, s: State, v: VReg, c: set<VReg>)
    requires CascadesOK(t, s) && v in t.vregs
    ensures CascadesOK(t, Evicted(s, v, c))
  {
    var s1 := Evicted(s, v, c);
    var n0, n1 := Numbered(s.cascade), Numbered(s1.cascade);
    assert n0 + {v} <= n1;
    SubsetSize(n0 + {v}, n1);
    if s.cascade[v] == 0 {
      assert v !in n0;
      assert |n0 + {v}| == |n0| + 1;
    } else {
      assert n0 + {v} == n0;
    }
  }

  lemma EvictFates(t: Target, s: State, v: VReg, c: set<VReg>)
    requires v in s.cascade
    ensures Fates(t, s, Evicted(s, v, c))
  {
    hide HasReserved, Ordered;
  }

  // Evicting everything in v's way frees p for v, and is one framed step.
  lemma EvictFrame(t: Target, s: State, v: VReg, p: PReg, news: seq<VReg>)
    requires WellFormed(t) && StateOK(t, s) && v in t.vregs && v !in s.phys
    requires t.inClass(v, p) && !t.fixedInterference(v, p)
    requires MayEvict(t, s, v, Conflicts(t, s.phys, v, p))
    requires NoDup(news) && (forall w :: w in news <==> w in Conflicts(t, s.phys, v, p))
    ensures Frame(t, s, Evicted(s, v, Conflicts(t, s.phys, v, p)), {}, news)
    ensures FreeFor(t, Evicted(s, v, Conflicts(t, s.phys, v, p)).phys, v, p)
  {
    var c := Conflicts(t, s.phys, v, p);
    var s1 := Evicted(s, v, c);
    ClearedFree(t, s, v, p, c);
    assert StateOK(t, s1) by {
      SubAssignmentFree(t, s.phys, s1.phys);
      EvictedCascades(t, s, v, c);
    }
    EvictProgress(t, s, v, c, news);
    EvictFates(t, s, v, c);
    ConflictsKnown(t, s.phys, v, p);
    EvictParts(t, s, v, c, news);
    hide *;
    IsFrame(t, s, s1, {}, news);
  }

  lemma ClearedFree(t: Target, s: State, v: VReg, p: PReg, c: set<VReg>)
    requires v in s.cascade && t.inClass(v, p) && !t.fixedInterference(v, p) && c == Conflicts(t, s.phys, v, p)
    ensures FreeFor(t, Evicted(s, v, c).phys, v, p)
  {
    assert forall w :: w in Conflicts(t, s.phys - c, v, p) ==> w in c;
  }

  lemma EvictParts(t: Target, s: State, v: VReg, c: set<VReg>, news: seq<VReg>)
    requires v in s.cascade && s.phys.Keys <= s.live && c <= s.phys.Keys <= s.cascade.Keys
    requires c <= s.stage.Keys && MayEvict(t, s, v, c)
    requires NoDup(news) && forall w :: w in news <==> w in c
    ensures PushedOK(s, Evicted(s, v, c), news) && NewsOK(s, Evicted(s, v, c), {}, news)
    ensures KeysOK(s, Evicted(s, v, c), {}, news) && ValuesOK(s, Evicted(s, v, c), {})
    ensures FixedKept(s, Evicted(s, v, c), {})
  {}

  lemma EvictProgress(t: Target, s: State, v: VReg, c: set<VReg>, news: seq<VReg>)
    requires v in s.cascade && s.cascade.Keys == t.vregs && s.stage.Keys == t.vregs
    requires forall w :: w in s.cascade ==> s.cascade[w] < s.next
    requires c <= s.phys.Keys && s.phys.Keys <= t.vregs && MayEvict(t, s, v, c)
    requires forall w :: w in news <==> w in c
    ensures Progress(t, s, Evicted(s, v, c), news)
  {
    if AllSpillable(t) {
      assert forall w :: w in c ==> !Urgent(t, v, w);
    }
    assert forall w :: w in c ==> s.stage[w] != RSDone;
    assert news == [] || news[0] in c;
  }
}
