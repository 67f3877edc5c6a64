// Why the allocation loop stops: cascade numbers are bounded by the number of
// virtual registers and every eviction raises one of them.
module CascadeMeasure {
  import opened Collections
  import opened GreedyState
  import opened GreedyFrames

  ghost function Sum(m: map<VReg, nat>): nat {
    if m == map[] then 0 else
      var k :| k in m;
      m[k] + Sum(m - {k})
  }

  lemma {:induction false} SumRemove(m: map<VReg, nat>, k: VReg)
    requires k in m
    ensures Sum(m) == m[k] + Sum(m - {k})
    decreases |m|
  {
    var j :| j in m && Sum(m) == m[j] + Sum(m - {j});
    if j != k {
      SumRemove(m - {j}, k);
      SumRemove(m - {k}, j);
      assert m - {j} - {k} == m - {k} - {j};
    }
  }

  lemma {:induction false} SumMono(a: map<VReg, nat>, b: map<VReg, nat>)
    requires a.Keys == b.Keys && forall k :: k in a ==> a[k] <= b[k]
    ensures Sum(a) <= Sum(b)
    decreases |a|
  {
    if k :| k in a {
      SumRemove(a, k);
      SumRemove(b, k);
      SumMono(a - {k}, b - {k});
    } else {
      assert a == map[] && b == map[];
    }
  }

  lemma SumStrict(a: map<VReg, nat>, b: map<VReg, nat>, k: VReg)
    requires a.Keys == b.Keys && (forall j :: j in a ==> a[j] <= b[j])
    requires k in a && a[k] < b[k]
    ensures Sum(a) < Sum(b)
  {
    SumRemove(a, k);
    SumRemove(b, k);
    SumMono(a - {k}, b - {k});
  }

  // How far every range is from the largest cascade number there can be.
  ghost function CascadeSlack(t: Target, s: State): map<VReg, nat> {
    map w | w in s.cascade :: if s.cascade[w] <= |t.vregs| then |t.vregs| - s.cascade[w] else 0
  }

  ghost function StageSlack(s: State): map<VReg, nat> {
    map w | w in s.stage :: 6 - Rank(s.stage[w])
  }

  // No cascade number ever exceeds the number of virtual registers.
  lemma CascadeBound(t: Target, s: State, w: VReg)
    requires CascadesOK(t, s) && w in s.cascade
    ensures s.cascade[w] <= |t.vregs|
  {
    assert Numbered(s.cascade) <= t.vregs;
    SubsetSize(Numbered(s.cascade), t.vregs);
  }

  // Without urgent evictions the cascade slack never grows, and it shrinks as
  // soon as somebody is evicted.
  lemma CascadeSlackShrinks(t: Target, s0: State, s1: State, news: seq<VReg>)
    requires AllSpillable(t) && s0.cascade.Keys == t.vregs && CascadesOK(t, s1) && Progress(t, s0, s1, news)
    ensures Sum(CascadeSlack(t, s1)) <= Sum(CascadeSlack(t, s0))
    ensures (exists w :: w in news && w in s0.phys) ==> Sum(CascadeSlack(t, s1)) < Sum(CascadeSlack(t, s0))
  {
    hide AllSpillable, CascadesOK;
    var a, b := CascadeSlack(t, s1), CascadeSlack(t, s0);
    SlackPointwise(t, s0, s1, news);
    hide Progress;
    SumMono(a, b);
    if w :| w in news && w in s0.phys {
      SumStrict(a, b, w);
    }
  }

  lemma SlackPointwise(t: Target, s0: State, s1: State, news: seq<VReg>)
    requires AllSpillable(t) && s0.cascade.Keys == t.vregs && CascadesOK(t, s1) && Progress(t, s0, s1, news)
    ensures CascadeSlack(t, s1).Keys == CascadeSlack(t, s0).Keys
    ensures forall w :: w in CascadeSlack(t, s1) ==> CascadeSlack(t, s1)[w] <= CascadeSlack(t, s0)[w]
    ensures forall w :: w in news && w in s0.phys ==>
              w in CascadeSlack(t, s1) && CascadeSlack(t, s1)[w] < CascadeSlack(t, s0)[w]
  {
    assert s1.cascade.Keys == t.vregs;
    hide AllSpillable, AllDone, CascadesOK, StageStep;
    forall w | w in s1.cascade ensures s1.cascade[w] <= |t.vregs| {
      CascadeBound(t, s1, w);
    }
  }

  lemma StageSlackShrinks(s0: State, s1: State)
    requires s0.stage.Keys == s1.stage.Keys
    requires forall w :: w in s0.stage ==> StageStep(s0.stage[w], s1.stage[w])
    ensures Sum(StageSlack(s1)) <= Sum(StageSlack(s0))
    ensures (exists w :: w in s0.stage && Rank(s0.stage[w]) < Rank(s1.stage[w])) ==>
              Sum(StageSlack(s1)) < Sum(StageSlack(s0))
  {
    SumMono(StageSlack(s1), StageSlack(s0));
    if w :| w in s0.stage && Rank(s0.stage[w]) < Rank(s1.stage[w]) {
      SumStrict(StageSlack(s1), StageSlack(s0), w);
    }
  }
}
