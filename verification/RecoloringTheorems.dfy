// What a caller of last-chance recoloring gets, read off the step contracts.
module RecoloringTheorems {
  import opened Collections
  import opened GreedyState
  import opened GreedyFrames
  import opened Eviction
  import opened Greedy

  // A failed attempt restores the assignment except for ranges that were
  // evicted (all of them handed back in news) or spilled on the way.
  lemma FailureRestores(t: Target, s0: State, s1: State, v: VReg, news: seq<VReg>)
    requires StateOK(t, s0) && SelectPost(t, s0, s1, v, Failed, news)
    ensures s1.phys == map w | w in s0.phys && w !in news && w in s1.live :: s0.phys[w]
    ensures s1.stack == s0.stack && s0.fixed <= s1.fixed <= s0.fixed + {v}
  {
    hide InterferenceFree, CascadesOK, StackOK, Progress;
    forall w | w in s1.phys ensures w in s0.phys && s1.phys[w] == s0.phys[w] {
      assert w != v && !Pushed(s0, s1, w);
    }
  }

  // When nothing can be split, spilled or evicted any more, a failed attempt
  // restores everything and a successful one only moves ranges it recorded.
  lemma DoneFailureIsUndone(t: Target, s0: State, s1: State, v: VReg, news: seq<VReg>)
    requires StateOK(t, s0) && AllDone(t, s0) && SelectPost(t, s0, s1, v, Failed, news)
    ensures s1.phys == s0.phys && s1.stack == s0.stack && s1.live == s0.live && news == []
    ensures s1.fixed == s0.fixed || s1.fixed == s0.fixed + {v}
  {
    hide InterferenceFree, CascadesOK, StackOK;
    FailureRestores(t, s0, s1, v, news);
    if v !in s1.fixed {
      assert s1.fixed == s0.fixed;
    } else {
      assert s1.fixed == s0.fixed + {v};
    }
  }

  lemma DoneSuccessKeepsAll(t: Target, s0: State, s1: State, v: VReg, p: PReg, news: seq<VReg>)
    requires WellFormed(t) && StateOK(t, s0) && AllDone(t, s0) && v !in s0.phys
    requires SelectPost(t, s0, s1, v, Reg(p), news)
    ensures s1.phys.Keys == s0.phys.Keys && news == []
    ensures InterferenceFree(t, s1.phys[v := p]) && t.inClass(v, p)
    ensures forall w :: w in s0.fixed && w in s0.phys ==> s1.phys[w] == s0.phys[w]
    ensures forall w :: w in s0.phys && s1.phys[w] != s0.phys[w] ==>
              exists i :: |s0.stack| <= i < |s1.stack| && s1.stack[i] == (w, s0.phys[w])
    ensures DistinctStack(s1.stack)
  {
    hide CascadesOK;
    assert forall w :: w in s1.phys <==> w in s0.phys;
    AssignKeepsFree(t, s1.phys, v, p);
    MovedIsRecorded(s0, s1, v, news);
  }

  lemma MovedIsRecorded(s0: State, s1: State, v: VReg, news: seq<VReg>)
    requires ValuesOK(s0, s1, {v}) && PushedOK(s0, s1, news) && v !in s0.phys
    ensures forall w :: w in s0.phys && w in s1.phys && s1.phys[w] != s0.phys[w] ==>
              exists i :: |s0.stack| <= i < |s1.stack| && s1.stack[i] == (w, s0.phys[w])
  {
    forall w | w in s0.phys && w in s1.phys && s1.phys[w] != s0.phys[w]
      ensures exists i :: |s0.stack| <= i < |s1.stack| && s1.stack[i] == (w, s0.phys[w])
    {
      assert Pushed(s0, s1, w);
      var i :| |s0.stack| <= i < |s1.stack| && s1.stack[i].0 == w;
      assert s1.stack[i] == (w, s0.phys[w]);
    }
  }

  // A range waiting for its turn is never deferred or spilled once all ranges are done.
  lemma DoneNeverDefers(t: Target, s0: State, s1: State, v: VReg, r: Result, news: seq<VReg>)
    requires StateOK(t, s0) && AllDone(t, s0) && v in s0.live && SelectPost(t, s0, s1, v, r, news)
    ensures !r.NoReg?
  {}

  // The registers last-chance recoloring tries: no fixed interference, not too
  // many ranges on one unit, and none in the way that is fixed, or that is done,
  // of v's class, in p itself, and tied no less than v.
  lemma TriedExactly(t: Target, s: State, v: VReg, p: PReg, max: nat, exhaustive: bool)
    requires s.phys.Keys <= s.stage.Keys
    ensures MayRecolorAll(t, s, v, p, max, exhaustive) <==>
            && (exhaustive || forall u :: u in t.units(p) ==> |Query(t, s.phys, v, u)| < max)
            && forall w :: w in s.phys && t.overlap(v, w) && Aliases(t, p, s.phys[w]) ==>
                 w !in s.fixed && (s.stage[w] != RSDone || t.classOf(w) != t.classOf(v) || s.phys[w] != p
                                   || (t.tiedDef(v) && !t.tiedDef(w)))
  {
    hide Query, Aliases;
    forall w | w in s.phys && t.overlap(v, w) && Aliases(t, p, s.phys[w]) ensures w in Conflicts(t, s.phys, v, p) {}
    forall w | w in Conflicts(t, s.phys, v, p) ensures w in s.phys && t.overlap(v, w) && Aliases(t, p, s.phys[w]) {}
  }

  // ---- the assertion in evictInterference ----

  // The condition the source asserts of every evictee.
  predicate AssertedLegal(t: Target, s: State, v: VReg, w: VReg)
    requires v in s.cascade && w in s.cascade
  {
    s.cascade[w] < CascadeOrNext(s, v) || (!t.spillable(v) && t.spillable(w))
  }

  // It holds of an evictee exactly when the evictee is spillable or does not
  // belong to a newer cascade: an unspillable range may also evict an
  // unspillable one of a larger order, which the assertion does not foresee.
  lemma AssertedLegalExactly(t: Target, s: State, v: VReg, p: PReg, isHint: bool, max: EvictionCost, w: VReg)
    requires Known(s, v) && Evictable(t, s, v, p, isHint, max) && w in Conflicts(t, s.phys, v, p)
    ensures AssertedLegal(t, s, v, w) <==> t.spillable(w) || s.cascade[w] <= CascadeOrNext(s, v)
  {
    assert Gate(t, s, v, p, isHint, !IsMax(max), w);
  }

  // ---- a run into the failing assertion ----

  // Four ranges on three registers. Range 2 fits register 1 only, range 0
  // registers 1 and 2, and range 1 all three, of which 1 and 3 are taken for
  // it by fixed interference. These three cannot be spilled; range 3 can.
  predicate Meet(v: VReg, w: VReg) { (v == 0 && (w == 1 || w == 2)) || (v == 1 && w == 3) }

  function ClashTarget(): Target {
    Target({0, 1, 2, 3},
           (v: VReg, w: VReg) => Meet(v, w) || Meet(w, v),
           p => [p],
           (v, p) => v == 1 && p != 2,
           (v, p) => if v == 0 then p == 1 || p == 2 else if v == 2 then p == 1 else if v == 3 then p == 2 else true,
           (v, m) => if v == 0 then [Candidate(1, false), Candidate(2, false)]
                     else if v == 2 then [Candidate(1, false)]
                     else if v == 3 then [Candidate(2, false)]
                     else [Candidate(1, false), Candidate(2, false), Candidate(3, false)],
           (v, c, m) => Some(3), (c, p, m) => true, v => 0, p => 0,
           v => v, v => if v == 0 then 2 else if v == 1 then 3 else 1,
           v => if v == 3 then 1.0 else 100.0, v => v == 3, v => false, v => false,
           (v, m) => false, v => true, false, v => false)
  }

  // Ranges 0 and 3 hold their registers, and nobody was evicted yet.
  function ClashStart(): State {
    State(map[0 := 1, 3 := 2], {}, [], map[0 := RSAssign, 1 := RSAssign, 2 := RSAssign, 3 := RSAssign],
          map[0 := 0, 1 := 0, 2 := 0, 3 := 0], 1, {0, 1, 2, 3})
  }

  // v evicts w from p and takes it.
  function Taken(s: State, v: VReg, p: PReg, w: VReg): State
    requires v in s.cascade
  {
    var s1 := Evicted(s, v, {w});
    s1.(phys := s1.phys[v := p])
  }

  // The only range in v's way on p, and one that v may evict.
  ghost predicate MayTake(t: Target, s: State, v: VReg, p: PReg, w: VReg) {
    && v in s.live && v !in s.phys && t.inClass(v, p) && p != 0
    && Known(s, v) && Conflicts(t, s.phys, v, p) == {w} && Evictable(t, s, v, p, false, MAX_COST)
  }

  ghost predicate Unevicted(s: State) {
    s.next == 1 && forall w :: w in s.cascade ==> s.cascade[w] == 0
  }

  ghost predicate ForbiddenRun(t: Target, s0: State, s1: State, s2: State,
        v: VReg, w: VReg, z: VReg, y: VReg, p: PReg, q: PReg) {
    && WellFormed(t) && StateOK(t, s0) && Unevicted(s0)
    && MayTake(t, s0, z, p, v) && s1 == Taken(s0, z, p, v) && StateOK(t, s1)
    && MayTake(t, s1, w, q, y) && s2 == Taken(s1, w, q, y) && StateOK(t, s2)
    && MayTake(t, s2, v, q, w) && v in s2.cascade && w in s2.cascade && !AssertedLegal(t, s2, v, w)
  }

  lemma TakenOK(t: Target, s: State, v: VReg, p: PReg, w: VReg)
    requires WellFormed(t) && StateOK(t, s) && MayTake(t, s, v, p, w) && s.stack == []
    ensures StateOK(t, Taken(s, v, p, w)) && Taken(s, v, p, w).stack == []
  {
    var s1 := Evicted(s, v, {w});
    assert StateOK(t, s1) && FreeFor(t, s1.phys, v, p) by {
      ClearedMayEvict(t, s, v, p, false, MAX_COST);
      LiveKnown(t, s, v);
      hide StateOK, WellFormed, Evictable, FreeFor, Conflicts;
      EvictFrame(t, s, v, p, [w]);
      FrameStateOK(t, s, s1, [w]);
    }
    hide WellFormed, FreeFor, Evictable, Conflicts, StateOK, MayTake;
    AssignStateOK(t, s1, v, p);
  }

  lemma LiveKnown(t: Target, s: State, v: VReg)
    requires StateOK(t, s) && v in s.live
    ensures v in t.vregs
  {}

  lemma FrameStateOK(t: Target, s0: State, s1: State, news: seq<VReg>)
    requires Frame(t, s0, s1, {}, news)
    ensures StateOK(t, s1)
  {}

  lemma AssignStateOK(t: Target, s: State, v: VReg, p: PReg)
    requires WellFormed(t) && StateOK(t, s) && s.stack == [] && v in s.live && v !in s.phys && FreeFor(t, s.phys, v, p)
    ensures StateOK(t, s.(phys := s.phys[v := p]))
  {
    hide WellFormed, FreeFor, InterferenceFree;
    AssignKeepsFree(t, s.phys, v, p);
  }

  // Clearing one range off one unit is within the unlimited budget.
  lemma SingleEvictable(t: Target, s: State, v: VReg, p: PReg, w: VReg)
    requires Known(s, v) && t.units(p) == [p] && !t.fixedInterference(v, p)
    requires Conflicts(t, s.phys, v, p) == {w} && Gate(t, s, v, p, false, false, w)
    ensures Evictable(t, s, v, p, false, MAX_COST)
  {
    hide Gate;
    var q := Query(t, s.phys, v, p);
    forall x ensures x in q <==> x in {w} {
      ConflictOnUnit(t, s.phys, v, p, x);
      assert x in Conflicts(t, s.phys, v, p) <==> x == w;
      assert [p][0] == p;
    }
    assert q == {w};
    assert [p][..0] == [];
    SetHintsRemove(t, s, v, {w}, w);
    SetWeightRemove(t, {w}, w);
    assert {w} - {w} == {};
    assert UnitsCost(t, s, v, []) == NO_COST;
    assert TotalCost(t, s, v, p).hints == HintCost(t, s, v, w);
  }

  function ClashFirst(): State {
    ClashStart().(phys := map[3 := 2, 2 := 1], cascade := map[0 := 1, 1 := 0, 2 := 1, 3 := 0], next := 2)
  }

  function ClashSecond(): State {
    ClashStart().(phys := map[2 := 1, 1 := 2], cascade := map[0 := 1, 1 := 2, 2 := 1, 3 := 2], next := 3)
  }

  lemma FirstTaken()
    ensures Taken(ClashStart(), 2, 1, 0) == ClashFirst()
  {
    assert ClashStart().phys - {0} == map[3 := 2];
  }

  lemma SecondTaken()
    ensures Taken(ClashFirst(), 1, 2, 3) == ClashSecond()
  {
    assert ClashFirst().phys - {3} == map[2 := 1];
  }

  lemma ClashWellFormed()
    ensures WellFormed(ClashTarget())
  {}

  lemma ClashFree()
    ensures InterferenceFree(ClashTarget(), ClashStart().phys)
  {}

  lemma ClashCascades()
    ensures CascadesOK(ClashTarget(), ClashStart())
  {}

  lemma ClashStartOK()
    ensures StateOK(ClashTarget(), ClashStart()) && Unevicted(ClashStart()) && ClashStart().stack == []
  {
    ClashFree();
    ClashCascades();
    hide InterferenceFree, CascadesOK;
  }

  // One range holds p, overlaps v, and no other that overlaps v does.
  lemma OneConflict(s: State, v: VReg, p: PReg, w: VReg)
    requires w in s.phys && s.phys[w] == p && ClashTarget().overlap(v, w)
    requires forall x :: x in s.phys && x != w && ClashTarget().overlap(v, x) ==> s.phys[x] != p
    ensures Conflicts(ClashTarget(), s.phys, v, p) == {w}
  {
    assert p in ClashTarget().units(p);
    assert Aliases(ClashTarget(), p, s.phys[w]);
  }

  lemma TakeOne(s: State, v: VReg, p: PReg, w: VReg)
    requires Known(s, v) && v in s.live && v !in s.phys && w in s.phys && s.phys[w] == p && p != 0
    requires var t := ClashTarget();
             && t.inClass(v, p) && !t.fixedInterference(v, p) && t.overlap(v, w)
             && (forall x :: x in s.phys && x != w && t.overlap(v, x) ==> s.phys[x] != p)
             && Gate(t, s, v, p, false, false, w)
    ensures MayTake(ClashTarget(), s, v, p, w)
  {
    OneConflict(s, v, p, w);
    assert ClashTarget().units(p) == [p];
    hide Gate, Conflicts, Evictable;
    SingleEvictable(ClashTarget(), s, v, p, w);
  }

  lemma FirstStep()
    ensures MayTake(ClashTarget(), ClashStart(), 2, 1, 0)
  {
    hide MayTake;
    TakeOne(ClashStart(), 2, 1, 0);
  }

  lemma SecondStep()
    ensures MayTake(ClashTarget(), ClashFirst(), 1, 2, 3)
  {
    hide MayTake;
    TakeOne(ClashFirst(), 1, 2, 3);
  }

  lemma ThirdStep()
    ensures MayTake(ClashTarget(), ClashSecond(), 0, 2, 1)
  {
    hide MayTake;
    TakeOne(ClashSecond(), 0, 2, 1);
  }

  lemma ThirdForbidden()
    ensures 0 in ClashSecond().cascade && 1 in ClashSecond().cascade
    ensures !AssertedLegal(ClashTarget(), ClashSecond(), 0, 1)
  {}

  // From a state without cascade numbers, range z evicts v from p, range w
  // evicts y from q, and then v may evict w: an eviction that the assertion
  // forbids.
  lemma AssertedLegalCanFail() returns (t: Target, s0: State, s1: State, s2: State)
    ensures ForbiddenRun(t, s0, s1, s2, 0, 1, 2, 3, 1, 2)
  {
    FirstTaken();
    SecondTaken();
    ClashWellFormed();
    ClashStartOK();
    FirstStep();
    SecondStep();
    ThirdStep();
    ThirdForbidden();
    t, s0, s1, s2 := ClashTarget(), ClashStart(), ClashFirst(), ClashSecond();
    hide StateOK, WellFormed, MayTake, AssertedLegal, ClashTarget, ClashStart, ClashFirst, ClashSecond;
    TakenOK(t, s0, 2, 1, 0);
    TakenOK(t, s1, 1, 2, 3);
  }
}
