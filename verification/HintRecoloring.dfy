// Repairing broken copy hints by recoloring after allocation.
module HintRecoloring {
  import opened Collections
  import opened GreedyState

  datatype Reg = Virt(v: VReg) | Phys(p: PReg)

  // A full copy instruction, with the frequency of its block.
  datatype Copy = Copy(freq: nat, dst: Reg, src: Reg)

  // The other end of a copy, and the register it holds.
  datatype HintInfo = HintInfo(freq: nat, reg: Reg, physReg: PReg)

  function PhysOf(phys: Assignment, r: Reg): PReg {
    match r
    case Virt(v) => if v in phys then phys[v] else 0
    case Phys(p) => p
  }

  // The two ends are in different registers.
  predicate Broken(phys: Assignment, c: Copy) {
    PhysOf(phys, c.dst) != PhysOf(phys, c.src)
  }

  ghost predicate Holds(phys: Assignment, r: Reg, p: PReg) {
    (r.Phys? && r.p == p) || (r.Virt? && r.v in phys && phys[r.v] == p)
  }

  // As no register is NoRegister, a copy goes away exactly when both its ends hold
  // the same register, or neither holds any.
  lemma BrokenExactly(phys: Assignment, c: Copy)
    requires forall r, p :: r in {c.dst, c.src} && Holds(phys, r, p) ==> p != 0
    ensures !Broken(phys, c) <==>
            || (exists p :: Holds(phys, c.dst, p) && Holds(phys, c.src, p))
            || (forall p :: !Holds(phys, c.dst, p) && !Holds(phys, c.src, p))
  {
    var d, e := PhysOf(phys, c.dst), PhysOf(phys, c.src);
    assert (c.dst.Phys? || c.dst.v in phys) ==> Holds(phys, c.dst, d);
    assert (c.src.Phys? || c.src.v in phys) ==> Holds(phys, c.src, e);
  }

  // Total frequency of the copies that stay in the code.
  function CopyCost(copies: seq<Copy>, phys: Assignment): nat {
    if copies == [] then 0
    else var c := copies[|copies| - 1];
      CopyCost(copies[..|copies| - 1], phys) + if Broken(phys, c) then c.freq else 0
  }

  predicate Incident(c: Copy, r: Reg) {
    c.dst != c.src && (c.dst == r || c.src == r)
  }

  function OtherEnd(c: Copy, r: Reg): Reg {
    if c.dst == r then c.src else c.dst
  }

  function Hints(copies: seq<Copy>, r: Reg, phys: Assignment): seq<HintInfo> {
    if copies == [] then []
    else var c := copies[|copies| - 1];
      Hints(copies[..|copies| - 1], r, phys)
      + if Incident(c, r) then [HintInfo(c.freq, OtherEnd(c, r), PhysOf(phys, OtherEnd(c, r)))] else []
  }

  function BrokenFreq(hints: seq<HintInfo>, p: PReg): nat {
    if hints == [] then 0
    else var h := hints[|hints| - 1];
      BrokenFreq(hints[..|hints| - 1], p) + if h.physReg != p then h.freq else 0
  }

  // The hints of v measure exactly what recoloring v changes.
  lemma {:induction false} RecolorChangesCost(copies: seq<Copy>, phys: Assignment, v: VReg, p: PReg)
    requires v in phys
    ensures CopyCost(copies, phys[v := p]) + BrokenFreq(Hints(copies, Virt(v), phys), phys[v])
         == CopyCost(copies, phys) + BrokenFreq(Hints(copies, Virt(v), phys), p)
  {
    if copies != [] {
      var rest, c := copies[..|copies| - 1], copies[|copies| - 1];
      RecolorChangesCost(rest, phys, v, p);
      var hs := Hints(rest, Virt(v), phys);
      if Incident(c, Virt(v)) {
        var h := HintInfo(c.freq, OtherEnd(c, Virt(v)), PhysOf(phys, OtherEnd(c, Virt(v))));
        assert (hs + [h])[..|hs|] == hs;
      } else {
        assert hs + [] == hs;
      }
    }
  }

  // Taking v out and putting it back at a free register of its class.
  lemma RecolorKeepsFree(t: Target, phys: Assignment, v: VReg, p: PReg)
    requires WellFormed(t) && InterferenceFree(t, phys) && v in phys && FreeFor(t, phys, v, p)
    ensures InterferenceFree(t, phys[v := p])
  {
    var without := phys - {v};
    assert Conflicts(t, without, v, p) <= Conflicts(t, phys, v, p);
    AssignKeepsFree(t, without, v, p);
    assert without[v := p] == phys[v := p];
  }

  // v can take p, and no dearer copies come of it.
  predicate Profitable(t: Target, copies: seq<Copy>, phys: Assignment, v: VReg, p: PReg)
    requires v in phys
  {
    && FreeFor(t, phys, v, p)
    && var hints := Hints(copies, Virt(v), phys);
       BrokenFreq(hints, p) <= BrokenFreq(hints, phys[v])
  }

  // ---- which registers are reached ----

  ghost predicate Adjacent(copies: seq<Copy>, r: Reg, q: Reg) {
    exists i :: 0 <= i < |copies| && Incident(copies[i], r) && OtherEnd(copies[i], r) == q
  }

  ghost predicate Path(copies: seq<Copy>, path: seq<Reg>) {
    |path| > 0 && forall i :: 0 <= i < |path| - 1 ==> Adjacent(copies, path[i], path[i + 1])
  }

  ghost predicate CopyRelated(copies: seq<Copy>, r: Reg, q: Reg) {
    exists path :: Path(copies, path) && path[0] == r && path[|path| - 1] == q
  }

  lemma SelfRelated(copies: seq<Copy>, r: Reg)
    ensures CopyRelated(copies, r, r)
  {
    assert Path(copies, [r]);
  }

  lemma Related(copies: seq<Copy>, r: Reg, q: Reg, next: Reg)
    requires CopyRelated(copies, r, q) && Adjacent(copies, q, next)
    ensures CopyRelated(copies, r, next)
  {
    var path :| Path(copies, path) && path[0] == r && path[|path| - 1] == q;
    var longer := path + [next];
    assert forall i :: 0 <= i < |path| ==> longer[i] == path[i];
    assert Path(copies, longer);
  }

  lemma {:induction false} HintsAreNeighbours(copies: seq<Copy>, r: Reg, phys: Assignment)
    ensures forall k :: 0 <= k < |Hints(copies, r, phys)| ==> Adjacent(copies, r, Hints(copies, r, phys)[k].reg)
    ensures forall q :: Adjacent(copies, r, q) ==>
              exists k :: 0 <= k < |Hints(copies, r, phys)| && Hints(copies, r, phys)[k].reg == q
  {
    if copies != [] {
      var rest, c := copies[..|copies| - 1], copies[|copies| - 1];
      HintsAreNeighbours(rest, r, phys);
      var hs, all := Hints(rest, r, phys), Hints(copies, r, phys);
      forall k | 0 <= k < |all| ensures Adjacent(copies, r, all[k].reg) {
        if k < |hs| {
          assert Adjacent(rest, r, hs[k].reg);
          var i :| 0 <= i < |rest| && Incident(rest[i], r) && OtherEnd(rest[i], r) == hs[k].reg;
          assert copies[i] == rest[i];
        } else {
          assert Incident(c, r);
        }
      }
      forall q | Adjacent(copies, r, q) ensures exists k :: 0 <= k < |all| && all[k].reg == q {
        var i :| 0 <= i < |copies| && Incident(copies[i], r) && OtherEnd(copies[i], r) == q;
        if i < |rest| {
          assert rest[i] == copies[i];
          assert Adjacent(rest, r, q);
          var k :| 0 <= k < |hs| && hs[k].reg == q;
          assert all[k].reg == q;
        } else {
          assert all[|hs|].reg == q;
        }
      }
    }
  }

  // The hints of a related register lead to related registers among the ends.
  lemma NeighboursRelated(copies: seq<Copy>, r: Reg, q: Reg, phys: Assignment)
    requires CopyRelated(copies, r, q)
    ensures forall k :: 0 <= k < |Hints(copies, q, phys)| ==>
              CopyRelated(copies, r, Hints(copies, q, phys)[k].reg) && Hints(copies, q, phys)[k].reg in Ends(copies)
  {
    HintsAreNeighbours(copies, q, phys);
    var hs := Hints(copies, q, phys);
    forall k | 0 <= k < |hs| ensures CopyRelated(copies, r, hs[k].reg) && hs[k].reg in Ends(copies) {
      assert Adjacent(copies, q, hs[k].reg);
      Related(copies, r, q, hs[k].reg);
    }
  }

  function Ends(copies: seq<Copy>): set<Reg> {
    (set c | c in copies :: c.dst) + (set c | c in copies :: c.src)
  }

  // The assignment after trying v.
  function After(t: Target, copies: seq<Copy>, phys: Assignment, v: VReg, p: PReg): Assignment
    requires v in phys
  {
    if phys[v] == p || Profitable(t, copies, phys, v, p) then phys[v := p] else phys
  }

  // The assignments the tries lead through, from the first to the last.
  ghost predicate Trail(t: Target, copies: seq<Copy>, p: PReg, states: seq<Assignment>, tried: seq<VReg>) {
    && |states| == |tried| + 1
    && forall k :: 0 <= k < |tried| ==>
          tried[k] in states[k] && states[k + 1] == After(t, copies, states[k], tried[k], p)
  }

  // Whoever was tried and holds p passed the color on to all its neighbours.
  ghost predicate PassedOn(copies: seq<Copy>, p: PReg, tried: seq<VReg>, phys: Assignment, visited: set<Reg>) {
    forall w, q :: w in tried && w in phys && phys[w] == p && Adjacent(copies, Virt(w), q) ==> q in visited
  }

  // The registers visited are those tried, those without a color to change, and
  // the candidates left; none of them twice.
  ghost predicate Search(phys: Assignment, tried: seq<VReg>, visited: set<Reg>, candidates: seq<Reg>) {
    && NoDup(tried) && (forall w :: w in tried ==> w in phys && Virt(w) in visited && Virt(w) !in candidates)
    && (forall i, j :: 0 <= i < j < |candidates| ==> candidates[i] != candidates[j])
    && (forall r :: r in candidates ==> r in visited)
    && (forall r :: r in visited && r.Virt? && r.v in phys ==> r.v in tried || r in candidates)
  }

  // A whole recoloring from v: every register is tried at most once, and every
  // neighbour of one that ends with the color p was tried.
  ghost predicate Spread(t: Target, copies: seq<Copy>, v: VReg, p: PReg, states: seq<Assignment>, tried: seq<VReg>) {
    && Trail(t, copies, p, states, tried) && NoDup(tried) && v in tried
    && var phys := states[|tried|];
       forall w, q :: w in tried && w in phys && phys[w] == p && Adjacent(copies, Virt(w), Virt(q)) && q in phys ==>
           q in tried
  }

  // Recoloring from v leads from one assignment to the other.
  ghost predicate SpreadsTo(t: Target, copies: seq<Copy>, v: VReg, from: Assignment, to: Assignment) {
    if v !in from then to == from
    else exists states, tried ::
           Spread(t, copies, v, from[v], states, tried) && states[0] == from && states[|tried|] == to
  }

  lemma TryOne(t: Target, copies: seq<Copy>, p: PReg, states: seq<Assignment>, tried: seq<VReg>, visited: set<Reg>,
        candidates: seq<Reg>,
               next: Assignment)
    requires Trail(t, copies, p, states, tried) && candidates != []
    requires var r := candidates[|candidates| - 1];
             Search(states[|tried|], tried, visited, candidates) && r.Virt? && r.v in states[|tried|]
             && next == After(t, copies, states[|tried|], r.v, p)
    requires PassedOn(copies, p, tried, states[|tried|], visited)
    ensures var r := candidates[|candidates| - 1];
            && Trail(t, copies, p, states + [next], tried + [r.v])
            && Search(next, tried + [r.v], visited, candidates[..|candidates| - 1])
            && PassedOn(copies, p, tried, next, visited)
            && r.v !in tried
  {
    var r, left := candidates[|candidates| - 1], candidates[..|candidates| - 1];
    var phys := states[|tried|];
    assert next.Keys == phys.Keys && (forall w :: w in phys && w != r.v ==> next[w] == phys[w]);
    hide Adjacent, After;
    var ss, ts := states + [next], tried + [r.v];
    assert r in candidates && r.v !in tried;
    assert forall k :: 0 <= k <= |tried| ==> ss[k] == states[k];
    assert forall k :: 0 <= k < |tried| ==> ts[k] == tried[k];
    assert forall q :: q in candidates ==> q in left || q == r;
  }

  lemma StartTrail(t: Target, copies: seq<Copy>, p: PReg, phys: Assignment, visited: set<Reg>)
    ensures Trail(t, copies, p, [phys], []) && PassedOn(copies, p, [], phys, visited)
  {
  }

  // The last candidate has no color to change.
  lemma Skip(phys: Assignment, tried: seq<VReg>, visited: set<Reg>, candidates: seq<Reg>)
    requires candidates != [] && Search(phys, tried, visited, candidates)
    requires var r := candidates[|candidates| - 1]; r.Phys? || r.v !in phys
    ensures Search(phys, tried, visited, candidates[..|candidates| - 1])
  {
    var r, left := candidates[|candidates| - 1], candidates[..|candidates| - 1];
    assert forall q :: q in candidates ==> q in left || q == r;
  }

  lemma Push(phys: Assignment, tried: seq<VReg>, visited: set<Reg>, candidates: seq<Reg>, r: Reg)
    requires Search(phys, tried, visited, candidates) && r !in visited
    ensures Search(phys, tried, visited + {r}, candidates + [r])
  {
    var more := candidates + [r];
    assert forall q :: q in more ==> q in candidates || q == r;
    assert forall q :: q in candidates ==> q in more;
    assert more[|candidates|] in more;
  }

  // The register tried last has its neighbours among the hints.
  lemma AllPassedOn(copies: seq<Copy>, p: PReg, tried: seq<VReg>, phys: Assignment, seen: set<Reg>, visited: set<Reg>,
                    before: Assignment, hints: seq<HintInfo>)
    requires |tried| > 0 && seen <= visited && PassedOn(copies, p, tried[..|tried| - 1], phys, seen)
    requires var v := tried[|tried| - 1];
             v in phys && hints == if phys[v] == p then Hints(copies, Virt(v), before) else []
    requires forall i :: 0 <= i < |hints| ==> hints[i].reg in visited
    ensures PassedOn(copies, p, tried, phys, visited)
  {
    var v, rest := tried[|tried| - 1], tried[..|tried| - 1];
    HintsAreNeighbours(copies, Virt(v), before);
    hide Adjacent, Hints;
    assert forall w :: w in tried ==> w in rest || w == v;
  }

  lemma AllTried(t: Target, copies: seq<Copy>, v: VReg, p: PReg, states: seq<Assignment>, tried: seq<VReg>,
        visited: set<Reg>)
    requires Trail(t, copies, p, states, tried)
    requires var phys := states[|tried|];
             v in phys && Search(phys, tried, visited, []) && PassedOn(copies, p, tried, phys, visited)
                 && Virt(v) in visited
    ensures Spread(t, copies, v, p, states, tried)
  {
    hide Adjacent, Trail;
  }

  // Recoloring towards p: who changed holds p now and is copy-related to r.
  ghost predicate Reconciled(copies: seq<Copy>, r: Reg, p: PReg, before: Assignment, after: Assignment) {
    && after.Keys == before.Keys
    && (forall v :: v in before && after[v] != before[v] ==> after[v] == p && CopyRelated(copies, r, Virt(v)))
  }

  lemma StartReconciled(copies: seq<Copy>, r: Reg, p: PReg, phys: Assignment)
    ensures Reconciled(copies, r, p, phys, phys)
    ensures r.Virt? ==> Search(phys, [], {r}, [r])
  {
  }

  lemma ReconcileOne(copies: seq<Copy>, r: Reg, p: PReg, start: Assignment, before: Assignment, after: Assignment,
        v: VReg)
    requires Reconciled(copies, r, p, start, before) && v in before && CopyRelated(copies, r, Virt(v))
    requires after == before || after == before[v := p]
    ensures Reconciled(copies, r, p, start, after)
  {
    hide CopyRelated;
  }

  lemma ReconciledKeys(copies: seq<Copy>, r: Reg, p: PReg, start: Assignment, now: Assignment)
    requires Reconciled(copies, r, p, start, now)
    ensures now.Keys == start.Keys
  {
  }

  lemma LastVisited(phys: Assignment, tried: seq<VReg>, visited: set<Reg>, candidates: seq<Reg>)
    requires Search(phys, tried, visited, candidates) && candidates != []
    ensures candidates[|candidates| - 1] in visited
  {
  }

  class HintRecolorer {
    const t: Target
    const copies: seq<Copy>
    var phys: Assignment

    constructor (t: Target, copies: seq<Copy>, phys: Assignment)
      ensures this.t == t && this.copies == copies && this.phys == phys
    {
      this.t, this.copies, this.phys := t, copies, phys;
    }

    method CollectHintInfo(reg: Reg, out: seq<HintInfo>) returns (hints: seq<HintInfo>)
      ensures hints == out + Hints(copies, reg, phys)
    {
      hints := out;
      var i := 0;
      assert copies[..0] == [];
      while i < |copies|
        invariant 0 <= i <= |copies| && hints == out + Hints(copies[..i], reg, phys)
      {
        var c := copies[i];
        assert copies[..i + 1][..i] == copies[..i];
        i := i + 1;
        var other := c.dst;
        if other == reg {
          other := c.src;
          if other == reg { continue; }
        } else if c.src != reg {
          continue;   // not an instruction of this register
        }
        hints := hints + [HintInfo(c.freq, other, PhysOf(phys, other))];
      }
      assert copies[..i] == copies;
    }

    method GetBrokenHintFreq(hints: seq<HintInfo>, physReg: PReg) returns (cost: nat)
      ensures cost == BrokenFreq(hints, physReg)
    {
      cost := 0;
      var i := 0;
      while i < |hints|
        invariant 0 <= i <= |hints| && cost == BrokenFreq(hints[..i], physReg)
      {
        assert hints[..i + 1][..i] == hints[..i];
        if hints[i].physReg != physReg { cost := cost + hints[i].freq; }
        i := i + 1;
      }
      assert hints[..i] == hints;
    }

    // One candidate: recolored when the color is free and no copy gets dearer.
    method Recolor(v: VReg, physReg: PReg) returns (hints: seq<HintInfo>)
      requires WellFormed(t) && InterferenceFree(t, phys) && v in phys
      modifies this`phys
      ensures InterferenceFree(t, phys) && CopyCost(copies, phys) <= old(CopyCost(copies, phys))
      ensures phys == old(phys) || phys == old(phys)[v := physReg]
      ensures hints == if phys[v] == physReg then Hints(copies, Virt(v), old(phys)) else []
      ensures phys == After(t, copies, old(phys), v, physReg)
    {
      hide InterferenceFree, WellFormed, CopyCost, BrokenFreq, Hints, Conflicts;
      var currPhys := phys[v];
      if currPhys != physReg && (!t.inClass(v, physReg) || CheckInterference(t, phys, v, physReg) != IKFree) {
        return [];
      }
      hints := CollectHintInfo(Virt(v), []);
      assert hints == Hints(copies, Virt(v), phys);
      if currPhys != physReg {
        var oldCopiesCost := GetBrokenHintFreq(hints, currPhys);
        var newCopiesCost := GetBrokenHintFreq(hints, physReg);
        if oldCopiesCost < newCopiesCost { return []; }
        RecolorKeepsFree(t, phys, v, physReg);
        RecolorChangesCost(copies, phys, v, physReg);
        ghost var was := phys;
        phys := phys - {v};
        phys := phys[v := physReg];
        assert phys == was[v := physReg];
      }
    }

    // The hints not visited yet become candidates.
    static method VisitNew(ghost copies: seq<Copy>, ghost phys: Assignment, ghost tried: seq<VReg>,
          hints: seq<HintInfo>,
                           from: seq<Reg>, seen: set<Reg>, ghost origin: Reg, ghost all: set<Reg>)
      returns (candidates: seq<Reg>, visited: set<Reg>)
      requires Search(phys, tried, seen, from) && seen <= all
      requires forall i :: 0 <= i < |hints| ==> hints[i].reg in all && CopyRelated(copies, origin, hints[i].reg)
      requires forall r :: r in seen ==> CopyRelated(copies, origin, r)
      ensures Search(phys, tried, visited, candidates) && seen <= visited <= all
      ensures forall r :: r in visited ==> CopyRelated(copies, origin, r)
      ensures forall i :: 0 <= i < |hints| ==> hints[i].reg in visited
      ensures |seen| <= |visited| <= |all| && |candidates| - |from| == |visited| - |seen|
    {
      hide Search, CopyRelated;
      candidates, visited := from, seen;
      var k := 0;
      while k < |hints|
        invariant 0 <= k <= |hints| && seen <= visited <= all
        invariant Search(phys, tried, visited, candidates)
        invariant forall r :: r in visited ==> CopyRelated(copies, origin, r)
        invariant |candidates| - |from| == |visited| - |seen|
        invariant forall i :: 0 <= i < k ==> hints[i].reg in visited
      {
        if hints[k].reg !in visited {
          Push(phys, tried, visited, candidates, hints[k].reg);
          visited := visited + {hints[k].reg};
          candidates := candidates + [hints[k].reg];
        }
        k := k + 1;
      }
      SubsetSize(visited, all);
      SubsetSize(seen, visited);
    }

    // Spread the color of v over the copy-related registers.
    method TryHintRecoloring(v: VReg) returns (ghost states: seq<Assignment>, ghost tried: seq<VReg>)
      requires WellFormed(t) && InterferenceFree(t, phys) && v in phys
      modifies this`phys
      ensures Spread(t, copies, v, old(phys[v]), states, tried)
      ensures states[0] == old(phys) && states[|tried|] == phys
      ensures InterferenceFree(t, phys) && CopyCost(copies, phys) <= old(CopyCost(copies, phys))
      ensures Reconciled(copies, Virt(v), old(phys[v]), old(phys), phys)
      ensures phys[v] == old(phys[v])
    {
      StartReconciled(copies, Virt(v), phys[v], phys);
      hide InterferenceFree, WellFormed, CopyRelated, CopyCost, Hints, Profitable, Ends, BrokenFreq, Adjacent, After,
          Trail, PassedOn;
      hide Reconciled, Search, Spread;
      var physReg := phys[v];
      var visited := {Virt(v)};
      var candidates := [Virt(v)];
      states, tried := [phys], [];
      StartTrail(t, copies, physReg, phys, visited);
      ghost var all := Ends(copies) + {Virt(v)};
      SelfRelated(copies, Virt(v));
      while candidates != []
        invariant InterferenceFree(t, phys) && CopyCost(copies, phys) <= old(CopyCost(copies, phys))
        invariant Reconciled(copies, Virt(v), physReg, old(phys), phys) && phys[v] == physReg
        invariant visited <= all && Virt(v) in visited
        invariant forall r :: r in visited ==> CopyRelated(copies, Virt(v), r)
        invariant |states| == |tried| + 1 && states[0] == old(phys) && states[|tried|] == phys
        invariant Trail(t, copies, physReg, states, tried)
        invariant Search(phys, tried, visited, candidates) && PassedOn(copies, physReg, tried, phys, visited)
        decreases |all| - |visited|, |candidates|
      {
        var reg := candidates[|candidates| - 1];
        LastVisited(phys, tried, visited, candidates);
        ghost var before, had, tried0 := phys, candidates, tried;
        candidates := candidates[..|candidates| - 1];
        // Physical registers keep their color, and so do ranges without one.
        if reg.Phys? || reg.v !in phys {
          Skip(phys, tried, visited, had);
          continue;
        }
        var hints := Recolor(reg.v, physReg);
        ReconcileOne(copies, Virt(v), physReg, old(phys), before, phys, reg.v);
        TryOne(t, copies, physReg, states, tried, visited, had, phys);
        states, tried := states + [phys], tried + [reg.v];
        assert tried[..|tried| - 1] == tried0;
        NeighboursRelated(copies, Virt(v), reg, before);
        ghost var seen := visited;
        candidates, visited := VisitNew(copies, phys, tried, hints, candidates, visited, Virt(v), all);
        AllPassedOn(copies, physReg, tried, phys, seen, visited, before, hints);
      }
      ReconciledKeys(copies, Virt(v), physReg, old(phys), phys);
      AllTried(t, copies, v, physReg, states, tried, visited);
    }

    // Every broken hint that was recorded, in order; ranges without a register are skipped.
    method TryHintsRecoloring(brokenHints: seq<VReg>) returns (ghost stages: seq<Assignment>)
      requires WellFormed(t) && InterferenceFree(t, phys)
      modifies this`phys
      ensures InterferenceFree(t, phys) && CopyCost(copies, phys) <= old(CopyCost(copies, phys))
      ensures phys.Keys == old(phys.Keys)
      ensures |stages| == |brokenHints| + 1 && stages[0] == old(phys) && stages[|brokenHints|] == phys
      ensures forall i :: 0 <= i < |brokenHints| ==> SpreadsTo(t, copies, brokenHints[i], stages[i], stages[i + 1])
    {
      hide InterferenceFree, WellFormed, CopyRelated, CopyCost, Spread;
      stages := [phys];
      var i := 0;
      while i < |brokenHints|
        invariant 0 <= i <= |brokenHints| && phys.Keys == old(phys.Keys)
        invariant InterferenceFree(t, phys) && CopyCost(copies, phys) <= old(CopyCost(copies, phys))
        invariant |stages| == i + 1 && stages[0] == old(phys) && stages[i] == phys
        invariant forall k :: 0 <= k < i ==> SpreadsTo(t, copies, brokenHints[k], stages[k], stages[k + 1])
      {
        ghost var before := phys;
        if brokenHints[i] in phys {
          ghost var states, tried := TryHintRecoloring(brokenHints[i]);
        }
        assert SpreadsTo(t, copies, brokenHints[i], before, phys);
        stages := stages + [phys];
        i := i + 1;
      }
    }
  }
}
