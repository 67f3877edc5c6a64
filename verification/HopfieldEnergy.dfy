// The energy of the network and the potential that bounds every run of iterate.
module HopfieldEnergy {
  import opened Hopfield

  // Weight of the link between two active nodes.
  function W(ns: seq<Node>, active: set<nat>, n: nat, m: nat): nat
    requires n < |ns|
  {
    if n in active && m in active then WeightTo(ns[n].links, m) else 0
  }

  // Bias towards a register. A must-spill node is biased beyond anything its
  // links can make up for.
  function Bias(ns: seq<Node>, n: nat, threshold: nat): int
    requires n < |ns|
  {
    if ns[n].biasN == MAX_FREQ then -(threshold + TotalWeight(ns[n].links))
    else ns[n].biasP - ns[n].biasN
  }

  function Val(ns: seq<Node>, active: set<nat>, n: nat): int
    requires n < |ns|
  {
    if n in active then ns[n].value else 0
  }

  // v * x, spelled out for the few factors that occur.
  function Times(v: int, x: int): int {
    if v == 0 then 0 else if v == 1 then x else if v == -1 then -x
    else if v == 2 then x + x else if v == -2 then -x - x
    else v * x
  }

  // What node n hears from nodes 0..j.
  function Field(ns: seq<Node>, active: set<nat>, n: nat, j: nat): int
    requires n < |ns| && j <= |ns|
  {
    if j == 0 then 0
    else Field(ns, active, n, j - 1) + Times(Val(ns, active, j - 1), W(ns, active, n, j - 1))
  }

  function Abs(x: int): nat { if x < 0 then -x else x }

  // c*|V| - 2*V*bias - V*field
  function Term(ns: seq<Node>, active: set<nat>, threshold: nat, c: int, n: nat): int
    requires n < |ns|
  {
    var v := Val(ns, active, n);
    Times(Abs(v), c) - 2 * Times(v, Bias(ns, n, threshold)) - Times(v, Field(ns, active, n, |ns|))
  }

  // Twice the energy of the file comment, every linked pair counted once, plus
  // c for every decided node, over nodes 0..j.
  function Energy(ns: seq<Node>, active: set<nat>, threshold: nat, c: int, j: nat): int
    requires j <= |ns|
  {
    if j == 0 then 0
    else Energy(ns, active, threshold, c, j - 1) + Term(ns, active, threshold, c, j - 1)
  }

  // The potential: the dead zone of width 2T-1 pays for every decided node.
  function Potential(ns: seq<Node>, active: set<nat>, threshold: nat): int {
    Energy(ns, active, threshold, 2 * threshold - 1, |ns|)
  }

  function TwicePlainEnergy(ns: seq<Node>, active: set<nat>, threshold: nat): int {
    Energy(ns, active, threshold, 0, |ns|)
  }

  // Net input of node n.
  function Input(ns: seq<Node>, active: set<nat>, n: nat, threshold: nat): int
    requires n < |ns|
  {
    Bias(ns, n, threshold) + Field(ns, active, n, |ns|)
  }

  // ---- how one value change moves the energy ----

  lemma {:induction false} FieldAfter(ns: seq<Node>, active: set<nat>, k: nat, v: int, n: nat, j: nat)
    requires k < |ns| && k in active && n < |ns| && j <= |ns| && -1 <= ns[k].value <= 1 && -1 <= v <= 1
    ensures var ns2 := ns[k := ns[k].(value := v)];
            Field(ns2, active, n, j) == Field(ns, active, n, j)
              + (if k < j then Times(v, W(ns, active, n, k)) - Times(ns[k].value, W(ns, active, n, k)) else 0)
  {
    if j > 0 { FieldAfter(ns, active, k, v, n, j - 1); }
  }

  // Sum over n < j, n != k, of V(n) * W(n, k).
  function Echo(ns: seq<Node>, active: set<nat>, k: nat, j: nat): int
    requires k < |ns| && j <= |ns|
  {
    if j == 0 then 0
    else Echo(ns, active, k, j - 1)
         + (if j - 1 == k then 0 else Times(Val(ns, active, j - 1), W(ns, active, j - 1, k)))
  }

  lemma WeightsMirror(ns: seq<Node>, active: set<nat>, threshold: nat, n: nat, k: nat)
    requires NetOK(ns, active, threshold) && n < |ns| && k < |ns|
    ensures W(ns, active, n, k) == W(ns, active, k, n)
    ensures W(ns, active, k, k) == 0
  {
    if k in active {
      assert LinksOK(ns, active, k);
      WeightToAbsent(ns[k].links, k);
    }
  }

  lemma {:induction false} EchoIsField(ns: seq<Node>, active: set<nat>, threshold: nat, k: nat, j: nat)
    requires NetOK(ns, active, threshold) && k in active && j <= |ns| && k < |ns|
    ensures Echo(ns, active, k, j) == Field(ns, active, k, j)
  {
    hide NetOK, W, Times;
    if j > 0 {
      EchoIsField(ns, active, threshold, k, j - 1);
      WeightsMirror(ns, active, threshold, j - 1, k);
      assert j - 1 == k ==> Times(Val(ns, active, j - 1), W(ns, active, k, j - 1)) == 0 by {
          TimesZero(Val(ns, active, j - 1)); }
    }
  }

  lemma TimesZero(v: int)
    ensures Times(v, 0) == 0
  {}

  // Arithmetic of a value moving from u to v.
  lemma TimesMoves(u: int, v: int, x: int, y: int, w: int)
    requires -1 <= u <= 1 && -1 <= v <= 1
    ensures Times(u, x + y) == Times(u, x) + Times(u, y)
    ensures Times(v, w) - Times(u, w) == Times(v - u, w)
    ensures Times(u, Times(v, w)) == Times(v, Times(u, w))
  {}

  lemma TimesNests(x: int, u: int, v: int, w: int)
    requires -1 <= x <= 1 && -1 <= u <= 1 && -1 <= v <= 1
    ensures Times(x, Times(v - u, w)) == Times(v - u, Times(x, w))
  {}

  lemma TimesAdds(d: int, x: int, y: int)
    requires -2 <= d <= 2
    ensures Times(d, x) + Times(d, y) == Times(d, x + y)
    ensures 2 * Times(d, x) == Times(d, 2 * x)
  {}

  ghost predicate SmallValues(ns: seq<Node>, active: set<nat>) {
    forall n :: n in active ==> n < |ns| && -1 <= ns[n].value <= 1
  }

  // How the terms of the other nodes and of node k itself move.
  lemma OtherTermAfter(ns: seq<Node>, active: set<nat>, threshold: nat, c: int, k: nat, v: int, n: nat)
    requires SmallValues(ns, active) && k in active && n < |ns| && -1 <= v <= 1 && n != k
    ensures var ns2 := ns[k := ns[k].(value := v)];
            Term(ns2, active, threshold, c, n)
              == Term(ns, active, threshold, c, n) - Times(v - ns[k].value,
                  Times(Val(ns, active, n), W(ns, active, n, k)))
  {
    hide Times, W;
    var w, u := W(ns, active, n, k), ns[k].value;
    var x := Val(ns, active, n);
    FieldAfter(ns, active, k, v, n, |ns|);
    TimesMoves(u, v, 0, 0, w);
    TimesMoves(x, x, Field(ns, active, n, |ns|), Times(v - u, w), 0);
    TimesNests(x, u, v, w);
  }

  lemma NetSmall(ns: seq<Node>, active: set<nat>, threshold: nat)
    requires NetOK(ns, active, threshold)
    ensures SmallValues(ns, active)
  {}

  lemma BiasStays(ns: seq<Node>, k: nat, v: int, threshold: nat)
    requires k < |ns|
    ensures Bias(ns[k := ns[k].(value := v)], k, threshold) == Bias(ns, k, threshold)
  {}

  lemma OwnTermAfter(ns: seq<Node>, active: set<nat>, threshold: nat, c: int, k: nat, v: int)
    requires NetOK(ns, active, threshold) && k in active && -1 <= v <= 1
    ensures var ns2 := ns[k := ns[k].(value := v)];
            Term(ns2, active, threshold, c, k) - Term(ns, active, threshold, c, k)
              == Times(Abs(v), c) - Times(Abs(ns[k].value), c)
                 - Times(v - ns[k].value, 2 * Bias(ns, k, threshold) + Field(ns, active, k, |ns|))
  {
    hide NetOK, W, Times, Field, Bias;
    NetSmall(ns, active, threshold);
    var u, b, f := ns[k].value, Bias(ns, k, threshold), Field(ns, active, k, |ns|);
    BiasStays(ns, k, v, threshold);
    FieldAfter(ns, active, k, v, k, |ns|);
    WeightsMirror(ns, active, threshold, k, k);
    TimesZero(u);
    TimesZero(v);
    TimesMoves(u, v, 0, 0, b);
    TimesMoves(u, v, 0, 0, f);
    TimesAdds(v - u, b, b);
    TimesAdds(v - u, 2 * b, f);
  }

  lemma {:induction false} EnergyAfter(ns: seq<Node>, active: set<nat>, threshold: nat, c: int, k: nat, v: int, j: nat)
    requires SmallValues(ns, active) && k in active && -1 <= v <= 1 && j <= |ns|
    ensures var ns2 := ns[k := ns[k].(value := v)];
            Energy(ns2, active, threshold, c, j) - Energy(ns, active, threshold, c, j)
              == (if k < j then Term(ns2, active, threshold, c, k) - Term(ns, active, threshold, c, k) else 0)
                 - Times(v - ns[k].value, Echo(ns, active, k, j))
  {
    hide Times, W, Term;
    if j > 0 {
      EnergyAfter(ns, active, threshold, c, k, v, j - 1);
      if j - 1 != k {
        OtherTermAfter(ns, active, threshold, c, k, v, j - 1);
        TimesAdds(v - ns[k].value, Echo(ns, active, k, j - 1), Times(Val(ns, active, j - 1), W(ns, active, j - 1, k)));
      }
    } else {
      TimesZero(v - ns[k].value);
    }
  }

  // The energy moves by c per decision taken or dropped, and by the net input
  // against the change.
  lemma EnergyChange(ns: seq<Node>, active: set<nat>, threshold: nat, c: int, k: nat, v: int)
    requires NetOK(ns, active, threshold) && k in active && -1 <= v <= 1
    ensures var ns2 := ns[k := ns[k].(value := v)];
            Energy(ns2, active, threshold, c, |ns|) - Energy(ns, active, threshold, c, |ns|)
              == Times(Abs(v), c) - Times(Abs(ns[k].value), c) - Times(v - ns[k].value,
                  2 * Input(ns, active, k, threshold))
  {
    hide NetOK, W, Times, Field, Bias, Term, Energy, Echo;
    NetSmall(ns, active, threshold);
    EnergyAfter(ns, active, threshold, c, k, v, |ns|);
    EchoIsField(ns, active, threshold, k, |ns|);
    OwnTermAfter(ns, active, threshold, c, k, v);
    var d, f, b := v - ns[k].value, Field(ns, active, k, |ns|), Bias(ns, k, threshold);
    TimesAdds(d, 2 * b + f, f);
    assert 2 * b + f + f == 2 * Input(ns, active, k, threshold);
  }

  // ---- the update rule reads off the net input ----

  // No frequency sum of this node overflows 64 bits, except that a MustSpill
  // constraint sets biasN to the maximum on purpose.
  ghost predicate Unsaturated(ns: seq<Node>, n: nat, threshold: nat)
    requires n < |ns|
  {
    var l := TotalWeight(ns[n].links);
    && (ns[n].biasN == MAX_FREQ || ns[n].biasN + l + threshold <= MAX_FREQ)
    && ns[n].biasP + l + threshold <= MAX_FREQ
  }

  ghost predicate NoSaturation(ns: seq<Node>, active: set<nat>, threshold: nat) {
    forall n :: n in active && n < |ns| ==> Unsaturated(ns, n, threshold)
  }

  // What the given links report from nodes 0..j.
  function LinkField(ns: seq<Node>, active: set<nat>, links: seq<Link>, j: nat): int
    requires j <= |ns|
  {
    if j == 0 then 0
    else LinkField(ns, active, links, j - 1) + Times(Val(ns, active, j - 1), WeightTo(links, j - 1))
  }

  lemma {:induction false} LinkFieldStep(ns: seq<Node>, active: set<nat>, links: seq<Link>, j: nat)
    requires links != [] && Distinct(links) && j <= |ns|
    ensures var last, init := links[|links| - 1], links[..|links| - 1];
            LinkField(ns, active, links, j) == LinkField(ns, active, init, j)
              + (if last.to < j then Times(Val(ns, active, last.to), last.weight) else 0)
  {
    if j > 0 {
      var last, init := links[|links| - 1], links[..|links| - 1];
      LinkFieldStep(ns, active, links, j - 1);
      if last.to == j - 1 {
        assert forall i :: 0 <= i < |init| ==> init[i] == links[i];
        assert !HasLink(init, last.to);
        WeightToAbsent(init, last.to);
        TimesZero(Val(ns, active, j - 1));
      }
    }
  }

  lemma {:induction false} LinkFieldIsPull(ns: seq<Node>, active: set<nat>, links: seq<Link>)
    requires SmallValues(ns, active) && Distinct(links)
    requires forall i :: 0 <= i < |links| ==> links[i].to in active
    ensures LinkField(ns, active, links, |ns|) == Pull(ns, links, 1) - Pull(ns, links, -1)
  {
    if links == [] {
      NoLinksNoField(ns, active, |ns|);
    } else {
      var last, init := links[|links| - 1], links[..|links| - 1];
      assert forall i :: 0 <= i < |init| ==> init[i] == links[i];
      LinkFieldIsPull(ns, active, init);
      LinkFieldStep(ns, active, links, |ns|);
      assert last.to in active;
    }
  }

  lemma {:induction false} NoLinksNoField(ns: seq<Node>, active: set<nat>, j: nat)
    requires j <= |ns|
    ensures LinkField(ns, active, [], j) == 0
  {
    if j > 0 {
      NoLinksNoField(ns, active, j - 1);
      TimesZero(Val(ns, active, j - 1));
    }
  }

  lemma {:induction false} FieldIsLinkField(ns: seq<Node>, active: set<nat>, n: nat, j: nat)
    requires n < |ns| && n in active && j <= |ns|
    ensures Field(ns, active, n, j) == LinkField(ns, active, ns[n].links, j)
  {
    if j > 0 { FieldIsLinkField(ns, active, n, j - 1); }
  }

  // Absent saturation, the rule is the sign of the net input outside the dead
  // zone (-threshold, threshold).
  lemma DecideReadsInput(ns: seq<Node>, active: set<nat>, n: nat, threshold: nat)
    requires NetOK(ns, active, threshold) && n in active && Unsaturated(ns, n, threshold)
    ensures Decide(ns, n, threshold) == -1 <==> Input(ns, active, n, threshold) + threshold <= 0
    ensures Decide(ns, n, threshold) == 1 <==> Input(ns, active, n, threshold) >= threshold
  {
    assert LinksOK(ns, active, n);
    FieldIsLinkField(ns, active, n, |ns|);
    LinkFieldIsPull(ns, active, ns[n].links);
    PullBound(ns, ns[n].links);
  }

  // ---- the main results ----

  // Whenever update changes a value, the potential falls.
  lemma PotentialFalls(ns: seq<Node>, active: set<nat>, n: nat, threshold: nat)
    requires NetOK(ns, active, threshold) && n in active && Unsaturated(ns, n, threshold)
    requires Decide(ns, n, threshold) != ns[n].value
    ensures Potential(Updated(ns, n, threshold), active, threshold) < Potential(ns, active, threshold)
  {
    hide NetOK, Input, Decide, Energy;
    NetSmall(ns, active, threshold);
    DecideReadsInput(ns, active, n, threshold);
    EnergyChange(ns, active, threshold, 2 * threshold - 1, n, Decide(ns, n, threshold));
    ThresholdPositive(ns, active, threshold);
  }

  lemma ThresholdPositive(ns: seq<Node>, active: set<nat>, threshold: nat)
    requires NetOK(ns, active, threshold)
    ensures threshold >= 1
  {}

  // The plain energy rises exactly when the dead zone drops a decision that
  // the net input, too weak to take it, still favours.
  lemma PlainEnergyRisesExactly(ns: seq<Node>, active: set<nat>, n: nat, threshold: nat)
    requires NetOK(ns, active, threshold) && n in active && Unsaturated(ns, n, threshold)
    ensures TwicePlainEnergy(Updated(ns, n, threshold), active, threshold) > TwicePlainEnergy(ns, active, threshold)
            <==> Decide(ns, n, threshold) == 0 && ns[n].value * Input(ns, active, n, threshold) > 0
  {
    hide NetOK, Input, Decide, Energy;
    NetSmall(ns, active, threshold);
    ThresholdPositive(ns, active, threshold);
    DecideReadsInput(ns, active, n, threshold);
    EnergyChange(ns, active, threshold, 0, n, Decide(ns, n, threshold));
  }

  // With the smallest threshold the dead zone holds no input but 0, and the
  // plain energy never rises.
  lemma PlainEnergyAtOne(ns: seq<Node>, active: set<nat>, n: nat)
    requires NetOK(ns, active, 1) && n in active && Unsaturated(ns, n, 1)
    ensures TwicePlainEnergy(Updated(ns, n, 1), active, 1) <= TwicePlainEnergy(ns, active, 1)
  {
    hide NetOK, Input, Energy, Decide;
    PlainEnergyRisesExactly(ns, active, n, 1);
    DecideReadsInput(ns, active, n, 1);
  }

  // ---- the potential is bounded ----

  lemma {:induction false} LinkFieldBound(ns: seq<Node>, active: set<nat>, links: seq<Link>)
    requires SmallValues(ns, active) && Distinct(links)
    requires forall i :: 0 <= i < |links| ==> links[i].to in active
    ensures Abs(LinkField(ns, active, links, |ns|)) <= TotalWeight(links)
  {
    LinkFieldIsPull(ns, active, links);
    PullBound(ns, links);
  }

  // Independent of the values: twice the biases plus the link weights plus the dead zone.
  function Room(ns: seq<Node>, active: set<nat>, threshold: nat, j: nat): nat
    requires j <= |ns|
  {
    if j == 0 then 0
    else Room(ns, active, threshold, j - 1)
         + (if j - 1 in active
            then 2 * threshold + 2 * Abs(Bias(ns, j - 1, threshold)) + TotalWeight(ns[j - 1].links)
            else 0)
  }

  lemma TermBound(ns: seq<Node>, active: set<nat>, threshold: nat, n: nat)
    requires NetOK(ns, active, threshold) && n < |ns|
    ensures Abs(Term(ns, active, threshold, 2 * threshold - 1, n)) <= Room(ns, active, threshold, n + 1) - Room(ns,
              active, threshold, n)
  {
    if n in active {
      assert LinksOK(ns, active, n);
      NetSmall(ns, active, threshold);
      FieldIsLinkField(ns, active, n, |ns|);
      LinkFieldBound(ns, active, ns[n].links);
    }
  }

  lemma {:induction false} EnergyBound(ns: seq<Node>, active: set<nat>, threshold: nat, j: nat)
    requires NetOK(ns, active, threshold) && j <= |ns|
    ensures Abs(Energy(ns, active, threshold, 2 * threshold - 1, j)) <= Room(ns, active, threshold, j)
  {
    hide NetOK, Term;
    if j > 0 {
      EnergyBound(ns, active, threshold, j - 1);
      TermBound(ns, active, threshold, j - 1);
    }
  }

  lemma {:induction false} RoomStays(ns: seq<Node>, ns2: seq<Node>, active: set<nat>, threshold: nat, j: nat)
    requires |ns| == |ns2| && j <= |ns|
    requires forall i :: 0 <= i < |ns| ==> ns2[i] == ns[i].(value := ns2[i].value)
    ensures Room(ns2, active, threshold, j) == Room(ns, active, threshold, j)
  {
    if j > 0 { RoomStays(ns, ns2, active, threshold, j - 1); }
  }
}
