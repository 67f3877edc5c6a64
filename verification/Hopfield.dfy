// The Hopfield network behind spill placement: nodes, links, the update rule
// and the potential that every update lowers.
module Hopfield {
  // BlockFrequency saturates at the largest 64-bit value.
  const MAX_FREQ: nat := 0xFFFF_FFFF_FFFF_FFFF

  type Freq = x: nat | x <= MAX_FREQ

  function Sat(x: nat): Freq {
    if x <= MAX_FREQ then x else MAX_FREQ
  }

  datatype Link = Link(weight: Freq, to: nat)

  datatype Node = Node(biasN: Freq, biasP: Freq, value: int, links: seq<Link>, sum: Freq)

  predicate PreferReg(n: Node) { n.value > 0 }

  predicate MustSpill(n: Node) { n.biasN >= Sat(n.biasP + n.sum) }

  // ---- the update rule ----

  // Total weight of the links whose other end currently has value v.
  function Pull(ns: seq<Node>, links: seq<Link>, v: int): nat {
    if links == [] then 0
    else
      var last := links[|links| - 1];
      Pull(ns, links[..|links| - 1], v)
      + (if last.to < |ns| && ns[last.to].value == v then last.weight else 0)
  }

  function TotalWeight(links: seq<Link>): nat {
    if links == [] then 0 else TotalWeight(links[..|links| - 1]) + links[|links| - 1].weight
  }

  // Value that update gives a node with these saturated inputs.
  function Sign(sumN: Freq, sumP: Freq, threshold: nat): int {
    if sumN >= Sat(sumP + threshold) then -1
    else if sumP >= Sat(sumN + threshold) then 1
    else 0
  }

  function Decide(ns: seq<Node>, n: nat, threshold: nat): (v: int)
    requires n < |ns|
    ensures -1 <= v <= 1
  {
    Sign(Sat(ns[n].biasN + Pull(ns, ns[n].links, -1)), Sat(ns[n].biasP + Pull(ns, ns[n].links, 1)), threshold)
  }

  function Updated(ns: seq<Node>, n: nat, threshold: nat): seq<Node>
    requires n < |ns|
  {
    ns[n := ns[n].(value := Decide(ns, n, threshold))]
  }

  // ---- well-formed networks ----

  predicate HasLink(links: seq<Link>, b: nat) {
    exists i :: 0 <= i < |links| && links[i].to == b
  }

  // Weight of the link to b, 0 if there is none.
  function WeightTo(links: seq<Link>, b: nat): nat {
    if links == [] then 0
    else if links[|links| - 1].to == b then links[|links| - 1].weight
    else WeightTo(links[..|links| - 1], b)
  }

  ghost predicate Distinct(links: seq<Link>) {
    forall i, j :: 0 <= i < j < |links| ==> links[i].to != links[j].to
  }

  // Links of an active node: one per neighbour, none to itself, only to active nodes.
  ghost predicate LinksOK(ns: seq<Node>, active: set<nat>, n: nat)
    requires n < |ns|
  {
    && Distinct(ns[n].links)
    && (forall i :: 0 <= i < |ns[n].links| ==> ns[n].links[i].to in active && ns[n].links[i].to != n)
  }

  ghost predicate Symmetric(ns: seq<Node>, active: set<nat>)
    requires forall n :: n in active ==> n < |ns|
  {
    forall n, m :: n in active && m in active ==>
      WeightTo(ns[n].links, m) == WeightTo(ns[m].links, n)
      && (HasLink(ns[n].links, m) <==> HasLink(ns[m].links, n))
  }

  ghost predicate NetOK(ns: seq<Node>, active: set<nat>, threshold: nat) {
    && 1 <= threshold <= MAX_FREQ
    && (forall n :: n in active ==> n < |ns|)
    && (forall n :: n in active ==> LinksOK(ns, active, n))
    && (forall n :: n in active ==> -1 <= ns[n].value <= 1 && ns[n].sum == Sat(threshold + TotalWeight(ns[n].links)))
    && Symmetric(ns, active)
  }

  // ---- facts about sums ----

  lemma {:induction false} PullBound(ns: seq<Node>, links: seq<Link>)
    ensures Pull(ns, links, 1) + Pull(ns, links, -1) <= TotalWeight(links)
  {
    if links != [] { PullBound(ns, links[..|links| - 1]); }
  }

  lemma {:induction false} WeightToMember(links: seq<Link>, i: nat)
    requires Distinct(links) && i < |links|
    ensures WeightTo(links, links[i].to) == links[i].weight
  {
    if i < |links| - 1 {
      WeightToMember(links[..|links| - 1], i);
    }
  }

  lemma {:induction false} WeightToAbsent(links: seq<Link>, b: nat)
    requires !HasLink(links, b)
    ensures WeightTo(links, b) == 0
  {
    if links != [] {
      var init := links[..|links| - 1];
      assert links[|links| - 1].to != b;
      assert forall i :: 0 <= i < |init| ==> init[i] == links[i];
      WeightToAbsent(init, b);
    }
  }

  // ---- mustSpill ----

  // A node that must spill is decided for the stack whatever its neighbours are.
  lemma MustSpillDecides(ns: seq<Node>, n: nat, threshold: nat)
    requires n < |ns| && threshold <= MAX_FREQ
    requires ns[n].sum == Sat(threshold + TotalWeight(ns[n].links)) && MustSpill(ns[n])
    ensures Decide(ns, n, threshold) == -1
  {
    PullBound(ns, ns[n].links);
  }

  // ---- the effect of one value change on the sums ----

  lemma {:induction false} PullMonotone(ns: seq<Node>, ns2: seq<Node>, links: seq<Link>, v: int)
    requires |ns| == |ns2|
    requires forall m :: 0 <= m < |ns| && ns[m].value == v ==> ns2[m].value == v
    ensures Pull(ns, links, v) <= Pull(ns2, links, v)
  {
    if links != [] { PullMonotone(ns, ns2, links[..|links| - 1], v); }
  }

  // Raising one node's value can only raise what any node decides.
  lemma DecideMonotone(ns: seq<Node>, n: nat, high: int, m: nat, threshold: nat)
    requires n < |ns| && m < |ns| && n != m && -1 <= ns[n].value <= high <= 1
    ensures Decide(ns, m, threshold) <= Decide(ns[n := ns[n].(value := high)], m, threshold)
  {
    var ns2 := ns[n := ns[n].(value := high)];
    if high != ns[n].value {
      PullMonotone(ns, ns2, ns[m].links, 1);
      PullMonotone(ns2, ns, ns[m].links, -1);
    } else {
      assert ns2 == ns;
    }
  }

  // The update of m would not change its preference.
  predicate Settled(ns: seq<Node>, m: nat, threshold: nat)
    requires m < |ns|
  {
    (Decide(ns, m, threshold) > 0) == PreferReg(ns[m])
  }

  // getDissentingNeighbors may skip neighbours that already have the new value:
  // if they were settled, they still are.
  lemma SkippedNeighbourKeepsPreference(ns: seq<Node>, n: nat, m: nat, threshold: nat)
    requires n < |ns| && m < |ns| && n != m && -1 <= ns[n].value <= 1
    requires var ns2 := Updated(ns, n, threshold);
             PreferReg(ns2[n]) != PreferReg(ns[n]) && ns[m].value == ns2[n].value
    requires Settled(ns, m, threshold)
    ensures Settled(Updated(ns, n, threshold), m, threshold)
  {
    var ns2 := Updated(ns, n, threshold);
    if ns2[n].value > ns[n].value {
      DecideMonotone(ns, n, ns2[n].value, m, threshold);
    } else {
      assert ns == ns2[n := ns2[n].(value := ns[n].value)];
      DecideMonotone(ns2, n, ns[n].value, m, threshold);
    }
  }
}
