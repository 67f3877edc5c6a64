// A spill placement query as a function of its operations, and what every
// sequence of operations keeps.
module PlacementSpec {
  import opened Hopfield
  import opened HopfieldEnergy

  datatype BorderConstraint = DontCare | PrefReg | PrefSpill | PrefBoth | MustSpillHere

  datatype BlockConstraint = BlockConstraint(number: nat, entry: BorderConstraint, exit: BorderConstraint)

  // What the query knows about the function: edge bundles, which of them are
  // very large, and block frequencies.
  datatype Config = Config(numBundles: nat, bundle: (nat, bool) -> nat, large: nat -> bool,
                           entryFreq: Freq, blockFreq: nat -> Freq, threshold: Freq)

  datatype Net = Net(ns: seq<Node>, active: set<nat>, todo: seq<nat>, recent: seq<nat>)

  // Divide by 2^13, rounding to nearest, but never below 1.
  function ScaledThreshold(entry: Freq): (r: Freq)
    ensures r >= 1
    ensures r == 1 || (8192 * r <= entry + 4096 && entry < 8192 * r + 4096)
    ensures entry >= 12288 ==> r > 1
  {
    var scaled := entry / 8192 + (if (entry / 4096) % 2 == 1 then 1 else 0);
    if scaled < 1 then 1 else scaled
  }

  ghost predicate ConfigOK(cfg: Config) {
    && 1 <= cfg.threshold == ScaledThreshold(cfg.entryFreq)
    && (forall b, out :: cfg.bundle(b, out) < cfg.numBundles)
  }

  // ---- the operations ----

  function Insert(todo: seq<nat>, n: nat): seq<nat> {
    if n in todo then todo else todo + [n]
  }

  function Cleared(cfg: Config, n: nat): Node {
    if cfg.large(n) then Node(cfg.entryFreq / 16, 0, 0, [], cfg.threshold)
    else Node(0, 0, 0, [], cfg.threshold)
  }

  function Activate(cfg: Config, net: Net, n: nat): Net
    requires n < |net.ns| && ConfigOK(cfg)
  {
    if n in net.active then net.(todo := Insert(net.todo, n))
    else net.(todo := Insert(net.todo, n), active := net.active + {n}, ns := net.ns[n := Cleared(cfg, n)])
  }

  function AddBias(node: Node, freq: Freq, direction: BorderConstraint): Node {
    match direction
    case PrefReg => node.(biasP := Sat(node.biasP + freq))
    case PrefSpill => node.(biasN := Sat(node.biasN + freq))
    case MustSpillHere => node.(biasN := MAX_FREQ)
    case _ => node
  }

  // One border of one block.
  function Bias1(cfg: Config, net: Net, n: nat, freq: Freq, direction: BorderConstraint): Net
    requires n < |net.ns| && ConfigOK(cfg)
  {
    var net1 := Activate(cfg, net, n);
    net1.(ns := net1.ns[n := AddBias(net1.ns[n], freq, direction)])
  }

  function Constrain(cfg: Config, net: Net, lb: BlockConstraint): (r: Net)
    requires |net.ns| == cfg.numBundles && ConfigOK(cfg)
    ensures |r.ns| == |net.ns|
  {
    var freq := cfg.blockFreq(lb.number);
    var net1 := if lb.entry == DontCare then net else Bias1(cfg, net, cfg.bundle(lb.number, false), freq, lb.entry);
    if lb.exit == DontCare then net1 else Bias1(cfg, net1, cfg.bundle(lb.number, true), freq, lb.exit)
  }

  function ConstrainAll(cfg: Config, net: Net, lbs: seq<BlockConstraint>): (r: Net)
    requires |net.ns| == cfg.numBundles && ConfigOK(cfg)
    ensures |r.ns| == |net.ns|
  {
    if lbs == [] then net
    else Constrain(cfg, ConstrainAll(cfg, net, lbs[..|lbs| - 1]), lbs[|lbs| - 1])
  }

  function PreferSpill(cfg: Config, net: Net, b: nat, freq: Freq): (r: Net)
    requires |net.ns| == cfg.numBundles && ConfigOK(cfg)
    ensures |r.ns| == |net.ns|
  {
    var ib, ob := cfg.bundle(b, false), cfg.bundle(b, true);
    var net1 := Activate(cfg, Activate(cfg, net, ib), ob);
    var ns1 := net1.ns[ib := AddBias(net1.ns[ib], freq, PrefSpill)];
    net1.(ns := ns1[ob := AddBias(ns1[ob], freq, PrefSpill)])
  }

  // A strong preference counts twice.
  function SpillFreq(cfg: Config, b: nat, strong: bool): Freq {
    if strong then Sat(cfg.blockFreq(b) + cfg.blockFreq(b)) else cfg.blockFreq(b)
  }

  function PreferSpillAll(cfg: Config, net: Net, blocks: seq<nat>, strong: bool): (r: Net)
    requires |net.ns| == cfg.numBundles && ConfigOK(cfg)
    ensures |r.ns| == |net.ns|
  {
    if blocks == [] then net
    else
      var b := blocks[|blocks| - 1];
      PreferSpill(cfg, PreferSpillAll(cfg, net, blocks[..|blocks| - 1], strong), b, SpillFreq(cfg, b, strong))
  }

  // Position of the link to b, or the number of links.
  function FindLink(links: seq<Link>, b: nat): (i: nat)
    ensures i <= |links|
    ensures i < |links| ==> links[i].to == b
    ensures forall j :: 0 <= j < i ==> links[j].to != b
  {
    if links == [] then 0
    else if links[0].to == b then 0
    else
      var i := FindLink(links[1..], b);
      assert forall j :: 0 < j < i + 1 ==> links[j] == links[1..][j - 1];
      i + 1
  }

  // Add w to the link to b, or append the first link to b.
  function Joined(links: seq<Link>, b: nat, w: Freq): seq<Link> {
    var i := FindLink(links, b);
    if i == |links| then links + [Link(w, b)]
    else links[i := Link(Sat(links[i].weight + w), b)]
  }

  function AddLink(node: Node, b: nat, w: Freq): Node {
    node.(sum := Sat(node.sum + w), links := Joined(node.links, b, w))
  }

  function LinkBlock(cfg: Config, net: Net, b: nat): (r: Net)
    requires |net.ns| == cfg.numBundles && ConfigOK(cfg)
    ensures |r.ns| == |net.ns|
  {
    var ib, ob := cfg.bundle(b, false), cfg.bundle(b, true);
    if ib == ob then net else
      var net1 := Activate(cfg, Activate(cfg, net, ib), ob);
      net1.(ns := net1.ns[ib := AddLink(net1.ns[ib], ob, cfg.blockFreq(b))]
                         [ob := AddLink(net1.ns[ob], ib, cfg.blockFreq(b))])
  }

  function LinkAll(cfg: Config, net: Net, blocks: seq<nat>): (r: Net)
    requires |net.ns| == cfg.numBundles && ConfigOK(cfg)
    ensures |r.ns| == |net.ns|
  {
    if blocks == [] then net
    else LinkBlock(cfg, LinkAll(cfg, net, blocks[..|blocks| - 1]), blocks[|blocks| - 1])
  }

  // Neighbours whose value differs from v join the work list.
  function Dissent(ns: seq<Node>, links: seq<Link>, v: int, todo: seq<nat>): seq<nat> {
    if links == [] then todo
    else
      var todo1 := Dissent(ns, links[..|links| - 1], v, todo);
      var to := links[|links| - 1].to;
      if to < |ns| && ns[to].value != v then Insert(todo1, to) else todo1
  }

  function Flips(cfg: Config, net: Net, n: nat): bool
    requires n < |net.ns|
  {
    (net.ns[n].value > 0) != (Decide(net.ns, n, cfg.threshold) > 0)
  }

  function Update(cfg: Config, net: Net, n: nat): (r: Net)
    requires n < |net.ns|
    ensures |r.ns| == |net.ns|
  {
    var ns1 := Updated(net.ns, n, cfg.threshold);
    net.(ns := ns1, todo := if Flips(cfg, net, n) then Dissent(ns1, ns1[n].links, ns1[n].value, net.todo) else net.todo)
  }

  // scanActiveBundles over the bundles below j.
  function Scan(cfg: Config, net: Net, j: nat): (r: Net)
    requires j <= |net.ns|
    ensures |r.ns| == |net.ns|
  {
    if j == 0 then net.(recent := [])
    else
      var net1 := Scan(cfg, net, j - 1);
      if j - 1 !in net1.active then net1
      else
        var net2 := Update(cfg, net1, j - 1);
        if !MustSpill(net2.ns[j - 1]) && PreferReg(net2.ns[j - 1]) then net2.(recent := net2.recent + [j - 1]) else net2
  }

  // One turn of iterate: the last bundle queued is updated.
  function Turn(cfg: Config, net: Net): (r: Net)
    requires net.todo != [] && net.todo[|net.todo| - 1] < |net.ns|
    ensures |r.ns| == |net.ns|
  {
    var n := net.todo[|net.todo| - 1];
    var net1 := Update(cfg, net.(todo := net.todo[..|net.todo| - 1]), n);
    if Flips(cfg, net, n) && PreferReg(net1.ns[n]) then net1.(recent := net1.recent + [n]) else net1
  }

  function Prepare(net: Net): Net {
    net.(active := {}, todo := [], recent := [])
  }

  // Bundles that keep the variable in a register.
  function Finish(net: Net): set<nat>
    requires forall n :: n in net.active ==> n < |net.ns|
  {
    set n | n in net.active && PreferReg(net.ns[n])
  }

  // ---- the invariant ----

  ghost predicate TodoOK(net: Net) {
    && (forall i :: 0 <= i < |net.todo| ==> net.todo[i] in net.active)
    && (forall i, j :: 0 <= i < j < |net.todo| ==> net.todo[i] != net.todo[j])
  }

  // A bundle with a MustSpill constraint can only still prefer a register while
  // its update is pending.
  ghost predicate MustSpillQueued(net: Net) {
    forall n :: n in net.active && n < |net.ns| && net.ns[n].biasN == MAX_FREQ && PreferReg(net.ns[n]) ==> n in net.todo
  }

  ghost predicate Inv(cfg: Config, net: Net) {
    && ConfigOK(cfg)
    && |net.ns| == cfg.numBundles
    && NetOK(net.ns, net.active, cfg.threshold)
    && TodoOK(net)
    && MustSpillQueued(net)
  }

  // ---- every operation keeps it ----

  // NetOK does not depend on biases, and on values only through their range.
  lemma NetSameLinks(ns: seq<Node>, ns2: seq<Node>, active: set<nat>, threshold: nat)
    requires NetOK(ns, active, threshold) && |ns| == |ns2|
    requires forall n :: n in active ==>
               ns2[n].links == ns[n].links && ns2[n].sum == ns[n].sum && -1 <= ns2[n].value <= 1
    ensures NetOK(ns2, active, threshold)
  {
    hide WeightTo, TotalWeight, HasLink, Distinct;
    forall n | n in active ensures LinksOK(ns2, active, n) {
      assert LinksOK(ns, active, n);
    }
    forall n, m | n in active && m in active
      ensures WeightTo(ns2[n].links, m) == WeightTo(ns2[m].links, n)
              && (HasLink(ns2[n].links, m) <==> HasLink(ns2[m].links, n))
    {
      assert ns2[n].links == ns[n].links && ns2[m].links == ns[m].links;
    }
  }

  lemma ClearedNetOK(cfg: Config, net: Net, n: nat)
    requires ConfigOK(cfg) && NetOK(net.ns, net.active, cfg.threshold) && n < |net.ns| && n !in net.active
    ensures NetOK(net.ns[n := Cleared(cfg, n)], net.active + {n}, cfg.threshold)
  {
    hide LinksOK, Symmetric, TotalWeight, WeightTo, HasLink;
    var ns2, active2 := net.ns[n := Cleared(cfg, n)], net.active + {n};
    forall m | m in active2 ensures LinksOK(ns2, active2, m) {
      ClearedLinks(net.ns, net.active, n, Cleared(cfg, n), m);
    }
    ClearedSymmetric(net.ns, net.active, n, Cleared(cfg, n));
    NoWeight();
  }

  lemma NoWeight()
    ensures TotalWeight([]) == 0
  {
  }

  lemma ClearedLinks(ns: seq<Node>, active: set<nat>, n: nat, x: Node, m: nat)
    requires n < |ns| && m < |ns| && n !in active && x.links == []
    requires m == n || LinksOK(ns, active, m)
    ensures LinksOK(ns[n := x], active + {n}, m)
    ensures m == n || !HasLink(ns[m].links, n)
  {
  }

  lemma ClearedSymmetric(ns: seq<Node>, active: set<nat>, n: nat, x: Node)
    requires n < |ns| && n !in active && x.links == [] && forall m :: m in active ==> m < |ns| && LinksOK(ns, active, m)
    requires Symmetric(ns, active)
    ensures Symmetric(ns[n := x], active + {n})
  {
    hide LinksOK, WeightTo, HasLink;
    forall m | m in active + {n}
      ensures WeightTo(ns[n := x][m].links, n) == 0 && WeightTo(x.links, m) == 0
              && !HasLink(ns[n := x][m].links, n) && !HasLink(x.links, m)
    {
      NoLinkTo(m);
      NoLinkTo(n);
      if m != n {
        ClearedLinks(ns, active, n, x, m);
        WeightToAbsent(ns[m].links, n);
      }
    }
  }

  lemma NoLinkTo(m: nat)
    ensures WeightTo([], m) == 0 && !HasLink([], m)
  {
  }

  lemma ActivateInv(cfg: Config, net: Net, n: nat)
    requires Inv(cfg, net) && n < cfg.numBundles
    ensures Inv(cfg, Activate(cfg, net, n))
    ensures n in Activate(cfg, net, n).active && n in Activate(cfg, net, n).todo
    ensures forall m :: m in net.todo ==> m in Activate(cfg, net, n).todo
  {
    var net1 := Activate(cfg, net, n);
    if n !in net.active { ClearedNetOK(cfg, net, n); }
    assert net1.todo == net.todo || (n !in net.todo && net1.todo == net.todo + [n]);
  }

  // Biases may change only on bundles whose update is pending.
  lemma BiasInv(cfg: Config, net: Net, n: nat, node: Node)
    requires Inv(cfg, net) && n in net.active && n in net.todo
    requires node.links == net.ns[n].links && node.sum == net.ns[n].sum && node.value == net.ns[n].value
    ensures Inv(cfg, net.(ns := net.ns[n := node]))
  {
    NetSameLinks(net.ns, net.ns[n := node], net.active, cfg.threshold);
  }

  lemma Bias1Inv(cfg: Config, net: Net, n: nat, freq: Freq, direction: BorderConstraint)
    requires Inv(cfg, net) && n < cfg.numBundles
    ensures Inv(cfg, Bias1(cfg, net, n, freq, direction))
  {
    hide NetOK, TodoOK, MustSpillQueued, Activate;
    var net1 := Activate(cfg, net, n);
    ActivateInv(cfg, net, n);
    BiasInv(cfg, net1, n, AddBias(net1.ns[n], freq, direction));
  }

  lemma {:induction false} ConstrainAllInv(cfg: Config, net: Net, lbs: seq<BlockConstraint>)
    requires Inv(cfg, net)
    ensures Inv(cfg, ConstrainAll(cfg, net, lbs))
  {
    if lbs != [] {
      var net0, lb := ConstrainAll(cfg, net, lbs[..|lbs| - 1]), lbs[|lbs| - 1];
      ConstrainAllInv(cfg, net, lbs[..|lbs| - 1]);
      var freq := cfg.blockFreq(lb.number);
      var net1 := if lb.entry == DontCare then net0 else Bias1(cfg, net0, cfg.bundle(lb.number, false), freq, lb.entry);
      if lb.entry != DontCare { Bias1Inv(cfg, net0, cfg.bundle(lb.number, false), freq, lb.entry); }
      if lb.exit != DontCare { Bias1Inv(cfg, net1, cfg.bundle(lb.number, true), freq, lb.exit); }
    }
  }

  lemma BothActive(cfg: Config, net: Net, ib: nat, ob: nat) returns (net1: Net)
    requires Inv(cfg, net) && ib < cfg.numBundles && ob < cfg.numBundles
    ensures net1 == Activate(cfg, Activate(cfg, net, ib), ob) && Inv(cfg, net1)
    ensures ib in net1.active && ob in net1.active && ib in net1.todo && ob in net1.todo
  {
    hide NetOK, TodoOK, MustSpillQueued;
    ActivateInv(cfg, net, ib);
    ActivateInv(cfg, Activate(cfg, net, ib), ob);
    net1 := Activate(cfg, Activate(cfg, net, ib), ob);
  }

  lemma PreferSpillInv(cfg: Config, net: Net, b: nat, freq: Freq)
    requires Inv(cfg, net)
    ensures Inv(cfg, PreferSpill(cfg, net, b, freq))
  {
    hide NetOK, TodoOK, MustSpillQueued, Activate;
    var ib, ob := cfg.bundle(b, false), cfg.bundle(b, true);
    var net1 := BothActive(cfg, net, ib, ob);
    BiasInv(cfg, net1, ib, AddBias(net1.ns[ib], freq, PrefSpill));
    var net2 := net1.(ns := net1.ns[ib := AddBias(net1.ns[ib], freq, PrefSpill)]);
    BiasInv(cfg, net2, ob, AddBias(net2.ns[ob], freq, PrefSpill));
  }

  lemma {:induction false} PreferSpillAllInv(cfg: Config, net: Net, blocks: seq<nat>, strong: bool)
    requires Inv(cfg, net)
    ensures Inv(cfg, PreferSpillAll(cfg, net, blocks, strong))
  {
    if blocks != [] {
      PreferSpillAllInv(cfg, net, blocks[..|blocks| - 1], strong);
      var b := blocks[|blocks| - 1];
      PreferSpillInv(cfg, PreferSpillAll(cfg, net, blocks[..|blocks| - 1], strong), b, SpillFreq(cfg, b, strong));
    }
  }

  // ---- links ----

  lemma {:induction false} TotalWeightUpdate(links: seq<Link>, i: nat, x: Link)
    requires i < |links|
    ensures TotalWeight(links[i := x]) == TotalWeight(links) - links[i].weight + x.weight
    ensures links[i].weight <= TotalWeight(links)
  {
    var n := |links| - 1;
    if i < n {
      assert links[i := x][..n] == links[..n][i := x];
      TotalWeightUpdate(links[..n], i, x);
    } else {
      assert links[i := x][..n] == links[..n];
    }
  }

  lemma JoinedTotal(links: seq<Link>, b: nat, w: Freq, threshold: nat)
    ensures Sat(threshold + TotalWeight(Joined(links, b, w))) == Sat(Sat(threshold + TotalWeight(links)) + w)
  {
    hide FindLink, TotalWeight;
    var i := FindLink(links, b);
    if i < |links| {
      TotalWeightUpdate(links, i, Link(Sat(links[i].weight + w), b));
    } else {
      TotalWeightAppend(links, Link(w, b));
    }
  }

  lemma TotalWeightAppend(links: seq<Link>, x: Link)
    ensures TotalWeight(links + [x]) == TotalWeight(links) + x.weight
  {
    assert (links + [x])[..|links|] == links;
  }

  lemma JoinedLinks(links: seq<Link>, b: nat, w: Freq, m: nat)
    requires Distinct(links)
    ensures Distinct(Joined(links, b, w))
    ensures HasLink(Joined(links, b, w), m) <==> HasLink(links, m) || m == b
    ensures WeightTo(Joined(links, b, w), m) == if m == b then Sat(WeightTo(links, b) + w) else WeightTo(links, m)
  {
    hide WeightTo, TotalWeight;
    var i, more := FindLink(links, b), Joined(links, b, w);
    assert more[i].to == b;
    assert forall k :: 0 <= k < |more| && k != i ==> k < |links| && more[k] == links[k];
    assert i < |links| ==> links[i].to == b;
    WeightToMember(more, i);
    if i < |links| {
      WeightToMember(links, i);
    } else {
      WeightToAbsent(links, b);
    }
    if m != b {
      if HasLink(links, m) {
        var j :| 0 <= j < |links| && links[j].to == m;
        assert more[j] == links[j];
        WeightToMember(links, j);
        WeightToMember(more, j);
      } else {
        WeightToAbsent(links, m);
        WeightToAbsent(more, m);
      }
    }
  }

  // Both ends of a link grow by the same weight.
  lemma LinkedNetOK(ns: seq<Node>, active: set<nat>, threshold: nat, a: nat, b: nat, w: Freq)
    requires NetOK(ns, active, threshold) && a in active && b in active && a != b
    ensures NetOK(ns[a := AddLink(ns[a], b, w)][b := AddLink(ns[b], a, w)], active, threshold)
  {
    hide WeightTo, TotalWeight, Joined, LinksOK, Symmetric;
    var ns2 := ns[a := AddLink(ns[a], b, w)][b := AddLink(ns[b], a, w)];
    JoinedTotal(ns[a].links, b, w, threshold);
    JoinedTotal(ns[b].links, a, w, threshold);
    forall n | n in active ensures LinksOK(ns2, active, n) {
      LinkedTargets(ns, active, a, b, w, n);
    }
    LinkedSymmetric(ns, active, threshold, a, b, w);
  }

  lemma LinkedSymmetric(ns: seq<Node>, active: set<nat>, threshold: nat, a: nat, b: nat, w: Freq)
    requires NetOK(ns, active, threshold) && a in active && b in active && a != b
    ensures Symmetric(ns[a := AddLink(ns[a], b, w)][b := AddLink(ns[b], a, w)], active)
  {
    hide WeightTo, HasLink, TotalWeight, Joined, AddLink;
    var ns2 := ns[a := AddLink(ns[a], b, w)][b := AddLink(ns[b], a, w)];
    LinkedEnd(ns, active, a, b, w);
    LinkedEnd(ns, active, b, a, w);
    forall n, m | n in active && m in active
      ensures WeightTo(ns2[n].links, m) == WeightTo(ns2[m].links, n)
              && (HasLink(ns2[n].links, m) <==> HasLink(ns2[m].links, n))
    {
      assert WeightTo(ns[n].links, m) == WeightTo(ns[m].links, n);
    }
  }

  lemma LinkedEnd(ns: seq<Node>, active: set<nat>, a: nat, b: nat, w: Freq)
    requires a < |ns| && LinksOK(ns, active, a)
    ensures Distinct(AddLink(ns[a], b, w).links)
    ensures forall m: nat :: HasLink(AddLink(ns[a], b, w).links, m) <==> HasLink(ns[a].links, m) || m == b
    ensures forall m: nat :: WeightTo(AddLink(ns[a], b, w).links, m)
                 == if m == b then Sat(WeightTo(ns[a].links, b) + w) else WeightTo(ns[a].links, m)
  {
    forall m: nat
      ensures HasLink(AddLink(ns[a], b, w).links, m) <==> HasLink(ns[a].links, m) || m == b
      ensures WeightTo(AddLink(ns[a], b, w).links, m)
                 == if m == b then Sat(WeightTo(ns[a].links, b) + w) else WeightTo(ns[a].links, m)
    {
      JoinedLinks(ns[a].links, b, w, m);
    }
    JoinedLinks(ns[a].links, b, w, b);
  }

  lemma LinkedTargets(ns: seq<Node>, active: set<nat>, a: nat, b: nat, w: Freq, n: nat)
    requires a in active && b in active && n in active && a < |ns| && b < |ns| && n < |ns| && a != b
    requires LinksOK(ns, active, a) && LinksOK(ns, active, b) && LinksOK(ns, active, n)
    ensures LinksOK(ns[a := AddLink(ns[a], b, w)][b := AddLink(ns[b], a, w)], active, n)
  {
    JoinedTargets(ns[a].links, b, w);
    JoinedTargets(ns[b].links, a, w);
    hide Joined, FindLink, Distinct;
  }

  // Every link after joining goes where one went before, or to b.
  lemma JoinedTargets(links: seq<Link>, b: nat, w: Freq)
    requires Distinct(links)
    ensures Distinct(Joined(links, b, w))
    ensures var more := Joined(links, b, w);
            forall i :: 0 <= i < |more| ==> more[i].to == b || (i < |links| && more[i].to == links[i].to)
  {
    hide HasLink, WeightTo;
    JoinedLinks(links, b, w, b);
  }

  lemma LinkKeepsBias(node: Node, b: nat, w: Freq)
    ensures AddLink(node, b, w).value == node.value && AddLink(node, b, w).biasN == node.biasN
  {}

  lemma LinkBlockInv(cfg: Config, net: Net, b: nat)
    requires Inv(cfg, net)
    ensures Inv(cfg, LinkBlock(cfg, net, b))
  {
    var ib, ob := cfg.bundle(b, false), cfg.bundle(b, true);
    hide NetOK, Activate, AddLink;
    if ib != ob {
      var net1 := BothActive(cfg, net, ib, ob);
      LinkedNetOK(net1.ns, net1.active, cfg.threshold, ib, ob, cfg.blockFreq(b));
      LinkKeepsBias(net1.ns[ib], ob, cfg.blockFreq(b));
      LinkKeepsBias(net1.ns[ob], ib, cfg.blockFreq(b));
    }
  }

  lemma {:induction false} LinkAllInv(cfg: Config, net: Net, blocks: seq<nat>)
    requires Inv(cfg, net)
    ensures Inv(cfg, LinkAll(cfg, net, blocks))
  {
    if blocks != [] {
      LinkAllInv(cfg, net, blocks[..|blocks| - 1]);
      LinkBlockInv(cfg, LinkAll(cfg, net, blocks[..|blocks| - 1]), blocks[|blocks| - 1]);
    }
  }

  // ---- updates ----

  // The work list only grows, by active bundles, without repetition, and gains
  // every neighbour whose value differs.
  lemma {:induction false} DissentGrows(ns: seq<Node>, links: seq<Link>, v: int, todo: seq<nat>, active: set<nat>)
    requires forall i :: 0 <= i < |links| ==> links[i].to in active
    requires forall n :: n in active ==> n < |ns|
    requires forall i :: 0 <= i < |todo| ==> todo[i] in active
    requires forall i, j :: 0 <= i < j < |todo| ==> todo[i] != todo[j]
    ensures var more := Dissent(ns, links, v, todo);
            && (forall i :: 0 <= i < |more| ==> more[i] in active)
            && (forall i, j :: 0 <= i < j < |more| ==> more[i] != more[j])
            && (forall n :: n in todo ==> n in more)
            && (forall i :: 0 <= i < |links| && ns[links[i].to].value != v ==> links[i].to in more)
  {
    if links != [] {
      var init := links[..|links| - 1];
      assert forall i :: 0 <= i < |init| ==> init[i] == links[i];
      DissentGrows(ns, init, v, todo, active);
    }
  }

  // As Inv, except that n's own update has just been taken off the work list.
  ghost predicate InvBut(cfg: Config, net: Net, n: nat) {
    && ConfigOK(cfg)
    && |net.ns| == cfg.numBundles
    && NetOK(net.ns, net.active, cfg.threshold)
    && TodoOK(net)
    && (forall m :: m in net.active && m < |net.ns| && net.ns[m].biasN == MAX_FREQ && PreferReg(net.ns[m]) ==>
          m in net.todo || m == n)
  }

  lemma RecentInv(cfg: Config, net: Net, recent: seq<nat>)
    requires Inv(cfg, net)
    ensures Inv(cfg, net.(recent := recent))
  {
  }

  lemma UpdateInv(cfg: Config, net: Net, n: nat)
    requires InvBut(cfg, net, n) && n in net.active
    ensures Inv(cfg, Update(cfg, net, n))
    ensures forall m :: m in net.todo ==> m in Update(cfg, net, n).todo
    ensures Update(cfg, net, n).active == net.active
  {
    hide NetOK, Decide, Dissent, Flips;
    UpdatedNetOK(net.ns, net.active, n, cfg.threshold);
    ForcedOut(net.ns, net.active, n, cfg.threshold);
    UpdateTodo(cfg, net, n);
    hide TodoOK, ConfigOK;
    assert MustSpillQueued(Update(cfg, net, n));
  }

  lemma UpdateTodo(cfg: Config, net: Net, n: nat)
    requires TodoOK(net) && n in net.active && forall m :: m in net.active ==> m < |net.ns|
    requires forall i :: 0 <= i < |net.ns[n].links| ==> net.ns[n].links[i].to in net.active
    ensures TodoOK(Update(cfg, net, n)) && forall m :: m in net.todo ==> m in Update(cfg, net, n).todo
  {
    hide Decide, Flips;
    var ns1 := Updated(net.ns, n, cfg.threshold);
    if Flips(cfg, net, n) { DissentGrows(ns1, ns1[n].links, ns1[n].value, net.todo, net.active); }
  }

  lemma UpdatedNetOK(ns: seq<Node>, active: set<nat>, n: nat, threshold: nat)
    requires NetOK(ns, active, threshold) && n in active
    ensures NetOK(Updated(ns, n, threshold), active, threshold)
    ensures forall m :: m in active ==> m < |ns|
  {
    hide Decide, Symmetric, TotalWeight;
    NetSameLinks(ns, Updated(ns, n, threshold), active, threshold);
  }

  // What update needs to know about n.
  lemma ForcedOut(ns: seq<Node>, active: set<nat>, n: nat, threshold: nat)
    requires NetOK(ns, active, threshold) && n in active
    ensures ns[n].biasN == MAX_FREQ ==> Decide(ns, n, threshold) == -1
    ensures forall i :: 0 <= i < |ns[n].links| ==> ns[n].links[i].to in active
  {
    hide Symmetric, Decide, TotalWeight;
    assert LinksOK(ns, active, n);
    if ns[n].biasN == MAX_FREQ { MustSpillDecides(ns, n, threshold); }
  }

  lemma PendingIsFine(cfg: Config, net: Net, n: nat)
    requires Inv(cfg, net)
    ensures InvBut(cfg, net, n)
  {}

  lemma {:induction false} ScanInv(cfg: Config, net: Net, j: nat)
    requires Inv(cfg, net) && j <= |net.ns|
    ensures Inv(cfg, Scan(cfg, net, j)) && Scan(cfg, net, j).active == net.active
  {
    hide NetOK, Update;
    if j > 0 {
      ScanInv(cfg, net, j - 1);
      var net1 := Scan(cfg, net, j - 1);
      PendingIsFine(cfg, net1, j - 1);
      if j - 1 in net1.active { UpdateInv(cfg, net1, j - 1); }
    }
  }

  lemma ActiveInRange(ns: seq<Node>, active: set<nat>, threshold: nat, n: nat)
    requires NetOK(ns, active, threshold) && n in active
    ensures n < |ns|
  {}

  lemma TurnInv(cfg: Config, net: Net)
    requires Inv(cfg, net) && net.todo != []
    ensures net.todo[|net.todo| - 1] in net.active && net.todo[|net.todo| - 1] < |net.ns|
    ensures Inv(cfg, Turn(cfg, net)) && Turn(cfg, net).active == net.active
  {
    hide NetOK, Update;
    var n := net.todo[|net.todo| - 1];
    ActiveInRange(net.ns, net.active, cfg.threshold, n);
    var popped := net.(todo := net.todo[..|net.todo| - 1]);
    assert InvBut(cfg, popped, n) by {
      forall m | m in net.todo && m != n ensures m in popped.todo {
        var i :| 0 <= i < |net.todo| && net.todo[i] == m;
        assert popped.todo[i] == m;
      }
    }
    UpdateInv(cfg, popped, n);
  }

  lemma PrepareInv(cfg: Config, net: Net)
    requires ConfigOK(cfg) && |net.ns| == cfg.numBundles
    ensures Inv(cfg, Prepare(net))
  {}
}
