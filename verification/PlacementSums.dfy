// What the biases and links of a network are after any run of operations: sums
// over the block borders and the transparent blocks that the query was told about.
module PlacementSums {
  import opened Hopfield
  import opened HopfieldEnergy
  import opened PlacementSpec
  import opened PlacementRuns

  // A border of a block that falls on a bundle, and a block that joins two bundles.
  datatype Border = Border(bundle: nat, freq: nat, kind: BorderConstraint)
  datatype Edge = Edge(a: nat, b: nat, freq: nat)

  // Total frequency of the borders of one kind that fall on bundle n.
  function Amount(bs: seq<Border>, n: nat, kind: BorderConstraint): nat {
    if bs == [] then 0
    else
      var last := bs[|bs| - 1];
      Amount(bs[..|bs| - 1], n, kind) + (if last.bundle == n && last.kind == kind then last.freq else 0)
  }

  predicate Joins(e: Edge, n: nat, m: nat) { (e.a == n && e.b == m) || (e.a == m && e.b == n) }

  // Total frequency of the blocks that join bundles n and m.
  function Between(es: seq<Edge>, n: nat, m: nat): nat {
    if es == [] then 0
    else
      var last := es[|es| - 1];
      Between(es[..|es| - 1], n, m) + (if Joins(last, n, m) then last.freq else 0)
  }

  ghost predicate Falls(bs: seq<Border>, n: nat) {
    exists b :: b in bs && b.bundle == n
  }

  ghost predicate Forced(bs: seq<Border>, n: nat) {
    exists b :: b in bs && b.bundle == n && b.kind == MustSpillHere
  }

  ghost predicate Linked(es: seq<Edge>, n: nat, m: nat) {
    exists e :: e in es && Joins(e, n, m)
  }

  ghost predicate IsEnd(es: seq<Edge>, n: nat) {
    exists e :: e in es && (e.a == n || e.b == n)
  }

  // Very large bundles start with a small bias against a register.
  function StartBias(cfg: Config, n: nat): nat {
    if cfg.large(n) then cfg.entryFreq / 16 else 0
  }

  // ---- what the operations are told ----

  function OneBorder(n: nat, freq: nat, kind: BorderConstraint): seq<Border> {
    if kind == DontCare then [] else [Border(n, freq, kind)]
  }

  function BordersOf(cfg: Config, lbs: seq<BlockConstraint>): seq<Border> {
    if lbs == [] then []
    else
      var lb := lbs[|lbs| - 1];
      BordersOf(cfg, lbs[..|lbs| - 1])
      + OneBorder(cfg.bundle(lb.number, false), cfg.blockFreq(lb.number), lb.entry)
      + OneBorder(cfg.bundle(lb.number, true), cfg.blockFreq(lb.number), lb.exit)
  }

  // A strong preference counts the block twice.
  function SpillBorders(cfg: Config, blocks: seq<nat>, strong: bool): seq<Border> {
    if blocks == [] then []
    else
      var b := blocks[|blocks| - 1];
      var freq := (if strong then 2 else 1) * cfg.blockFreq(b);
      SpillBorders(cfg, blocks[..|blocks| - 1], strong)
      + [Border(cfg.bundle(b, false), freq, PrefSpill)] + [Border(cfg.bundle(b, true), freq, PrefSpill)]
  }

  function EdgesOf(cfg: Config, blocks: seq<nat>): seq<Edge> {
    if blocks == [] then []
    else
      var b := blocks[|blocks| - 1];
      var ib, ob := cfg.bundle(b, false), cfg.bundle(b, true);
      EdgesOf(cfg, blocks[..|blocks| - 1]) + (if ib == ob then [] else [Edge(ib, ob, cfg.blockFreq(b))])
  }

  function OpBorders(cfg: Config, op: Op): seq<Border> {
    match op
    case Constraints(lbs) => BordersOf(cfg, lbs)
    case PrefSpills(blocks, strong) => SpillBorders(cfg, blocks, strong)
    case _ => []
  }

  function OpEdges(cfg: Config, op: Op): seq<Edge> {
    match op
    case Links(blocks) => EdgesOf(cfg, blocks)
    case _ => []
  }

  function AllBorders(cfg: Config, ops: seq<Op>): seq<Border> {
    if ops == [] then [] else AllBorders(cfg, ops[..|ops| - 1]) + OpBorders(cfg, ops[|ops| - 1])
  }

  function AllEdges(cfg: Config, ops: seq<Op>): seq<Edge> {
    if ops == [] then [] else AllEdges(cfg, ops[..|ops| - 1]) + OpEdges(cfg, ops[|ops| - 1])
  }

  // ---- what a network made of borders and edges looks like ----

  ghost predicate BiasIs(cfg: Config, node: Node, n: nat, bs: seq<Border>) {
    && node.biasP == Sat(Amount(bs, n, PrefReg))
    && node.biasN == if Forced(bs, n) then MAX_FREQ else Sat(StartBias(cfg, n) + Amount(bs, n, PrefSpill))
  }

  ghost predicate LinksAre(node: Node, n: nat, es: seq<Edge>) {
    forall m: nat :: WeightTo(node.links, m) == Sat(Between(es, n, m)) && (HasLink(node.links, m) <==> Linked(es, n, m))
  }

  // Active are exactly the bundles that a border or an edge touches, and some more.
  ghost predicate MadeOf(cfg: Config, net: Net, bs: seq<Border>, es: seq<Edge>, more: set<nat>) {
    && (forall n :: n in net.active <==> Falls(bs, n) || IsEnd(es, n) || n in more)
    && (forall n :: n in net.active ==>
          n < |net.ns| && BiasIs(cfg, net.ns[n], n, bs) && LinksAre(net.ns[n], n, es))
  }

  // ---- sums ----

  lemma AmountMore(bs: seq<Border>, b: Border, n: nat, kind: BorderConstraint)
    ensures Amount(bs + [b], n, kind) == Amount(bs, n, kind) + if b.bundle == n && b.kind == kind then b.freq else 0
  {
    assert (bs + [b])[..|bs|] == bs;
  }

  lemma {:induction false} NothingFalls(bs: seq<Border>, n: nat, kind: BorderConstraint)
    requires !Falls(bs, n)
    ensures Amount(bs, n, kind) == 0
  {
    if bs != [] {
      var init := bs[..|bs| - 1];
      assert forall b :: b in init ==> b in bs;
      NothingFalls(init, n, kind);
      assert bs[|bs| - 1] in bs;
    }
  }

  lemma BetweenMore(es: seq<Edge>, e: Edge, n: nat, m: nat)
    ensures Between(es + [e], n, m) == Between(es, n, m) + if Joins(e, n, m) then e.freq else 0
  {
    assert (es + [e])[..|es|] == es;
  }

  lemma {:induction false} NothingJoins(es: seq<Edge>, n: nat, m: nat)
    requires !IsEnd(es, n)
    ensures Between(es, n, m) == 0 && !Linked(es, n, m)
  {
    if es != [] {
      var init := es[..|es| - 1];
      assert forall e :: e in init ==> e in es;
      NothingJoins(init, n, m);
      assert es[|es| - 1] in es;
    }
  }

  // ---- single steps ----

  lemma FreshNode(cfg: Config, n: nat, bs: seq<Border>, es: seq<Edge>)
    requires !Falls(bs, n) && !IsEnd(es, n)
    ensures BiasIs(cfg, Cleared(cfg, n), n, bs) && LinksAre(Cleared(cfg, n), n, es)
  {
    NothingFalls(bs, n, PrefReg);
    NothingFalls(bs, n, PrefSpill);
    forall m: nat ensures Between(es, n, m) == 0 && !Linked(es, n, m) {
      NothingJoins(es, n, m);
    }
    hide Between, Linked, IsEnd;
  }

  lemma ActivateMade(cfg: Config, net: Net, bs: seq<Border>, es: seq<Edge>, more: set<nat>, n: nat)
    requires ConfigOK(cfg) && MadeOf(cfg, net, bs, es, more) && n < |net.ns|
    ensures MadeOf(cfg, Activate(cfg, net, n), bs, es, more + {n}) && n in Activate(cfg, net, n).active
  {
    hide BiasIs, LinksAre, Falls, IsEnd, Cleared;
    if n !in net.active { FreshNode(cfg, n, bs, es); }
  }

  lemma FallsMore(bs: seq<Border>, b: Border, n: nat)
    ensures Falls(bs + [b], n) <==> Falls(bs, n) || b.bundle == n
    ensures Forced(bs + [b], n) <==> Forced(bs, n) || (b.bundle == n && b.kind == MustSpillHere)
  {
    if b.bundle == n { assert b in bs + [b]; }
    if x :| x in bs && x.bundle == n && x.kind == MustSpillHere { assert x in bs + [b]; }
    if x :| x in bs && x.bundle == n { assert x in bs + [b]; }
  }

  // One more border: the bias of its bundle grows by its frequency, or is pinned.
  lemma BiasMade(cfg: Config, net: Net, bs: seq<Border>, es: seq<Edge>, more: set<nat>, b: Border, freq: Freq)
    requires MadeOf(cfg, net, bs, es, more) && b.bundle in net.active && freq == Sat(b.freq)
    ensures b.bundle < |net.ns|
    ensures var ns := net.ns[b.bundle := AddBias(net.ns[b.bundle], freq, b.kind)];
            MadeOf(cfg, net.(ns := ns), bs + [b], es, more)
  {
    var ns := net.ns[b.bundle := AddBias(net.ns[b.bundle], freq, b.kind)];
    forall n ensures Falls(bs + [b], n) <==> Falls(bs, n) || b.bundle == n { FallsMore(bs, b, n); }
    forall n | n in net.active ensures BiasIs(cfg, ns[n], n, bs + [b]) && LinksAre(ns[n], n, es) {
      BiasNode(cfg, net.ns[n], bs, b, freq, n);
      hide BiasIs, LinksAre;
      KeepsLinks(net.ns[n], AddBias(net.ns[n], freq, b.kind), n, es);
    }
    hide BiasIs, LinksAre, Falls, IsEnd;
  }

  lemma KeepsLinks(x: Node, y: Node, n: nat, es: seq<Edge>)
    requires LinksAre(x, n, es) && y.links == x.links
    ensures LinksAre(y, n, es)
  {}

  lemma BiasNode(cfg: Config, node: Node, bs: seq<Border>, b: Border, freq: Freq, n: nat)
    requires BiasIs(cfg, node, n, bs) && freq == Sat(b.freq)
    ensures BiasIs(cfg, if b.bundle == n then AddBias(node, freq, b.kind) else node, n, bs + [b])
    ensures AddBias(node, freq, b.kind).links == node.links
  {
    AmountMore(bs, b, n, PrefReg);
    AmountMore(bs, b, n, PrefSpill);
    FallsMore(bs, b, n);
    hide Amount, Forced, Falls;
  }

  // Once an edge or a border touches it, nothing else needs to say n is active.
  lemma NoMore(cfg: Config, net: Net, bs: seq<Border>, es: seq<Edge>, more: set<nat>)
    requires MadeOf(cfg, net, bs, es, more) && forall n :: n in more ==> Falls(bs, n) || IsEnd(es, n)
    ensures MadeOf(cfg, net, bs, es, {})
  {
    hide BiasIs, LinksAre, Falls, IsEnd;
  }

  lemma Bias1Made(cfg: Config, net: Net, bs: seq<Border>, es: seq<Edge>, b: Border)
    requires ConfigOK(cfg) && MadeOf(cfg, net, bs, es, {}) && b.bundle < |net.ns|
    ensures |Bias1(cfg, net, b.bundle, Sat(b.freq), b.kind).ns| == |net.ns|
    ensures MadeOf(cfg, Bias1(cfg, net, b.bundle, Sat(b.freq), b.kind), bs + [b], es, {})
  {
    assert |Activate(cfg, net, b.bundle).ns| == |net.ns|;
    hide MadeOf, Activate, Falls, ConfigOK, AddBias;
    var none: set<nat> := {};
    ActivateMade(cfg, net, bs, es, none, b.bundle);
    assert none + {b.bundle} == {b.bundle};
    var net1 := Activate(cfg, net, b.bundle);
    BiasMade(cfg, net1, bs, es, {b.bundle}, b, Sat(b.freq));
    FallsMore(bs, b, b.bundle);
    NoMore(cfg, Bias1(cfg, net, b.bundle, Sat(b.freq), b.kind), bs + [b], es, {b.bundle});
  }

  // ---- addConstraints, addPrefSpill ----

  // The biases after addConstraints are those of all borders together.
  lemma {:induction false} ConstrainMade(cfg: Config, net: Net, bs: seq<Border>, es: seq<Edge>,
                                         lbs: seq<BlockConstraint>)
    requires ConfigOK(cfg) && |net.ns| == cfg.numBundles && MadeOf(cfg, net, bs, es, {})
    ensures MadeOf(cfg, ConstrainAll(cfg, net, lbs), bs + BordersOf(cfg, lbs), es, {})
  {
    hide MadeOf, Bias1;
    if lbs == [] {
      assert bs + BordersOf(cfg, lbs) == bs;
    } else {
      var init, lb := lbs[..|lbs| - 1], lbs[|lbs| - 1];
      ConstrainMade(cfg, net, bs, es, init);
      var net0, bs0 := ConstrainAll(cfg, net, init), bs + BordersOf(cfg, init);
      var freq, ib, ob := cfg.blockFreq(lb.number), cfg.bundle(lb.number, false), cfg.bundle(lb.number, true);
      var net1, bs1 := if lb.entry == DontCare then net0 else Bias1(cfg, net0, ib, freq, lb.entry),
                       bs0 + OneBorder(ib, freq, lb.entry);
      if lb.entry != DontCare { Bias1Made(cfg, net0, bs0, es, Border(ib, freq, lb.entry)); }
      else { assert bs1 == bs0; }
      if lb.exit != DontCare { Bias1Made(cfg, net1, bs1, es, Border(ob, freq, lb.exit)); }
      else { assert bs1 + OneBorder(ob, freq, lb.exit) == bs1; }
      assert bs + BordersOf(cfg, lbs) == bs1 + OneBorder(ob, freq, lb.exit);
    }
  }

  lemma PreferSpillIsTwo(cfg: Config, net: Net, b: nat, freq: Freq)
    requires |net.ns| == cfg.numBundles && ConfigOK(cfg)
    ensures |Bias1(cfg, net, cfg.bundle(b, false), freq, PrefSpill).ns| == |net.ns|
    ensures PreferSpill(cfg, net, b, freq)
            == Bias1(cfg, Bias1(cfg, net, cfg.bundle(b, false), freq, PrefSpill), cfg.bundle(b, true), freq, PrefSpill)
  {
    var ib, ob := cfg.bundle(b, false), cfg.bundle(b, true);
    hide AddBias, Cleared, Insert;
    var once := Bias1(cfg, net, ib, freq, PrefSpill);
    var twice := Bias1(cfg, once, ob, freq, PrefSpill);
    assert PreferSpill(cfg, net, b, freq).ns == twice.ns;
  }

  lemma {:induction false} PreferSpillMade(cfg: Config, net: Net, bs: seq<Border>, es: seq<Edge>, blocks: seq<nat>,
                                           strong: bool)
    requires ConfigOK(cfg) && |net.ns| == cfg.numBundles && MadeOf(cfg, net, bs, es, {})
    ensures MadeOf(cfg, PreferSpillAll(cfg, net, blocks, strong), bs + SpillBorders(cfg, blocks, strong), es, {})
  {
    hide MadeOf, Bias1, PreferSpill;
    if blocks == [] {
      assert bs + SpillBorders(cfg, blocks, strong) == bs;
    } else {
      var init, b := blocks[..|blocks| - 1], blocks[|blocks| - 1];
      PreferSpillMade(cfg, net, bs, es, init, strong);
      var net0, bs0 := PreferSpillAll(cfg, net, init, strong), bs + SpillBorders(cfg, init, strong);
      var freq, ib, ob := (if strong then 2 else 1) * cfg.blockFreq(b), cfg.bundle(b, false), cfg.bundle(b, true);
      assert SpillFreq(cfg, b, strong) == Sat(freq);
      PreferSpillIsTwo(cfg, net0, b, Sat(freq));
      var x, y := Border(ib, freq, PrefSpill), Border(ob, freq, PrefSpill);
      Bias1Made(cfg, net0, bs0, es, x);
      Bias1Made(cfg, Bias1(cfg, net0, ib, Sat(freq), PrefSpill), bs0 + [x], es, y);
      assert bs + SpillBorders(cfg, blocks, strong) == bs0 + [x] + [y];
    }
  }

  // ---- addLinks ----

  lemma EndsMore(es: seq<Edge>, e: Edge, n: nat)
    ensures IsEnd(es + [e], n) <==> IsEnd(es, n) || e.a == n || e.b == n
  {
    assert e in es + [e];
    if x :| x in es && (x.a == n || x.b == n) { assert x in es + [e]; }
  }

  lemma LinkedMore(es: seq<Edge>, e: Edge, n: nat, m: nat)
    ensures Linked(es + [e], n, m) <==> Linked(es, n, m) || Joins(e, n, m)
  {
    assert e in es + [e];
    if x :| x in es && Joins(x, n, m) { assert x in es + [e]; }
  }

  // n gains a link to m, or its link to m grows.
  lemma LinkNode(node: Node, n: nat, es: seq<Edge>, m: nat, w: Freq, e: Edge)
    requires LinksAre(node, n, es) && Distinct(node.links) && n != m && e.freq == w && Joins(e, n, m)
    ensures LinksAre(AddLink(node, m, w), n, es + [e])
  {
    hide WeightTo, HasLink, Distinct, PlacementSpec.Joined, Linked;
    forall x: nat
      ensures WeightTo(AddLink(node, m, w).links, x) == Sat(Between(es + [e], n, x))
      ensures HasLink(AddLink(node, m, w).links, x) <==> Linked(es + [e], n, x)
    {
      JoinedLinks(node.links, m, w, x);
      BetweenMore(es, e, n, x);
      LinkedMore(es, e, n, x);
    }
  }

  lemma OtherNode(node: Node, n: nat, es: seq<Edge>, e: Edge)
    requires LinksAre(node, n, es) && e.a != n && e.b != n
    ensures LinksAre(node, n, es + [e])
  {
    hide WeightTo, HasLink, Linked;
    forall x: nat
      ensures Between(es + [e], n, x) == Between(es, n, x) && (Linked(es + [e], n, x) <==> Linked(es, n, x))
    {
      BetweenMore(es, e, n, x);
      LinkedMore(es, e, n, x);
    }
  }

  lemma DistinctLinks(cfg: Config, net: Net, n: nat)
    requires Inv(cfg, net) && n in net.active
    ensures n < |net.ns| && Distinct(net.ns[n].links)
  {
    assert LinksOK(net.ns, net.active, n);
  }

  lemma EdgeMade(cfg: Config, net: Net, bs: seq<Border>, es: seq<Edge>, more: set<nat>, a: nat, b: nat, w: Freq)
    requires Inv(cfg, net) && MadeOf(cfg, net, bs, es, more) && a in net.active && b in net.active && a != b
    ensures a < |net.ns| && b < |net.ns|
    ensures var ns := net.ns[a := AddLink(net.ns[a], b, w)][b := AddLink(net.ns[b], a, w)];
            MadeOf(cfg, net.(ns := ns), bs, es + [Edge(a, b, w)], more)
  {
    DistinctLinks(cfg, net, a);
    DistinctLinks(cfg, net, b);
    hide *;
    EdgeNodes(cfg, net, bs, es, more, a, b, w);
  }

  lemma EdgeNodes(cfg: Config, net: Net, bs: seq<Border>, es: seq<Edge>, more: set<nat>, a: nat, b: nat, w: Freq)
    requires MadeOf(cfg, net, bs, es, more) && a in net.active && b in net.active && a != b
    requires a < |net.ns| && b < |net.ns| && Distinct(net.ns[a].links) && Distinct(net.ns[b].links)
    ensures var ns := net.ns[a := AddLink(net.ns[a], b, w)][b := AddLink(net.ns[b], a, w)];
            MadeOf(cfg, net.(ns := ns), bs, es + [Edge(a, b, w)], more)
  {
    hide LinksAre, BiasIs, Falls, IsEnd, Distinct, AddLink;
    var e := Edge(a, b, w);
    var ns := net.ns[a := AddLink(net.ns[a], b, w)][b := AddLink(net.ns[b], a, w)];
    forall n ensures IsEnd(es + [e], n) <==> IsEnd(es, n) || a == n || b == n { EndsMore(es, e, n); }
    LinkNode(net.ns[a], a, es, b, w, e);
    LinkNode(net.ns[b], b, es, a, w, e);
    LinkKeepsBiases(cfg, net.ns[a], a, bs, b, w);
    LinkKeepsBiases(cfg, net.ns[b], b, bs, a, w);
    forall n | n in net.active ensures LinksAre(ns[n], n, es + [e]) {
      if n != a && n != b { OtherNode(net.ns[n], n, es, e); }
    }
  }

  lemma LinkKeepsBiases(cfg: Config, node: Node, n: nat, bs: seq<Border>, m: nat, w: Freq)
    requires BiasIs(cfg, node, n, bs)
    ensures BiasIs(cfg, AddLink(node, m, w), n, bs)
  {
    hide Forced, Amount;
  }

  // The links after addLinks are those of all transparent blocks together.
  lemma {:induction false} LinkMade(cfg: Config, net: Net, bs: seq<Border>, es: seq<Edge>, blocks: seq<nat>)
    requires Inv(cfg, net) && MadeOf(cfg, net, bs, es, {})
    ensures MadeOf(cfg, LinkAll(cfg, net, blocks), bs, es + EdgesOf(cfg, blocks), {})
  {
    hide MadeOf, NetOK, TodoOK, MustSpillQueued, LinkBlock;
    if blocks == [] {
      assert es + EdgesOf(cfg, blocks) == es;
    } else {
      var init, b := blocks[..|blocks| - 1], blocks[|blocks| - 1];
      LinkMade(cfg, net, bs, es, init);
      LinkAllInv(cfg, net, init);
      var es0 := es + EdgesOf(cfg, init);
      LinkBlockMade(cfg, LinkAll(cfg, net, init), bs, es0, b);
      var ib, ob := cfg.bundle(b, false), cfg.bundle(b, true);
      assert es + EdgesOf(cfg, blocks) == es0 + if ib == ob then [] else [Edge(ib, ob, cfg.blockFreq(b))];
      assert ib == ob ==> es + EdgesOf(cfg, blocks) == es0;
    }
  }

  lemma LinkBlockMade(cfg: Config, net: Net, bs: seq<Border>, es: seq<Edge>, b: nat)
    requires Inv(cfg, net) && MadeOf(cfg, net, bs, es, {})
    ensures var ib, ob := cfg.bundle(b, false), cfg.bundle(b, true);
            MadeOf(cfg, LinkBlock(cfg, net, b), bs, if ib == ob then es else es + [Edge(ib, ob, cfg.blockFreq(b))], {})
  {
    hide MadeOf, Activate, NetOK, TodoOK, MustSpillQueued, AddLink;
    var ib, ob := cfg.bundle(b, false), cfg.bundle(b, true);
    if ib != ob {
      var none: set<nat> := {};
      ActivateMade(cfg, net, bs, es, none, ib);
      ActivateInv(cfg, net, ib);
      assert none + {ib} == {ib};
      ActivateMade(cfg, Activate(cfg, net, ib), bs, es, {ib}, ob);
      var net1 := BothActive(cfg, net, ib, ob);
      assert {ib} + {ob} == {ib, ob};
      EdgeMade(cfg, net1, bs, es, {ib, ob}, ib, ob, cfg.blockFreq(b));
      EndsMore(es, Edge(ib, ob, cfg.blockFreq(b)), ib);
      EndsMore(es, Edge(ib, ob, cfg.blockFreq(b)), ob);
      hide IsEnd;
      NoMore(cfg, LinkBlock(cfg, net, b), bs, es + [Edge(ib, ob, cfg.blockFreq(b))], {ib, ob});
    }
  }

  // ---- scanActiveBundles, iterate ----

  // Same biases, same links, same bundles.
  ghost predicate OnlyValues(net: Net, net1: Net) {
    && |net1.ns| == |net.ns| && net1.active == net.active
    && forall n :: 0 <= n < |net.ns| ==> net1.ns[n] == net.ns[n].(value := net1.ns[n].value)
  }

  lemma ValuesMade(cfg: Config, net: Net, net1: Net, bs: seq<Border>, es: seq<Edge>)
    requires MadeOf(cfg, net, bs, es, {}) && OnlyValues(net, net1)
    ensures MadeOf(cfg, net1, bs, es, {})
  {
    forall n | n in net.active ensures BiasIs(cfg, net1.ns[n], n, bs) && LinksAre(net1.ns[n], n, es) {
      KeepsLinks(net.ns[n], net1.ns[n], n, es);
    }
    hide LinksAre, Falls, IsEnd;
  }

  lemma {:induction false} ScanValues(cfg: Config, net: Net, j: nat)
    requires j <= |net.ns|
    ensures OnlyValues(net, Scan(cfg, net, j))
  {
    hide Decide, Dissent;
    if j > 0 { ScanValues(cfg, net, j - 1); }
  }

  lemma {:induction false} IterateValues(cfg: Config, net: Net, limit: nat)
    requires Inv(cfg, net)
    ensures OnlyValues(net, Iterate(cfg, net, limit))
    decreases limit
  {
    hide NetOK, TodoOK, MustSpillQueued, OnlyValues, Turn;
    if limit > 0 && net.todo != [] {
      TurnInv(cfg, net);
      TurnValues(cfg, net);
      IterateValues(cfg, Turn(cfg, net), limit - 1);
      ValuesThen(net, Turn(cfg, net), Iterate(cfg, net, limit));
    } else {
      RecentOnly(net, net.recent);
    }
  }

  lemma TurnValues(cfg: Config, net: Net)
    requires net.todo != [] && net.todo[|net.todo| - 1] < |net.ns|
    ensures OnlyValues(net, Turn(cfg, net))
  {
    hide Decide, Dissent;
  }

  lemma ValuesThen(a: Net, b: Net, c: Net)
    requires OnlyValues(a, b) && OnlyValues(b, c)
    ensures OnlyValues(a, c)
  {}

  // ---- any run of operations ----

  lemma ApplyMade(cfg: Config, net: Net, bs: seq<Border>, es: seq<Edge>, op: Op)
    requires Inv(cfg, net) && MadeOf(cfg, net, bs, es, {})
    ensures MadeOf(cfg, Apply(cfg, net, op), bs + OpBorders(cfg, op), es + OpEdges(cfg, op), {})
  {
    hide MadeOf, OnlyValues;
    assert bs + [] == bs && es + [] == es;
    match op
    case Constraints(lbs) => ConstrainMade(cfg, net, bs, es, lbs);
    case PrefSpills(blocks, strong) => PreferSpillMade(cfg, net, bs, es, blocks, strong);
    case Links(blocks) => LinkMade(cfg, net, bs, es, blocks);
    case ScanActive =>
      ScanValues(cfg, net, |net.ns|);
      ValuesMade(cfg, net, Apply(cfg, net, op), bs, es);
    case IterateFor(limit) =>
      RecentInv(cfg, net, []);
      RecentOnly(net, []);
      ValuesMade(cfg, net, net.(recent := []), bs, es);
      IterateValues(cfg, net.(recent := []), limit);
      ValuesMade(cfg, net.(recent := []), Apply(cfg, net, op), bs, es);
  }

  lemma RecentOnly(net: Net, recent: seq<nat>)
    ensures OnlyValues(net, net.(recent := recent))
  {}

  // After any run from prepare, active are exactly the bundles that some border
  // or some joining block touches. Each holds the saturated sums of the
  // frequencies that speak for a register and against one, pinned to the maximum
  // by any MustSpill border, and each link the sum over the blocks it stands for.
  lemma {:induction false} RunExactly(cfg: Config, net: Net, ops: seq<Op>)
    requires ConfigOK(cfg) && |net.ns| == cfg.numBundles
    ensures MadeOf(cfg, Run(cfg, Prepared(cfg, net), ops), AllBorders(cfg, ops), AllEdges(cfg, ops), {})
  {
    if ops == [] {
      assert Prepared(cfg, net).active == {};
    } else {
      hide MadeOf, Apply;
      var init, op := ops[..|ops| - 1], ops[|ops| - 1];
      RunExactly(cfg, net, init);
      ApplyMade(cfg, Run(cfg, Prepared(cfg, net), init), AllBorders(cfg, init), AllEdges(cfg, init), op);
    }
  }

  // ---- the positive bundles of a scan ----

  // What the scan lists is what a look at the bundles afterwards finds: the
  // active ones that prefer a register and need not spill, in ascending order.
  ghost predicate Listed(net: Net, j: nat, recent: seq<nat>)
    requires j <= |net.ns|
  {
    && (forall n: nat :: n in recent <==> n < j && n in net.active && PreferReg(net.ns[n]) && !MustSpill(net.ns[n]))
    && (forall i, k :: 0 <= i < k < |recent| ==> recent[i] < recent[k])
  }

  lemma {:induction false} ScanLists(cfg: Config, net: Net, j: nat)
    requires j <= |net.ns|
    ensures Listed(Scan(cfg, net, j), j, Scan(cfg, net, j).recent)
  {
    hide Decide, Dissent, Flips, MustSpill;
    if j > 0 {
      ScanLists(cfg, net, j - 1);
      hide Listed;
      ListOne(Scan(cfg, net, j - 1), Scan(cfg, net, j), j - 1);
    } else {
      assert Scan(cfg, net, 0).recent == [];
    }
  }

  // The next bundle is listed if its update leaves it preferring a register.
  lemma ListOne(net: Net, net1: Net, n: nat)
    requires n < |net.ns| == |net1.ns| && Listed(net, n, net.recent) && net1.active == net.active
    requires forall k :: 0 <= k < n ==> net1.ns[k] == net.ns[k]
    requires net1.recent == if n in net.active && !MustSpill(net1.ns[n]) && PreferReg(net1.ns[n]) then net.recent + [n]
                            else net.recent
    ensures Listed(net1, n + 1, net1.recent)
  {
    hide MustSpill;
    forall i | 0 <= i < |net.recent| ensures net.recent[i] < n { assert net.recent[i] in net.recent; }
  }
}
