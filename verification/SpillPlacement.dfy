// The query object itself: node array, work list and active set, updated in
// place. Every method is proved equal to the operation it implements.
module SpillPlacement {
  import opened Hopfield
  import opened HopfieldEnergy
  import opened PlacementSpec
  import PlacementRuns

  class SpillPlacement {
    const cfg: Config
    const nodes: array<Node>
    var active: set<nat>
    var todo: seq<nat>
    var recent: seq<nat>

    function NetNow(): Net
      reads this, nodes
    {
      Net(nodes[..], active, todo, recent)
    }

    ghost predicate Valid()
      reads this, nodes
    {
      nodes.Length == cfg.numBundles && Inv(cfg, NetNow())
    }

    // runOnMachineFunction: allocate the nodes and scale the threshold.
    constructor (numBundles: nat, bundle: (nat, bool) -> nat, large: nat -> bool, entryFreq: Freq,
        blockFreq: nat -> Freq)
      requires forall b, out :: bundle(b, out) < numBundles
      ensures fresh(nodes) && Valid() && active == {} && todo == [] && recent == []
      ensures cfg == Config(numBundles, bundle, large, entryFreq, blockFreq, ScaledThreshold(entryFreq))
    {
      cfg := Config(numBundles, bundle, large, entryFreq, blockFreq, ScaledThreshold(entryFreq));
      nodes := new Node[numBundles](i => Node(0, 0, 0, [], 0));
      active, todo, recent := {}, [], [];
    }

    method Prepare()
      requires nodes.Length == cfg.numBundles && ConfigOK(cfg)
      modifies this
      ensures Valid() && NetNow() == PlacementSpec.Prepare(old(NetNow()))
    {
      active, todo, recent := {}, [], [];
    }

    method Activate(n: nat)
      requires nodes.Length == cfg.numBundles && ConfigOK(cfg) && n < nodes.Length
      modifies this, nodes
      ensures NetNow() == PlacementSpec.Activate(cfg, old(NetNow()), n)
    {
      if n !in todo { todo := todo + [n]; }
      if n in active { return; }
      active := active + {n};
      nodes[n] := Node(0, 0, 0, [], cfg.threshold);
      if cfg.large(n) {
        nodes[n] := nodes[n].(biasP := 0, biasN := cfg.entryFreq / 16);
      }
    }

    // One border of a block.
    method BiasBorder(n: nat, freq: Freq, direction: BorderConstraint)
      requires nodes.Length == cfg.numBundles && ConfigOK(cfg) && n < nodes.Length
      modifies this, nodes
      ensures NetNow() == Bias1(cfg, old(NetNow()), n, freq, direction)
    {
      Activate(n);
      nodes[n] := AddBias(nodes[n], freq, direction);
    }

    method AddConstraints(liveBlocks: seq<BlockConstraint>)
      requires Valid()
      modifies this, nodes
      ensures Valid() && NetNow() == ConstrainAll(cfg, old(NetNow()), liveBlocks)
    {
      hide NetOK, TodoOK, MustSpillQueued, Bias1;
      ConstrainAllInv(cfg, NetNow(), liveBlocks);
      for i := 0 to |liveBlocks|
        invariant NetNow() == ConstrainAll(cfg, old(NetNow()), liveBlocks[..i])
      {
        assert liveBlocks[..i + 1][..i] == liveBlocks[..i];
        var lb := liveBlocks[i];
        var freq := cfg.blockFreq(lb.number);
        if lb.entry != DontCare { BiasBorder(cfg.bundle(lb.number, false), freq, lb.entry); }
        if lb.exit != DontCare { BiasBorder(cfg.bundle(lb.number, true), freq, lb.exit); }
      }
      assert liveBlocks[..|liveBlocks|] == liveBlocks;
    }

    method PreferSpillBlock(b: nat, freq: Freq)
      requires nodes.Length == cfg.numBundles && ConfigOK(cfg)
      modifies this, nodes
      ensures NetNow() == PreferSpill(cfg, old(NetNow()), b, freq)
    {
      hide PlacementSpec.Activate;
      var ib, ob := cfg.bundle(b, false), cfg.bundle(b, true);
      Activate(ib);
      Activate(ob);
      nodes[ib] := AddBias(nodes[ib], freq, PrefSpill);
      nodes[ob] := AddBias(nodes[ob], freq, PrefSpill);
    }

    method AddPrefSpill(blocks: seq<nat>, strong: bool)
      requires Valid()
      modifies this, nodes
      ensures Valid() && NetNow() == PreferSpillAll(cfg, old(NetNow()), blocks, strong)
    {
      hide NetOK, TodoOK, MustSpillQueued, PreferSpill;
      PreferSpillAllInv(cfg, NetNow(), blocks, strong);
      for i := 0 to |blocks|
        invariant NetNow() == PreferSpillAll(cfg, old(NetNow()), blocks[..i], strong)
      {
        assert blocks[..i + 1][..i] == blocks[..i];
        var freq := cfg.blockFreq(blocks[i]);
        if strong { freq := Sat(cfg.blockFreq(blocks[i]) + cfg.blockFreq(blocks[i])); }
        PreferSpillBlock(blocks[i], freq);
      }
      assert blocks[..|blocks|] == blocks;
    }

    // Node::addLink
    method AddLinkTo(n: nat, b: nat, w: Freq)
      requires n < nodes.Length
      modifies nodes
      ensures nodes[..] == old(nodes[..])[n := AddLink(old(nodes[n]), b, w)]
    {
      var node := nodes[n];
      nodes[n] := node.(sum := Sat(node.sum + w));
      var i := 0;
      while i < |node.links|
        invariant 0 <= i <= |node.links| && i <= FindLink(node.links, b)
        invariant nodes[..] == old(nodes[..])[n := node.(sum := Sat(node.sum + w))]
      {
        if node.links[i].to == b {
          nodes[n] := nodes[n].(links := node.links[i := Link(Sat(node.links[i].weight + w), b)]);
          return;
        }
        i := i + 1;
      }
      nodes[n] := nodes[n].(links := node.links + [Link(w, b)]);
    }

    method AddLinks(blocks: seq<nat>)
      requires Valid()
      modifies this, nodes
      ensures Valid() && NetNow() == LinkAll(cfg, old(NetNow()), blocks)
    {
      hide NetOK, TodoOK, MustSpillQueued, AddLink;
      LinkAllInv(cfg, NetNow(), blocks);
      for i := 0 to |blocks|
        invariant NetNow() == LinkAll(cfg, old(NetNow()), blocks[..i])
      {
        assert blocks[..i + 1][..i] == blocks[..i];
        var ib, ob := cfg.bundle(blocks[i], false), cfg.bundle(blocks[i], true);
        if ib == ob { continue; }
        Activate(ib);
        Activate(ob);
        var freq := cfg.blockFreq(blocks[i]);
        AddLinkTo(ib, ob, freq);
        AddLinkTo(ob, ib, freq);
      }
      assert blocks[..|blocks|] == blocks;
    }

    // Node::update
    method UpdateValue(n: nat) returns (changed: bool)
      requires n < nodes.Length
      requires forall i :: 0 <= i < |nodes[n].links| ==> nodes[n].links[i].to < nodes.Length
      modifies nodes
      ensures nodes[..] == Updated(old(nodes[..]), n, cfg.threshold)
      ensures changed == (PreferReg(nodes[n]) != PreferReg(old(nodes[n])))
    {
      var node, links := nodes[n], nodes[n].links;
      var sumN, sumP := node.biasN, node.biasP;
      ghost var ns := nodes[..];
      for i := 0 to |links|
        invariant sumN == Sat(node.biasN + Pull(ns, links[..i], -1))
        invariant sumP == Sat(node.biasP + Pull(ns, links[..i], 1))
        invariant nodes[..] == ns
      {
        assert links[..i + 1][..i] == links[..i];
        if nodes[links[i].to].value == -1 {
          sumN := Sat(sumN + links[i].weight);
        } else if nodes[links[i].to].value == 1 {
          sumP := Sat(sumP + links[i].weight);
        }
      }
      assert links[..|links|] == links;
      var before := PreferReg(node);
      if sumN >= Sat(sumP + cfg.threshold) {
        nodes[n] := node.(value := -1);
      } else if sumP >= Sat(sumN + cfg.threshold) {
        nodes[n] := node.(value := 1);
      } else {
        nodes[n] := node.(value := 0);
      }
      changed := before != PreferReg(nodes[n]);
    }

    // getDissentingNeighbors
    method QueueDissenting(n: nat)
      requires n < nodes.Length
      requires forall i :: 0 <= i < |nodes[n].links| ==> nodes[n].links[i].to < nodes.Length
      modifies `todo
      ensures todo == Dissent(nodes[..], nodes[n].links, nodes[n].value, old(todo))
    {
      var links := nodes[n].links;
      for i := 0 to |links|
        invariant todo == Dissent(nodes[..], links[..i], nodes[n].value, old(todo))
      {
        assert links[..i + 1][..i] == links[..i];
        var to := links[i].to;
        if nodes[n].value != nodes[to].value && to !in todo { todo := todo + [to]; }
      }
      assert links[..|links|] == links;
    }

    method UpdateBundle(n: nat) returns (changed: bool)
      requires n < nodes.Length
      requires forall i :: 0 <= i < |nodes[n].links| ==> nodes[n].links[i].to < nodes.Length
      modifies this, nodes
      ensures NetNow() == Update(cfg, old(NetNow()), n)
      ensures changed == Flips(cfg, old(NetNow()), n)
    {
      changed := UpdateValue(n);
      if !changed { return; }
      QueueDissenting(n);
    }

    method ScanActiveBundles() returns (anyPositive: bool)
      requires Valid()
      modifies this, nodes
      ensures Valid() && NetNow() == Scan(cfg, old(NetNow()), cfg.numBundles)
      ensures anyPositive <==> recent != []
    {
      hide NetOK, Update;
      recent := [];
      for n := 0 to nodes.Length
        invariant Valid() && NetNow() == Scan(cfg, old(NetNow()), n)
      {
        ScanInv(cfg, old(NetNow()), n + 1);
        if n !in active { continue; }
        LinksInRange(cfg, NetNow(), n);
        var _ := UpdateBundle(n);
        if MustSpill(nodes[n]) { continue; }
        if PreferReg(nodes[n]) { recent := recent + [n]; }
      }
      anyPositive := recent != [];
    }

    // iterate, with its limit of ten turns per bundle.
    method Iterate()
      requires Valid()
      modifies this, nodes
      ensures Valid() && NetNow() == PlacementRuns.Iterate(cfg, old(NetNow()).(recent := []), 10 * cfg.numBundles)
    {
      hide NetOK, Update, TodoOK, MustSpillQueued, ConfigOK, PlacementRuns.Iterate;
      RecentInv(cfg, NetNow(), []);
      recent := [];
      var limit: nat := 10 * nodes.Length;
      ghost var goal := PlacementRuns.Iterate(cfg, NetNow(), limit);
      while limit > 0 && todo != []
        invariant Valid() && PlacementRuns.Iterate(cfg, NetNow(), limit) == goal
        decreases limit
      {
        TurnInv(cfg, NetNow());
        PlacementRuns.IterateStep(cfg, NetNow(), limit);
        limit := limit - 1;
        var n := todo[|todo| - 1];
        LinksInRange(cfg, NetNow(), n);
        ghost var net := NetNow();
        todo := todo[..|todo| - 1];
        var changed := UpdateBundle(n);
        if changed && PreferReg(nodes[n]) { recent := recent + [n]; }
        assert NetNow() == Turn(cfg, net);
      }
      PlacementRuns.IterateStep(cfg, NetNow(), limit);
    }

    method Finish() returns (perfect: bool)
      requires Valid()
      modifies `active
      ensures active == PlacementSpec.Finish(old(NetNow()))
      ensures perfect <==> active == old(active)
    {
      hide NetOK, TodoOK, MustSpillQueued;
      ActiveBelow(cfg, NetNow());
      perfect := true;
      ghost var before := active;
      for n := 0 to nodes.Length
        invariant forall k :: k in active <==> k in before && (k >= n || PreferReg(nodes[k]))
        invariant perfect <==> before <= active
      {
        if n in active && !PreferReg(nodes[n]) {
          active := active - {n};
          perfect := false;
        }
      }
    }
  }

  lemma ActiveBelow(cfg: Config, net: Net)
    requires Inv(cfg, net)
    ensures forall n :: n in net.active ==> n < |net.ns|
  {}

  lemma LinksInRange(cfg: Config, net: Net, n: nat)
    requires Inv(cfg, net) && n in net.active
    ensures n < |net.ns| && forall i :: 0 <= i < |net.ns[n].links| ==> net.ns[n].links[i].to < |net.ns|
  {
    assert LinksOK(net.ns, net.active, n);
  }
}
