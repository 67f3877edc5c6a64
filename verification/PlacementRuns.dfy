// Whole queries: termination of iterate, and what every run of operations keeps.
module PlacementRuns {
  import opened Collections
  import opened Hopfield
  import opened HopfieldEnergy
  import opened PlacementSpec

  // iterate: at most limit turns.
  ghost function Iterate(cfg: Config, net: Net, limit: nat): (r: Net)
    requires Inv(cfg, net)
    ensures Inv(cfg, r) && r.active == net.active
    decreases limit
  {
    if limit == 0 || net.todo == [] then net
    else
      TurnInv(cfg, net);
      Iterate(cfg, Turn(cfg, net), limit - 1)
  }

  datatype Op =
    | Constraints(lbs: seq<BlockConstraint>)
    | PrefSpills(blocks: seq<nat>, strong: bool)
    | Links(blocks: seq<nat>)
    | ScanActive
    | IterateFor(limit: nat)

  ghost function Apply(cfg: Config, net: Net, op: Op): (r: Net)
    requires Inv(cfg, net)
  {
    match op
    case Constraints(lbs) => ConstrainAll(cfg, net, lbs)
    case PrefSpills(blocks, strong) => PreferSpillAll(cfg, net, blocks, strong)
    case Links(blocks) => LinkAll(cfg, net, blocks)
    case ScanActive => Scan(cfg, net, |net.ns|)
    case IterateFor(limit) => Iterate(cfg, net.(recent := []), limit)
  }

  lemma ApplyInv(cfg: Config, net: Net, op: Op)
    requires Inv(cfg, net)
    ensures Inv(cfg, Apply(cfg, net, op))
  {
    match op
    case Constraints(lbs) => ConstrainAllInv(cfg, net, lbs);
    case PrefSpills(blocks, strong) => PreferSpillAllInv(cfg, net, blocks, strong);
    case Links(blocks) => LinkAllInv(cfg, net, blocks);
    case ScanActive => ScanInv(cfg, net, |net.ns|);
    case IterateFor(limit) =>
  }

  // Any sequence of operations keeps links symmetric and self-free, one per
  // neighbour, between active bundles only, the cached sums right, and pending
  // every MustSpill bundle that still prefers a register.
  ghost function Run(cfg: Config, net: Net, ops: seq<Op>): (r: Net)
    requires Inv(cfg, net)
    ensures Inv(cfg, r)
  {
    if ops == [] then net
    else
      var net1 := Run(cfg, net, ops[..|ops| - 1]);
      ApplyInv(cfg, net1, ops[|ops| - 1]);
      Apply(cfg, net1, ops[|ops| - 1])
  }

  // The start of a query, whatever the node array held before.
  ghost function Prepared(cfg: Config, net: Net): (r: Net)
    requires ConfigOK(cfg) && |net.ns| == cfg.numBundles
    ensures Inv(cfg, r) && r.active == {}
  {
    PrepareInv(cfg, net);
    Prepare(net)
  }

  // ---- one turn as an update ----

  function Popped(net: Net): Net
    requires net.todo != []
  {
    net.(todo := net.todo[..|net.todo| - 1])
  }

  lemma PoppedTodo(net: Net)
    requires TodoOK(net) && net.todo != []
    ensures var n, popped := net.todo[|net.todo| - 1], Popped(net);
            TodoOK(popped) && n !in popped.todo && forall m :: m in net.todo && m != n ==> m in popped.todo
  {
    var n, popped := net.todo[|net.todo| - 1], Popped(net);
    forall m | m in net.todo && m != n ensures m in popped.todo {
      var i :| 0 <= i < |net.todo| && net.todo[i] == m;
      assert popped.todo[i] == m;
    }
  }

  lemma TurnIsUpdate(cfg: Config, net: Net)
    requires Inv(cfg, net) && net.todo != []
    ensures var n, net1 := net.todo[|net.todo| - 1], Turn(cfg, net);
            && n in net.active && n < |net.ns| && InvBut(cfg, Popped(net), n)
            && net1 == Update(cfg, Popped(net), n).(recent := net1.recent)
            && (forall m :: m in net.todo && m != n ==> m in Popped(net).todo)
            && n !in Popped(net).todo
  {
    hide NetOK, Update, Flips;
    TurnInv(cfg, net);
    PoppedTodo(net);
    hide TodoOK;
  }

  // ---- termination of iterate ----

  // n * x for a non-negative x, as repeated addition.
  function Repeat(n: nat, x: int): nat
    decreases x
  {
    if x <= 0 then 0 else n + Repeat(n, x - 1)
  }

  // How far the potential can still fall.
  lemma IterateStep(cfg: Config, net: Net, limit: nat)
    requires Inv(cfg, net)
    ensures limit == 0 || net.todo == [] ==> Iterate(cfg, net, limit) == net
    ensures limit > 0 && net.todo != [] ==>
              net.todo[|net.todo| - 1] < |net.ns| && Inv(cfg, Turn(cfg, net))
              && Iterate(cfg, net, limit) == Iterate(cfg, Turn(cfg, net), limit - 1)
  {
    if net.todo != [] { TurnInv(cfg, net); }
  }

  function Height(cfg: Config, net: Net): int {
    Potential(net.ns, net.active, cfg.threshold) + Room(net.ns, net.active, cfg.threshold, |net.ns|)
  }

  // The lexicographic measure (potential, length of the work list) as one
  // number: every unit of potential pays for one pass over all bundles.
  function Work(cfg: Config, net: Net): nat {
    |net.todo| + Repeat(cfg.numBundles, Height(cfg, net))
  }

  // The bundle numbers below n.
  function Below(n: nat): (r: set<nat>)
    ensures |r| == n && forall i: nat :: i in r <==> i < n
  {
    if n == 0 then {}
    else
      assert n - 1 !in Below(n - 1);
      Below(n - 1) + {n - 1}
  }

  lemma {:induction false} DistinctSize(todo: seq<nat>)
    requires forall i, j :: 0 <= i < j < |todo| ==> todo[i] != todo[j]
    ensures |set i | 0 <= i < |todo| :: todo[i]| == |todo|
  {
    if todo != [] {
      var init := todo[..|todo| - 1];
      DistinctSize(init);
      assert (set i | 0 <= i < |todo| :: todo[i]) == (set i | 0 <= i < |init| :: init[i]) + {todo[|todo| - 1]};
    }
  }

  // The work list never holds more than all bundles.
  lemma TodoBound(cfg: Config, net: Net)
    requires Inv(cfg, net)
    ensures |net.todo| <= cfg.numBundles
  {
    var elems := set i | 0 <= i < |net.todo| :: net.todo[i];
    DistinctSize(net.todo);
    SubsetSize(elems, Below(cfg.numBundles));
  }

  ghost predicate Calm(cfg: Config, net: Net) {
    NoSaturation(net.ns, net.active, cfg.threshold)
  }

  lemma UpdateKeepsCalm(ns: seq<Node>, active: set<nat>, n: nat, threshold: nat)
    requires n < |ns| && NoSaturation(ns, active, threshold)
    ensures NoSaturation(Updated(ns, n, threshold), active, threshold)
  {
    var ns2 := Updated(ns, n, threshold);
    forall m | m in active && m < |ns2| ensures Unsaturated(ns2, m, threshold) {
      assert Unsaturated(ns, m, threshold);
    }
  }

  lemma {:induction false} RepeatStep(n: nat, a: int, b: int)
    requires b < a && 0 < a
    ensures Repeat(n, b) + n <= Repeat(n, a)
    decreases a
  {
    if 0 < b { RepeatStep(n, a - 1, b - 1); }
  }

  // A turn that changes a value lowers the potential; any other turn only
  // shortens the work list.
  lemma TurnEffect(cfg: Config, net: Net)
    requires Inv(cfg, net) && Calm(cfg, net) && net.todo != []
    ensures var net1 := Turn(cfg, net);
            Inv(cfg, net1) && Calm(cfg, net1) && net1.active == net.active
            && (Height(cfg, net1) < Height(cfg, net)
                || (Height(cfg, net1) == Height(cfg, net) && |net1.todo| < |net.todo|))
    ensures 0 <= Height(cfg, Turn(cfg, net))
  {
    hide NetOK, Decide, Energy, Room, Unsaturated, NoSaturation, Dissent, TodoOK, MustSpillQueued, ConfigOK;
    TurnInv(cfg, net);
    var n, net1 := net.todo[|net.todo| - 1], Turn(cfg, net);
    UpdateKeepsCalm(net.ns, net.active, n, cfg.threshold);
    RoomStays(net.ns, net1.ns, net.active, cfg.threshold, |net.ns|);
    EnergyBound(net1.ns, net.active, cfg.threshold, |net.ns|);
    if Decide(net.ns, n, cfg.threshold) == net.ns[n].value {
      assert net1.ns == net.ns;
    } else {
      ActiveInRange(net.ns, net.active, cfg.threshold, n);
      CalmNode(net.ns, net.active, cfg.threshold, n);
      PotentialFalls(net.ns, net.active, n, cfg.threshold);
    }
  }

  lemma CalmNode(ns: seq<Node>, active: set<nat>, threshold: nat, n: nat)
    requires NoSaturation(ns, active, threshold) && n in active && n < |ns|
    ensures Unsaturated(ns, n, threshold)
  {
  }

  // Every turn of iterate lowers the measure.
  lemma TurnWorks(cfg: Config, net: Net)
    requires Inv(cfg, net) && Calm(cfg, net) && net.todo != []
    ensures Work(cfg, Turn(cfg, net)) < Work(cfg, net)
  {
    hide Inv, Calm, Turn, Height;
    TurnInv(cfg, net);
    TurnEffect(cfg, net);
    TodoBound(cfg, Turn(cfg, net));
    if Height(cfg, Turn(cfg, net)) < Height(cfg, net) {
      RepeatStep(cfg.numBundles, Height(cfg, net), Height(cfg, Turn(cfg, net)));
    }
  }

  // iterate empties its work list after at most Work turns: without its limit
  // it would still stop.
  lemma {:induction false} IterateStops(cfg: Config, net: Net, limit: nat)
    requires Inv(cfg, net) && Calm(cfg, net) && limit >= Work(cfg, net)
    ensures Iterate(cfg, net, limit).todo == []
    decreases limit
  {
    hide Inv, Calm, Turn, Height, Repeat;
    if net.todo != [] {
      TurnInv(cfg, net);
      TurnEffect(cfg, net);
      TurnWorks(cfg, net);
      IterateStops(cfg, Turn(cfg, net), limit - 1);
    }
  }

  // The potential never rises along the way.
  lemma {:induction false} IterateDescends(cfg: Config, net: Net, limit: nat)
    requires Inv(cfg, net) && Calm(cfg, net)
    ensures Height(cfg, Iterate(cfg, net, limit)) <= Height(cfg, net)
    decreases limit
  {
    hide Inv, Calm, Turn, Height;
    if limit > 0 && net.todo != [] {
      TurnInv(cfg, net);
      TurnEffect(cfg, net);
      IterateDescends(cfg, Turn(cfg, net), limit - 1);
    }
  }

  // ---- MustSpill ----

  // A bundle under a MustSpill constraint that does not prefer a register.
  ghost predicate Doomed(net: Net, n: nat) {
    n in net.active && n < |net.ns| && net.ns[n].biasN == MAX_FREQ && !PreferReg(net.ns[n])
  }

  ghost predicate KeepsDoomed(net: Net, net1: Net) {
    forall n :: Doomed(net, n) ==> Doomed(net1, n)
  }

  lemma Bias1KeepsDoomed(cfg: Config, net: Net, n: nat, freq: Freq, direction: BorderConstraint)
    requires n < |net.ns| && ConfigOK(cfg)
    ensures KeepsDoomed(net, Activate(cfg, net, n))
    ensures KeepsDoomed(net, Bias1(cfg, net, n, freq, direction))
    ensures direction == MustSpillHere ==> Bias1(cfg, net, n, freq, direction).ns[n].biasN == MAX_FREQ
  {}

  lemma {:induction false} ConstrainAllKeepsDoomed(cfg: Config, net: Net, lbs: seq<BlockConstraint>)
    requires |net.ns| == cfg.numBundles && ConfigOK(cfg)
    ensures KeepsDoomed(net, ConstrainAll(cfg, net, lbs))
  {
    hide Bias1;
    if lbs != [] {
      var net0, lb := ConstrainAll(cfg, net, lbs[..|lbs| - 1]), lbs[|lbs| - 1];
      ConstrainAllKeepsDoomed(cfg, net, lbs[..|lbs| - 1]);
      var freq := cfg.blockFreq(lb.number);
      Bias1KeepsDoomed(cfg, net0, cfg.bundle(lb.number, false), freq, lb.entry);
      var net1 := if lb.entry == DontCare then net0 else Bias1(cfg, net0, cfg.bundle(lb.number, false), freq, lb.entry);
      Bias1Length(cfg, net0, cfg.bundle(lb.number, false), freq, lb.entry);
      Bias1KeepsDoomed(cfg, net1, cfg.bundle(lb.number, true), freq, lb.exit);
    }
  }

  lemma Bias1Length(cfg: Config, net: Net, n: nat, freq: Freq, direction: BorderConstraint)
    requires n < |net.ns| && ConfigOK(cfg)
    ensures |Bias1(cfg, net, n, freq, direction).ns| == |net.ns|
  {}

  lemma {:induction false} PreferSpillAllKeepsDoomed(cfg: Config, net: Net, blocks: seq<nat>, strong: bool)
    requires |net.ns| == cfg.numBundles && ConfigOK(cfg)
    ensures KeepsDoomed(net, PreferSpillAll(cfg, net, blocks, strong))
  {
    if blocks != [] {
      var net0 := PreferSpillAll(cfg, net, blocks[..|blocks| - 1], strong);
      PreferSpillAllKeepsDoomed(cfg, net, blocks[..|blocks| - 1], strong);
      var b := blocks[|blocks| - 1];
      assert KeepsDoomed(net0, PreferSpill(cfg, net0, b, SpillFreq(cfg, b, strong)));
    }
  }

  lemma {:induction false} LinkAllKeepsDoomed(cfg: Config, net: Net, blocks: seq<nat>)
    requires |net.ns| == cfg.numBundles && ConfigOK(cfg)
    ensures KeepsDoomed(net, LinkAll(cfg, net, blocks))
  {
    hide Joined;
    if blocks != [] {
      var net0 := LinkAll(cfg, net, blocks[..|blocks| - 1]);
      LinkAllKeepsDoomed(cfg, net, blocks[..|blocks| - 1]);
      assert KeepsDoomed(net0, LinkBlock(cfg, net0, blocks[|blocks| - 1]));
    }
  }

  lemma UpdateKeepsDoomed(cfg: Config, net: Net, n: nat)
    requires n < |net.ns| && NetOK(net.ns, net.active, cfg.threshold) && n in net.active
    ensures KeepsDoomed(net, Update(cfg, net, n))
  {
    ForcedOut(net.ns, net.active, n, cfg.threshold);
    hide NetOK, Decide, Dissent, Flips;
  }

  lemma {:induction false} ScanKeepsDoomed(cfg: Config, net: Net, j: nat)
    requires Inv(cfg, net) && j <= |net.ns|
    ensures KeepsDoomed(net, Scan(cfg, net, j))
  {
    hide NetOK, Update;
    if j > 0 {
      ScanKeepsDoomed(cfg, net, j - 1);
      ScanInv(cfg, net, j - 1);
      if j - 1 in Scan(cfg, net, j - 1).active { UpdateKeepsDoomed(cfg, Scan(cfg, net, j - 1), j - 1); }
    }
  }

  lemma {:induction false} IterateKeepsDoomed(cfg: Config, net: Net, limit: nat)
    requires Inv(cfg, net)
    ensures KeepsDoomed(net, Iterate(cfg, net, limit))
    decreases limit
  {
    hide NetOK, Update;
    if limit > 0 && net.todo != [] {
      TurnInv(cfg, net);
      var popped := net.(todo := net.todo[..|net.todo| - 1]);
      UpdateKeepsDoomed(cfg, popped, net.todo[|net.todo| - 1]);
      var net1 := Update(cfg, popped, net.todo[|net.todo| - 1]);
      assert Turn(cfg, net) == net1 || Turn(cfg, net) == net1.(recent := Turn(cfg, net).recent);
      forall n | Doomed(net, n) ensures Doomed(Turn(cfg, net), n) {
        assert Doomed(popped, n);
        assert Doomed(net1, n);
      }
      IterateKeepsDoomed(cfg, Turn(cfg, net), limit - 1);
    }
  }

  // Once a bundle under a MustSpill constraint has been decided for the stack,
  // no sequence of operations makes it prefer a register again.
  lemma {:induction false} DoomedForever(cfg: Config, net: Net, ops: seq<Op>, n: nat)
    requires Inv(cfg, net) && Doomed(net, n)
    ensures Doomed(Run(cfg, net, ops), n)
  {
    if ops != [] {
      DoomedForever(cfg, net, ops[..|ops| - 1], n);
      ApplyKeepsDoomed(cfg, Run(cfg, net, ops[..|ops| - 1]), ops[|ops| - 1], n);
    }
  }

  lemma ApplyKeepsDoomed(cfg: Config, net1: Net, op: Op, n: nat)
    requires Inv(cfg, net1) && Doomed(net1, n)
    ensures Doomed(Apply(cfg, net1, op), n)
  {
    hide NetOK, ConstrainAll, PreferSpillAll, LinkAll, Scan, Iterate;
    match op
    case Constraints(lbs) => ConstrainAllKeepsDoomed(cfg, net1, lbs);
    case PrefSpills(blocks, strong) => PreferSpillAllKeepsDoomed(cfg, net1, blocks, strong);
    case Links(blocks) => LinkAllKeepsDoomed(cfg, net1, blocks);
    case ScanActive => ScanKeepsDoomed(cfg, net1, |net1.ns|);
    case IterateFor(limit) =>
      assert Doomed(net1.(recent := []), n);
      IterateKeepsDoomed(cfg, net1.(recent := []), limit);
  }
}
