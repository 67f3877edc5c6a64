// When finish honours a MustSpill constraint.
module PlacementMustSpill {
  import opened Hopfield
  import opened PlacementSpec
  import opened PlacementRuns

  // One of the constraints puts a MustSpill on bundle n.
  ghost predicate MustSpills(cfg: Config, lbs: seq<BlockConstraint>, n: nat) {
    exists i :: 0 <= i < |lbs|
      && ((lbs[i].entry == MustSpillHere && cfg.bundle(lbs[i].number, false) == n)
          || (lbs[i].exit == MustSpillHere && cfg.bundle(lbs[i].number, true) == n))
  }

  // ---- a constraint, once given, stays ----

  ghost predicate Marked(net: Net, n: nat) {
    n in net.active && n < |net.ns| && net.ns[n].biasN == MAX_FREQ
  }

  // A bundle that was active keeps value and mark; one that was not starts undecided.
  ghost predicate Keeps(net: Net, net1: Net, n: nat) {
    && |net1.ns| == |net.ns|
    && (n in net.todo ==> n in net1.todo)
    && (Marked(net, n) ==> Marked(net1, n))
    && (n < |net.ns| && n in net.active ==> n in net1.active && net1.ns[n].value == net.ns[n].value)
    && (n < |net.ns| && n !in net.active && n in net1.active ==> net1.ns[n].value == 0)
  }

  lemma KeepsMore(a: Net, b: Net, c: Net, n: nat)
    requires Keeps(a, b, n) && Keeps(b, c, n)
    ensures Keeps(a, c, n)
  {}

  lemma KeepsSelf(net: Net, n: nat)
    ensures Keeps(net, net, n)
  {}

  lemma Bias1Keeps(cfg: Config, net: Net, k: nat, freq: Freq, direction: BorderConstraint, n: nat)
    requires k < |net.ns| && ConfigOK(cfg)
    ensures var net1 := Bias1(cfg, net, k, freq, direction);
            && Keeps(net, net1, n)
            && (direction == MustSpillHere && k == n ==> Marked(net1, n) && n in net1.todo)
  {}

  lemma {:induction false} ConstrainAllKeeps(cfg: Config, net: Net, lbs: seq<BlockConstraint>, n: nat)
    requires |net.ns| == cfg.numBundles && ConfigOK(cfg)
    ensures Keeps(net, ConstrainAll(cfg, net, lbs), n)
    ensures MustSpills(cfg, lbs, n) ==>
              Marked(ConstrainAll(cfg, net, lbs), n) && n in ConstrainAll(cfg, net, lbs).todo
  {
    hide Bias1, Marked, Keeps;
    KeepsSelf(net, n);
    if lbs != [] {
      var init, lb := lbs[..|lbs| - 1], lbs[|lbs| - 1];
      var net0 := ConstrainAll(cfg, net, init);
      ConstrainAllKeeps(cfg, net, init, n);
      var ib, ob, freq := cfg.bundle(lb.number, false), cfg.bundle(lb.number, true), cfg.blockFreq(lb.number);
      var net1 := if lb.entry == DontCare then net0 else Bias1(cfg, net0, ib, freq, lb.entry);
      var net2 := ConstrainAll(cfg, net, lbs);
      Bias1Length(cfg, net0, ib, freq, lb.entry);
      KeepsSelf(net0, n);
      KeepsSelf(net1, n);
      Bias1Keeps(cfg, net0, ib, freq, lb.entry, n);
      Bias1Keeps(cfg, net1, ob, freq, lb.exit, n);
      KeepsMore(net, net0, net1, n);
      KeepsMore(net, net1, net2, n);
      KeepsMarks(net0, net1, n);
      KeepsMarks(net1, net2, n);
      if MustSpills(cfg, lbs, n) {
        var i :| 0 <= i < |lbs|
          && ((lbs[i].entry == MustSpillHere && cfg.bundle(lbs[i].number, false) == n)
              || (lbs[i].exit == MustSpillHere && cfg.bundle(lbs[i].number, true) == n));
        assert i < |init| ==> init[i] == lbs[i];
      }
    }
  }

  lemma KeepsMarks(net: Net, net1: Net, n: nat)
    requires Keeps(net, net1, n)
    ensures Marked(net, n) ==> Marked(net1, n)
    ensures n in net.todo ==> n in net1.todo
  {}

  lemma {:induction false} PreferSpillAllKeeps(cfg: Config, net: Net, blocks: seq<nat>, strong: bool, n: nat)
    requires |net.ns| == cfg.numBundles && ConfigOK(cfg)
    ensures Keeps(net, PreferSpillAll(cfg, net, blocks, strong), n)
  {
    hide Keeps, PreferSpill;
    KeepsSelf(net, n);
    if blocks != [] {
      var net0 := PreferSpillAll(cfg, net, blocks[..|blocks| - 1], strong);
      PreferSpillAllKeeps(cfg, net, blocks[..|blocks| - 1], strong, n);
      var b := blocks[|blocks| - 1];
      PreferSpillKeeps(cfg, net0, b, SpillFreq(cfg, b, strong), n);
      KeepsMore(net, net0, PreferSpillAll(cfg, net, blocks, strong), n);
    }
  }

  lemma PreferSpillKeeps(cfg: Config, net: Net, b: nat, freq: Freq, n: nat)
    requires |net.ns| == cfg.numBundles && ConfigOK(cfg)
    ensures Keeps(net, PreferSpill(cfg, net, b, freq), n)
  {}

  lemma {:induction false} LinkAllKeeps(cfg: Config, net: Net, blocks: seq<nat>, n: nat)
    requires |net.ns| == cfg.numBundles && ConfigOK(cfg)
    ensures Keeps(net, LinkAll(cfg, net, blocks), n)
  {
    hide Keeps, LinkBlock;
    KeepsSelf(net, n);
    if blocks != [] {
      var net0 := LinkAll(cfg, net, blocks[..|blocks| - 1]);
      LinkAllKeeps(cfg, net, blocks[..|blocks| - 1], n);
      LinkBlockKeeps(cfg, net0, blocks[|blocks| - 1], n);
      KeepsMore(net, net0, LinkAll(cfg, net, blocks), n);
    }
  }

  lemma LinkBlockKeeps(cfg: Config, net: Net, b: nat, n: nat)
    requires |net.ns| == cfg.numBundles && ConfigOK(cfg)
    ensures Keeps(net, LinkBlock(cfg, net, b), n)
  {
    hide Joined;
  }

  // ---- updates ----

  // Bundle n is taken off the work list within the limit.
  ghost predicate PoppedIn(cfg: Config, net: Net, limit: nat, n: nat)
    requires Inv(cfg, net)
    decreases limit
  {
    limit > 0 && net.todo != []
    && (net.todo[|net.todo| - 1] == n || (TurnInv(cfg, net); PoppedIn(cfg, Turn(cfg, net), limit - 1, n)))
  }

  // The operation updates bundle n.
  ghost predicate UpdatedBy(cfg: Config, net: Net, op: Op, n: nat)
    requires Inv(cfg, net)
  {
    match op
    case ScanActive => n in net.active
    case IterateFor(limit) => PoppedIn(cfg, net.(recent := []), limit, n)
    case _ => false
  }

  ghost predicate UpdatedSince(cfg: Config, net: Net, ops: seq<Op>, n: nat)
    requires Inv(cfg, net)
  {
    ops != []
    && (UpdatedSince(cfg, net, ops[..|ops| - 1], n)
        || UpdatedBy(cfg, Run(cfg, net, ops[..|ops| - 1]), ops[|ops| - 1], n))
  }

  // An update under a MustSpill constraint decides for the stack.
  lemma UpdateDooms(cfg: Config, net: Net, n: nat)
    requires InvBut(cfg, net, n) && Marked(net, n)
    ensures Doomed(Update(cfg, net, n), n) && Update(cfg, net, n).active == net.active
  {
    hide NetOK, Decide, Flips;
    ForcedOut(net.ns, net.active, n, cfg.threshold);
  }

  // The update of another bundle leaves n alone, except that it may queue it.
  lemma OtherUpdateKeeps(cfg: Config, net: Net, k: nat, n: nat)
    requires InvBut(cfg, net, k) && k in net.active && k < |net.ns| && k != n
    ensures Keeps(net, Update(cfg, net, k), n)
  {
    hide NetOK, Decide, Dissent, Flips;
    ForcedOut(net.ns, net.active, k, cfg.threshold);
    NetSmallIndex(net.ns, net.active, cfg.threshold);
    UpdateTodo(cfg, net, k);
  }

  lemma NetSmallIndex(ns: seq<Node>, active: set<nat>, threshold: nat)
    requires NetOK(ns, active, threshold)
    ensures forall m :: m in active ==> m < |ns|
  {}

  lemma {:induction false} ScanDooms(cfg: Config, net: Net, j: nat, n: nat)
    requires Inv(cfg, net) && j <= |net.ns| && Marked(net, n)
    ensures Scan(cfg, net, j).active == net.active
    ensures if n < j then Doomed(Scan(cfg, net, j), n) else Marked(Scan(cfg, net, j), n)
  {
    hide NetOK, Update;
    if j > 0 {
      ScanDooms(cfg, net, j - 1, n);
      ScanInv(cfg, net, j - 1);
      var net1 := Scan(cfg, net, j - 1);
      PendingIsFine(cfg, net1, j - 1);
      if j - 1 in net1.active {
        UpdateInv(cfg, net1, j - 1);
        if j - 1 == n {
          UpdateDooms(cfg, net1, n);
        } else {
          OtherUpdateKeeps(cfg, net1, j - 1, n);
          UpdateKeepsDoomed(cfg, net1, j - 1);
          assert Doomed(net1, n) ==> Doomed(Update(cfg, net1, j - 1), n);
        }
      }
    }
  }

  lemma {:induction false} IterateDooms(cfg: Config, net: Net, limit: nat, n: nat)
    requires Inv(cfg, net) && Marked(net, n)
    ensures PoppedIn(cfg, net, limit, n) ==> Doomed(Iterate(cfg, net, limit), n)
    ensures !PoppedIn(cfg, net, limit, n) ==> Keeps(net, Iterate(cfg, net, limit), n)
    decreases limit
  {
    hide Inv, InvBut, Update, Turn, Keeps;
    KeepsSelf(net, n);
    if limit > 0 && net.todo != [] {
      TurnInv(cfg, net);
      TurnIsUpdate(cfg, net);
      var k, popped, net1 := net.todo[|net.todo| - 1], Popped(net), Turn(cfg, net);
      if k == n {
        UpdateDooms(cfg, popped, n);
        IterateKeepsDoomed(cfg, net1, limit - 1);
      } else {
        OtherUpdateKeeps(cfg, popped, k, n);
        TurnKeeps(net, popped, Update(cfg, popped, k), net1, n);
        KeepsMarks(net, net1, n);
        IterateDooms(cfg, net1, limit - 1, n);
        if !PoppedIn(cfg, net1, limit - 1, n) { KeepsMore(net, net1, Iterate(cfg, net1, limit - 1), n); }
      }
    }
  }

  lemma TurnKeeps(net: Net, popped: Net, updated: Net, net1: Net, n: nat)
    requires popped == net.(todo := popped.todo) && net1 == updated.(recent := net1.recent)
    requires (n in net.todo ==> n in popped.todo) && Keeps(popped, updated, n)
    ensures Keeps(net, net1, n)
  {}

  // ---- the constraint and finish ----

  lemma ApplyMarked(cfg: Config, net: Net, op: Op, n: nat)
    requires Inv(cfg, net) && Marked(net, n)
    ensures UpdatedBy(cfg, net, op, n) ==> Doomed(Apply(cfg, net, op), n)
    ensures !UpdatedBy(cfg, net, op, n) ==> Keeps(net, Apply(cfg, net, op), n)
  {
    hide NetOK, ConstrainAll, PreferSpillAll, LinkAll, Scan, Iterate, PoppedIn, TodoOK, MustSpillQueued;
    match op
    case Constraints(lbs) => ConstrainAllKeeps(cfg, net, lbs, n);
    case PrefSpills(blocks, strong) => PreferSpillAllKeeps(cfg, net, blocks, strong, n);
    case Links(blocks) => LinkAllKeeps(cfg, net, blocks, n);
    case ScanActive => ScanDooms(cfg, net, |net.ns|, n);
    case IterateFor(limit) =>
      RecentInv(cfg, net, []);
      assert Marked(net.(recent := []), n);
      IterateDooms(cfg, net.(recent := []), limit, n);
  }

  // From its constraint on, a bundle keeps its value and its place on the work
  // list until it is updated, and does not prefer a register afterwards.
  lemma {:induction false} RunMarked(cfg: Config, net: Net, ops: seq<Op>, n: nat)
    requires Inv(cfg, net) && Marked(net, n)
    ensures UpdatedSince(cfg, net, ops, n) ==> Doomed(Run(cfg, net, ops), n)
    ensures !UpdatedSince(cfg, net, ops, n) ==> Keeps(net, Run(cfg, net, ops), n)
  {
    hide Inv, Keeps, Apply, UpdatedBy, Marked;
    KeepsSelf(net, n);
    if ops != [] {
      var init, op := ops[..|ops| - 1], ops[|ops| - 1];
      RunMarked(cfg, net, init, n);
      var net1 := Run(cfg, net, init);
      if UpdatedSince(cfg, net, init, n) {
        ApplyKeepsDoomed(cfg, net1, op, n);
      } else {
        KeepsMarks(net, net1, n);
        ApplyMarked(cfg, net1, op, n);
        if !UpdatedBy(cfg, net1, op, n) { KeepsMore(net, net1, Apply(cfg, net1, op), n); }
      }
    }
  }

  // A bundle given a MustSpill constraint at any point of a query is in the
  // result exactly when it preferred a register at that moment and has not been
  // updated since.
  lemma MustSpillIgnoredExactly(cfg: Config, net0: Net, ops0: seq<Op>, lbs: seq<BlockConstraint>, ops: seq<Op>, n: nat)
    requires ConfigOK(cfg) && |net0.ns| == cfg.numBundles && MustSpills(cfg, lbs, n)
    ensures var before := Run(cfg, Prepared(cfg, net0), ops0);
            var given := Run(cfg, before, [Constraints(lbs)]);
            n in Finish(Run(cfg, given, ops))
            <==> n in before.active && n < |before.ns| && PreferReg(before.ns[n])
                 && !UpdatedSince(cfg, given, ops, n)
  {
    var before := Run(cfg, Prepared(cfg, net0), ops0);
    RunOne(cfg, before, Constraints(lbs));
    var given := Run(cfg, before, [Constraints(lbs)]);
    ConstrainAllKeeps(cfg, before, lbs, n);
    RunMarked(cfg, given, ops, n);
    hide NetOK, Run, ConstrainAll, UpdatedSince, MustSpills;
    InRange(cfg, Run(cfg, given, ops));
  }

  lemma RunOne(cfg: Config, net: Net, op: Op)
    requires Inv(cfg, net)
    ensures Run(cfg, net, [op]) == Apply(cfg, net, op)
  {
    assert [op][..0] == [];
    assert Run(cfg, net, []) == net;
  }

  lemma InRange(cfg: Config, net: Net)
    requires Inv(cfg, net)
    ensures forall m :: m in net.active ==> m < |net.ns|
  {}

  // ---- what the callers do next ----

  lemma {:induction false} UpdatedEarlier(cfg: Config, net: Net, ops: seq<Op>, k: nat, n: nat)
    requires Inv(cfg, net) && k <= |ops| && UpdatedSince(cfg, net, ops[..k], n)
    ensures UpdatedSince(cfg, net, ops, n)
    decreases |ops|
  {
    hide Inv, UpdatedBy;
    if k == |ops| {
      assert ops[..k] == ops;
    } else {
      assert ops[..|ops| - 1][..k] == ops[..k];
      UpdatedEarlier(cfg, net, ops[..|ops| - 1], k, n);
    }
  }

  // A scan of the active bundles, or a work list that has been emptied, at any
  // later point: the constraint is honoured.
  lemma HonouredWhenSettled(cfg: Config, net0: Net, ops0: seq<Op>, lbs: seq<BlockConstraint>, ops: seq<Op>, k: nat,
        n: nat)
    requires ConfigOK(cfg) && |net0.ns| == cfg.numBundles && MustSpills(cfg, lbs, n) && k <= |ops|
    requires var before := Run(cfg, Prepared(cfg, net0), ops0);
              (k > 0 && ops[k - 1] == ScanActive) || Run(cfg, Run(cfg, before, [Constraints(lbs)]), ops[..k]).todo == []
    ensures var before := Run(cfg, Prepared(cfg, net0), ops0);
            n !in Finish(Run(cfg, Run(cfg, before, [Constraints(lbs)]), ops))
  {
    var before := Run(cfg, Prepared(cfg, net0), ops0);
    RunOne(cfg, before, Constraints(lbs));
    var given := Run(cfg, before, [Constraints(lbs)]);
    ConstrainAllKeeps(cfg, before, lbs, n);
    hide Run, ConstrainAll, MustSpills, Inv;
    UpdatedByThen(cfg, given, ops[..k], n);
    UpdatedEarlier(cfg, given, ops, k, n);
    MustSpillIgnoredExactly(cfg, net0, ops0, lbs, ops, n);
  }

  lemma UpdatedByThen(cfg: Config, net: Net, ops: seq<Op>, n: nat)
    requires Inv(cfg, net) && Marked(net, n) && n in net.todo
    requires (ops != [] && ops[|ops| - 1] == ScanActive) || Run(cfg, net, ops).todo == []
    ensures UpdatedSince(cfg, net, ops, n)
  {
    hide Inv, Apply;
    RunMarked(cfg, net, ops, n);
    if ops != [] { RunMarked(cfg, net, ops[..|ops| - 1], n); }
  }
}
