// Three promises a query does not keep, each with a query from prepare on that
// breaks it, whatever the node array held before.
module PlacementLimits {
  import opened Hopfield
  import opened HopfieldEnergy
  import opened PlacementSpec
  import opened PlacementRuns
  import opened PlacementFixedPoints
  import opened PlacementMustSpill

  lemma RunMore(cfg: Config, net: Net, ops: seq<Op>, op: Op)
    requires Inv(cfg, net)
    ensures Run(cfg, net, ops + [op]) == Apply(cfg, Run(cfg, net, ops), op)
    ensures Run(cfg, net, []) == net
  {
    assert (ops + [op])[..|ops|] == ops;
  }

  lemma ConstrainOne(cfg: Config, net: Net, lb: BlockConstraint)
    requires |net.ns| == cfg.numBundles && ConfigOK(cfg)
    ensures ConstrainAll(cfg, net, [lb]) == Constrain(cfg, net, lb)
  {
    assert [lb][..0] == [];
    assert ConstrainAll(cfg, net, []) == net;
  }

  lemma RunThen(cfg: Config, net: Net, ops: seq<Op>, op: Op, mid: Net, end: Net)
    requires Inv(cfg, net) && Run(cfg, net, ops) == mid && Apply(cfg, mid, op) == end
    ensures Run(cfg, net, ops + [op]) == end
  {
    RunMore(cfg, net, ops, op);
  }

  // ---- an empty work list is not a fixed point ----

  // Every block runs from bundle 0 to bundle 1.
  function TwoBundles(): Config {
    Config(2, (b, out) => if out then 1 else 0, n => false, 1, b => 1, 1)
  }

  function Biases(): seq<BlockConstraint> {
    [BlockConstraint(0, DontCare, PrefReg), BlockConstraint(0, PrefSpill, DontCare)]
  }

  function Start(): seq<Op> {
    [Constraints(Biases()), Links([0])]
  }

  function Linked(): Net {
    Net([Node(1, 0, 0, [Link(1, 1)], 2), Node(0, 1, 0, [Link(1, 0)], 2)], {0, 1}, [1, 0], [])
  }

  function Decided(): Net {
    Linked().(ns := Linked().ns[0 := Linked().ns[0].(value := -1)], todo := [])
  }

  function Waiting(): Net {
    Net([Node(1, 1, -1, [Link(1, 1)], 2), Node(0, 1, 0, [Link(1, 0)], 2)], {0, 1}, [0], [])
  }

  function Biased(): Net {
    Net([Node(1, 0, 0, [], 1), Node(0, 1, 0, [], 1)], {0, 1}, [1, 0], [])
  }

  lemma BiasedFromPrepare(net: Net)
    requires |net.ns| == 2 && net.active == {} && net.todo == [] && net.recent == []
    ensures ConstrainAll(TwoBundles(), net, Biases()) == Biased()
  {
    var cfg := TwoBundles();
    var lb0, lb1 := Biases()[0], Biases()[1];
    ConstrainOne(cfg, net, lb0);
    assert Biases()[..1] == [lb0];
    var one := Net(net.ns[1 := Node(0, 1, 0, [], 1)], {1}, [1], []);
    assert Constrain(cfg, net, lb0) == one;
    assert Constrain(cfg, one, lb1) == Biased();
  }

  lemma LinkedFromBiased()
    ensures LinkAll(TwoBundles(), Biased(), [0]) == Linked()
  {
    assert [0][..0] == [];
    assert LinkAll(TwoBundles(), Biased(), []) == Biased();
    assert FindLink([], 0) == 0 && FindLink([], 1) == 0;
    var ns := Biased().ns;
    assert AddLink(ns[0], 1, 1) == Linked().ns[0] && AddLink(ns[1], 0, 1) == Linked().ns[1];
    assert LinkBlock(TwoBundles(), Biased(), 0) == Linked();
  }

  lemma LinkedFromStart(net0: Net)
    requires |net0.ns| == 2
    ensures Run(TwoBundles(), Prepared(TwoBundles(), net0), Start()) == Linked()
  {
    var cfg := TwoBundles();
    var net := Prepared(cfg, net0);
    assert net.todo == [] && net.recent == [] && |net.ns| == 2;
    RunMore(cfg, net, [], Constraints(Biases()));
    RunMore(cfg, net, [Constraints(Biases())], Links([0]));
    assert [] + [Constraints(Biases())] == [Constraints(Biases())];
    assert [Constraints(Biases())] + [Links([0])] == Start();
    hide Run, ConstrainAll, LinkAll, Inv, Prepared, Biases, Biased, Linked;
    BiasedFromPrepare(net);
    LinkedFromBiased();
  }

  lemma FirstTurn()
    ensures Turn(TwoBundles(), Linked()) == Decided().(todo := [1])
  {
    var net := Linked();
    var a := net.ns[0].links;
    assert a[..0] == [];
    assert Pull(net.ns, a, 1) == 0 && Pull(net.ns, a, -1) == 0;
    assert Decide(net.ns, 0, 1) == -1;
  }

  lemma SecondTurn()
    ensures Turn(TwoBundles(), Decided().(todo := [1])) == Decided()
  {
    var net := Decided().(todo := [1]);
    var b := net.ns[1].links;
    assert b[..0] == [];
    assert Pull(net.ns, b, 1) == 0 && Pull(net.ns, b, -1) == 1;
    assert Decide(net.ns, 1, 1) == 0;
  }

  // Bundle 0 goes to the stack, bundle 1 stays undecided.
  lemma DecidedFromLinked()
    requires Inv(TwoBundles(), Linked())
    ensures Iterate(TwoBundles(), Linked(), 20) == Decided()
  {
    var cfg := TwoBundles();
    FirstTurn();
    SecondTurn();
    hide Iterate, Turn, Inv;
    IterateStep(cfg, Linked(), 20);
    IterateStep(cfg, Decided().(todo := [1]), 19);
    IterateStep(cfg, Decided(), 18);
  }

  lemma WaitingFromDecided()
    ensures ConstrainAll(TwoBundles(), Decided(), [BlockConstraint(0, PrefReg, DontCare)]) == Waiting()
  {
    ConstrainOne(TwoBundles(), Decided(), BlockConstraint(0, PrefReg, DontCare));
  }

  // The last turn moves bundle 0 from -1 to 0. That is no change of preference,
  // so bundle 1 is not queued, although it would now take a register.
  lemma LastTurn()
    requires Inv(TwoBundles(), Waiting())
    ensures var net := Iterate(TwoBundles(), Waiting(), 20);
            net.todo == [] && net.active == {0, 1} && |net.ns| == 2 && Decide(net.ns, 1, 1) == 1 && net.ns[1].value == 0
  {
    var cfg, net := TwoBundles(), Waiting();
    var a, b := net.ns[0].links, net.ns[1].links;
    assert a[..0] == [] && b[..0] == [];
    assert Pull(net.ns, a, 1) == 0 && Pull(net.ns, a, -1) == 0;
    assert Decide(net.ns, 0, 1) == 0;
    var net1 := Turn(cfg, net);
    assert net1 == Net([Node(1, 1, 0, a, 2), Node(0, 1, 0, b, 2)], {0, 1}, [], []);
    IterateStep(cfg, net, 20);
    IterateStep(cfg, net1, 19);
    assert Pull(net1.ns, b, 1) == 0 && Pull(net1.ns, b, -1) == 0;
  }

  // A query on two bundles begins.
  ghost function Two(net0: Net): (r: Net)
    requires |net0.ns| == 2
    ensures Inv(TwoBundles(), r) && r == Prepared(TwoBundles(), net0)
  {
    Prepared(TwoBundles(), net0)
  }

  lemma AfterIterate(cfg: Config, net: Net, limit: nat)
    requires Inv(cfg, net) && net.recent == []
    ensures Apply(cfg, net, IterateFor(limit)) == Iterate(cfg, net, limit)
  {
    hide Inv, Iterate;
    assert net.(recent := []) == net;
  }

  lemma WaitingFromPrepare(net0: Net) returns (ops: seq<Op>)
    requires |net0.ns| == 2
    ensures Run(TwoBundles(), Two(net0), ops) == Waiting()
  {
    hide Run, Iterate, Inv, ConstrainAll, TwoBundles, Start;
    var cfg, net := TwoBundles(), Two(net0);
    var more := Constraints([BlockConstraint(0, PrefReg, DontCare)]);
    LinkedFromStart(net0);
    DecidedFromLinked();
    WaitingFromDecided();
    AfterIterate(cfg, Linked(), 20);
    hide Linked, Decided, Waiting;
    RunThen(cfg, net, Start(), IterateFor(20), Linked(), Decided());
    RunThen(cfg, net, Start() + [IterateFor(20)], more, Decided(), Waiting());
    ops := Start() + [IterateFor(20)] + [more];
  }

  // A query whose iterations stay far below their limit, and that ends with an
  // empty work list in a state that is not stable.
  lemma EmptyTodoIsNotAFixedPoint(net0: Net) returns (ops: seq<Op>)
    requires |net0.ns| == 2
    ensures var net := Run(TwoBundles(), Two(net0), ops);
            net.todo == [] && !Stable(TwoBundles(), net)
  {
    hide Run, Iterate, Inv, Decide, TwoBundles;
    var ops2 := WaitingFromPrepare(net0);
    LastTurn();
    AfterIterate(TwoBundles(), Waiting(), 20);
    hide Waiting;
    var end := Iterate(TwoBundles(), Waiting(), 20);
    RunThen(TwoBundles(), Two(net0), ops2, IterateFor(20), Waiting(), end);
    assert Unstable(end);
    NotStable(end);
    ops := ops2 + [IterateFor(20)];
  }

  predicate Unstable(net: Net) {
    1 in net.active && |net.ns| == 2 && Decide(net.ns, 1, 1) == 1 && net.ns[1].value == 0
  }

  lemma NotStable(net: Net)
    requires Unstable(net)
    ensures !Stable(TwoBundles(), net)
  {
    hide Decide;
    assert !Settled(net.ns, 1, 1);
  }

  // ---- one bundle ----

  // All blocks run from bundle 0 to itself; block 0 is twice as frequent as the
  // others. The entry frequency is the one that gives this threshold.
  function OneBundle(threshold: nat): (cfg: Config)
    requires 1 <= threshold <= 2
    ensures ConfigOK(cfg) && cfg.threshold == threshold
  {
    Config(1, (b, out) => 0, n => false, 8192 * threshold, b => if b == 0 then 2 else 1, threshold)
  }

  function Preferring(threshold: Freq): Net {
    Net([Node(0, 2, 1, [], threshold)], {0}, [], [0])
  }

  function Asked(threshold: Freq): Net {
    Net([Node(0, 2, 0, [], threshold)], {0}, [0], [])
  }

  lemma AskedFromPrepare(net: Net, threshold: Freq)
    requires |net.ns| == 1 && net.active == {} && net.todo == [] && net.recent == []
    requires 1 <= threshold <= 2
    ensures ConstrainAll(OneBundle(threshold), net, [BlockConstraint(0, PrefReg, DontCare)]) == Asked(threshold)
  {
    ConstrainOne(OneBundle(threshold), net, BlockConstraint(0, PrefReg, DontCare));
  }

  lemma PreferringFromAsked(threshold: Freq)
    requires 1 <= threshold <= 2 && Inv(OneBundle(threshold), Asked(threshold))
    ensures Iterate(OneBundle(threshold), Asked(threshold), 10) == Preferring(threshold)
  {
    var cfg, net := OneBundle(threshold), Asked(threshold);
    assert Pull(net.ns, [], 1) == 0 && Pull(net.ns, [], -1) == 0;
    assert Decide(net.ns, 0, threshold) == 1;
    assert Turn(cfg, net) == Preferring(threshold);
    hide Inv, Iterate, Turn;
    IterateStep(cfg, net, 10);
    IterateStep(cfg, Preferring(threshold), 9);
  }

  // A query on one bundle begins.
  ghost function One(net0: Net, threshold: Freq): (r: Net)
    requires |net0.ns| == 1 && 1 <= threshold <= 2
    ensures Inv(OneBundle(threshold), r) && r == Prepared(OneBundle(threshold), net0)
    ensures |r.ns| == 1 && r.todo == [] && r.recent == []
  {
    Prepared(OneBundle(threshold), net0)
  }

  // The bundle is given a preference for a register, and decides for it.
  lemma PreferringFromPrepare(net0: Net, threshold: Freq) returns (ops: seq<Op>)
    requires |net0.ns| == 1 && 1 <= threshold <= 2
    ensures Run(OneBundle(threshold), One(net0, threshold), ops) == Preferring(threshold)
    ensures ops == [Constraints([BlockConstraint(0, PrefReg, DontCare)]), IterateFor(10)]
  {
    hide Run, Iterate, Inv, ConstrainAll, OneBundle;
    var cfg, net := OneBundle(threshold), One(net0, threshold);
    var first := Constraints([BlockConstraint(0, PrefReg, DontCare)]);
    RunMore(cfg, net, [], first);
    AskedFromPrepare(net, threshold);
    RunThen(cfg, net, [], first, net, Asked(threshold));
    PreferringFromAsked(threshold);
    AfterIterate(cfg, Asked(threshold), 10);
    hide Asked, Preferring;
    RunThen(cfg, net, [] + [first], IterateFor(10), Asked(threshold), Preferring(threshold));
    ops := [first, IterateFor(10)];
    assert [] + [first] + [IterateFor(10)] == ops;
  }

  // ---- a MustSpill constraint can survive finish ----

  // Given to a bundle that prefers a register, and not followed by a scan or an
  // iteration, the constraint does not show in the result.
  lemma MustSpillCanSurviveFinish(net0: Net) returns (ops: seq<Op>, lbs: seq<BlockConstraint>)
    requires |net0.ns| == 1
    ensures MustSpills(OneBundle(1), lbs, 0)
    ensures 0 in Finish(Run(OneBundle(1), Run(OneBundle(1), One(net0, 1), ops), [Constraints(lbs)]))
  {
    var cfg := OneBundle(1);
    ops := PreferringFromPrepare(net0, 1);
    lbs := [BlockConstraint(0, MustSpillHere, DontCare)];
    assert lbs[0].entry == MustSpillHere;
    MustSpillIgnoredExactly(cfg, net0, ops, lbs, [], 0);
    hide Inv;
    assert Run(cfg, Run(cfg, Preferring(1), [Constraints(lbs)]), []) == Run(cfg, Preferring(1), [Constraints(lbs)]);
  }

  // ---- the plain energy can rise ----

  function Weakened(): Net {
    Net([Node(1, 2, 1, [], 2)], {0}, [0], [0])
  }

  lemma WeakenedRises(net: Net)
    requires Inv(OneBundle(2), net) && net == Weakened()
    ensures var net1 := Turn(OneBundle(2), net);
            TwicePlainEnergy(net1.ns, net1.active, 2) > TwicePlainEnergy(net.ns, net.active, 2)
  {
    var ns := net.ns;
    assert Pull(ns, [], 1) == 0 && Pull(ns, [], -1) == 0;
    assert Decide(ns, 0, 2) == 0;
    assert TotalWeight([]) == 0;
    NoLinksNoField(ns, {0}, 1);
    FieldIsLinkField(ns, {0}, 0, 1);
    assert Input(ns, {0}, 0, 2) == 1;
    PlainEnergyRisesExactly(ns, {0}, 0, 2);
  }

  // A bundle takes a register, is then told that one block would rather spill,
  // and drops the decision: the plain energy rises in that turn.
  lemma PlainEnergyCanRise(net0: Net) returns (ops: seq<Op>)
    requires |net0.ns| == 1
    ensures ScaledThreshold(OneBundle(2).entryFreq) == OneBundle(2).threshold == 2
    ensures var net := Run(OneBundle(2), One(net0, 2), ops);
            && net.todo == [0] && |net.ns| == 1
            && var net1 := Turn(OneBundle(2), net);
               TwicePlainEnergy(net1.ns, net1.active, 2) > TwicePlainEnergy(net.ns, net.active, 2)
  {
    var cfg := OneBundle(2);
    var before := PreferringFromPrepare(net0, 2);
    var lb := BlockConstraint(1, PrefSpill, DontCare);
    ops := before + [Constraints([lb])];
    RunMore(cfg, One(net0, 2), before, Constraints([lb]));
    ConstrainOne(cfg, Preferring(2), lb);
    assert Constrain(cfg, Preferring(2), lb) == Weakened();
    WeakenedRises(Run(cfg, One(net0, 2), ops));
  }
}
