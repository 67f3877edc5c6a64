// When an empty work list means that the network is stable.
module PlacementFixedPoints {
  import opened Hopfield
  import opened HopfieldEnergy
  import opened PlacementSpec
  import opened PlacementRuns

  // ---- one update ----

  // Updating n leaves m behind: settled before, and afterwards neither settled nor queued.
  ghost predicate Loses(cfg: Config, net: Net, n: nat, m: nat)
    requires n < |net.ns| && m < |net.ns|
  {
    var net1 := Update(cfg, net, n);
    m != n && m !in net1.todo && Settled(net.ns, m, cfg.threshold) && !Settled(net1.ns, m, cfg.threshold)
  }

  // The update moves n within "no register", and takes m's input across the threshold.
  predicate SilentlyCrosses(cfg: Config, net: Net, n: nat, m: nat)
    requires n < |net.ns| && m < |net.ns|
  {
    var v, u := net.ns[n].value, Decide(net.ns, n, cfg.threshold);
    var x, w := Input(net.ns, net.active, m, cfg.threshold), W(net.ns, net.active, m, n);
    v <= 0 && u <= 0 && (x >= cfg.threshold) != (x + Times(u - v, w) >= cfg.threshold)
  }

  // A bundle off the work list is lost exactly by a silent move across its
  // threshold; never by a flip.
  lemma LosesExactly(cfg: Config, net: Net, n: nat, m: nat)
    requires InvBut(cfg, net, n) && n in net.active && m in net.active && m != n && n < |net.ns| && m < |net.ns|
    requires Unsaturated(net.ns, m, cfg.threshold) && Settled(net.ns, m, cfg.threshold) && m !in net.todo
    ensures Loses(cfg, net, n, m) <==> SilentlyCrosses(cfg, net, n, m)
  {
    hide NetOK, InvBut, Input, Decide, Dissent, W, Times, Unsaturated;
    ForInvBut(cfg, net, n);
    SettledAfter(cfg, net, n, m);
    if Flips(cfg, net, n) && m !in Update(cfg, net, n).todo { FlipLosesNobody(cfg, net, n, m); }
    TimesZero(W(net.ns, net.active, m, n));
    NoMove(W(net.ns, net.active, m, n));
  }

  lemma NoMove(w: int)
    ensures Times(0, w) == 0
  {}

  lemma ForInvBut(cfg: Config, net: Net, n: nat)
    requires InvBut(cfg, net, n)
    ensures NetOK(net.ns, net.active, cfg.threshold) && ConfigOK(cfg) && SmallValues(net.ns, net.active) && TodoOK(net)
  {}

  // Whether m is settled after n's update, read off its input.
  lemma SettledAfter(cfg: Config, net: Net, n: nat, m: nat)
    requires NetOK(net.ns, net.active, cfg.threshold) && n in net.active && m in net.active && m != n
    requires n < |net.ns| && m < |net.ns| && Unsaturated(net.ns, m, cfg.threshold)
    ensures var ns1 := Updated(net.ns, n, cfg.threshold);
            var move := Times(Decide(net.ns, n, cfg.threshold) - net.ns[n].value, W(net.ns, net.active, m, n));
            && (Settled(net.ns, m, cfg.threshold)
                <==> (Input(net.ns, net.active, m, cfg.threshold) >= cfg.threshold) == PreferReg(net.ns[m]))
            && (Settled(ns1, m, cfg.threshold)
                <==> (Input(net.ns, net.active, m, cfg.threshold) + move >= cfg.threshold) == PreferReg(net.ns[m]))
  {
    hide NetOK, Decide, Field, Times, W;
    var ns1 := Updated(net.ns, n, cfg.threshold);
    NetSmall(net.ns, net.active, cfg.threshold);
    UpdatedNetOK(net.ns, net.active, n, cfg.threshold);
    DecideReadsInput(net.ns, net.active, m, cfg.threshold);
    DecideReadsInput(ns1, net.active, m, cfg.threshold);
    FieldAfter(net.ns, net.active, n, Decide(net.ns, n, cfg.threshold), m, |net.ns|);
    TimesMoves(net.ns[n].value, Decide(net.ns, n, cfg.threshold), 0, 0, W(net.ns, net.active, m, n));
  }

  // A flip queues every neighbour it could unsettle.
  lemma FlipLosesNobody(cfg: Config, net: Net, n: nat, m: nat)
    requires InvBut(cfg, net, n) && n in net.active && m in net.active && m != n && n < |net.ns| && m < |net.ns|
    requires Settled(net.ns, m, cfg.threshold) && Flips(cfg, net, n) && m !in Update(cfg, net, n).todo
    ensures Settled(Update(cfg, net, n).ns, m, cfg.threshold)
  {
    hide Decide, Dissent, Pull, TotalWeight, WeightTo, HasLink, Distinct;
    var ns1 := Updated(net.ns, n, cfg.threshold);
    assert LinksOK(net.ns, net.active, n);
    DissentGrows(ns1, ns1[n].links, ns1[n].value, net.todo, net.active);
    if net.ns[m].value == ns1[n].value {
      SkippedNeighbourKeepsPreference(net.ns, n, m, cfg.threshold);
    } else {
      NotLinked(net.ns, net.active, cfg.threshold, n, m);
      UnlinkedDecides(net.ns, n, m, cfg.threshold);
    }
  }

  // m has no link to n unless n has one to m.
  lemma NotLinked(ns: seq<Node>, active: set<nat>, threshold: nat, n: nat, m: nat)
    requires NetOK(ns, active, threshold) && n in active && m in active
    requires forall i :: 0 <= i < |ns[n].links| ==> ns[n].links[i].to != m
    ensures forall i :: 0 <= i < |ns[m].links| ==> ns[m].links[i].to != n
  {
    assert !HasLink(ns[n].links, m);
    assert !HasLink(ns[m].links, n);
  }

  lemma {:induction false} UnlinkedPull(ns: seq<Node>, n: nat, links: seq<Link>, v: int, value: int)
    requires n < |ns| && forall i :: 0 <= i < |links| ==> links[i].to != n
    ensures Pull(ns[n := ns[n].(value := value)], links, v) == Pull(ns, links, v)
  {
    if links != [] { UnlinkedPull(ns, n, links[..|links| - 1], v, value); }
  }

  // What an unlinked bundle decides does not depend on n's value.
  lemma UnlinkedDecides(ns: seq<Node>, n: nat, m: nat, threshold: nat)
    requires n < |ns| && m < |ns| && forall i :: 0 <= i < |ns[m].links| ==> ns[m].links[i].to != n
    ensures Decide(Updated(ns, n, threshold), m, threshold) == Decide(ns, m, threshold)
  {
    var value := Decide(ns, n, threshold);
    UnlinkedPull(ns, n, ns[m].links, 1, value);
    UnlinkedPull(ns, n, ns[m].links, -1, value);
  }

  // ---- whole queries ----

  // m is queued or settled.
  ghost predicate Kept(cfg: Config, net: Net, m: nat) {
    m < |net.ns| && (m in net.todo || Settled(net.ns, m, cfg.threshold))
  }

  ghost predicate AllKept(cfg: Config, net: Net) {
    forall m :: m in net.active ==> Kept(cfg, net, m)
  }

  ghost predicate Stable(cfg: Config, net: Net) {
    forall m :: m in net.active ==> m < |net.ns| && Settled(net.ns, m, cfg.threshold)
  }

  ghost predicate LosesNone(cfg: Config, net: Net, n: nat)
    requires n < |net.ns|
  {
    forall m :: m in net.active && m < |net.ns| ==> !Loses(cfg, net, n, m)
  }

  // Updating n settles n, and keeps every bundle that it does not lose.
  lemma UpdateKeeps(cfg: Config, net: Net, n: nat, m: nat)
    requires InvBut(cfg, net, n) && n in net.active && n < |net.ns| && m in net.active && m < |net.ns|
    requires m == n || Kept(cfg, net, m)
    ensures Kept(cfg, Update(cfg, net, n), m) <==> !Loses(cfg, net, n, m)
  {
    hide Decide, NetOK, TodoOK;
    ForInvBut(cfg, net, n);
    ForcedOut(net.ns, net.active, n, cfg.threshold);
    UpdateTodo(cfg, net, n);
    if m == n {
      OwnLinks(net.ns, net.active, cfg.threshold, n);
      UnlinkedDecides(net.ns, n, n, cfg.threshold);
    }
  }

  lemma OwnLinks(ns: seq<Node>, active: set<nat>, threshold: nat, n: nat)
    requires NetOK(ns, active, threshold) && n in active
    ensures forall i :: 0 <= i < |ns[n].links| ==> ns[n].links[i].to != n
  {
    assert LinksOK(ns, active, n);
  }

  ghost predicate ScanLosesNone(cfg: Config, net: Net, j: nat)
    requires Inv(cfg, net) && j <= |net.ns|
  {
    j == 0 || (ScanLosesNone(cfg, net, j - 1)
               && (j - 1 in net.active ==> LosesNone(cfg, Scan(cfg, net, j - 1), j - 1)))
  }

  ghost predicate IterateLosesNone(cfg: Config, net: Net, limit: nat)
    requires Inv(cfg, net)
    decreases limit
  {
    limit == 0 || net.todo == []
    || (TurnInv(cfg, net);
        LosesNone(cfg, Popped(net), net.todo[|net.todo| - 1]) && IterateLosesNone(cfg, Turn(cfg, net), limit - 1))
  }

  // No update along the run loses a bundle.
  ghost predicate RunLosesNone(cfg: Config, net: Net, ops: seq<Op>)
    requires Inv(cfg, net)
  {
    ops == []
    || (var op, net1 := ops[|ops| - 1], Run(cfg, net, ops[..|ops| - 1]);
        && RunLosesNone(cfg, net, ops[..|ops| - 1])
        && (op.ScanActive? ==> ScanLosesNone(cfg, net1, |net1.ns|))
        && (op.IterateFor? ==> IterateLosesNone(cfg, net1.(recent := []), op.limit)))
  }

  lemma {:induction false} ScanKeeps(cfg: Config, net: Net, j: nat)
    requires Inv(cfg, net) && j <= |net.ns| && AllKept(cfg, net) && ScanLosesNone(cfg, net, j)
    ensures AllKept(cfg, Scan(cfg, net, j))
  {
    hide NetOK, Update, Settled;
    if j > 0 {
      ScanInv(cfg, net, j - 1);
      ScanKeeps(cfg, net, j - 1);
      var net1 := Scan(cfg, net, j - 1);
      if j - 1 in net1.active {
        PendingIsFine(cfg, net1, j - 1);
        UpdateAllKept(cfg, net1, j - 1);
      }
    }
  }

  lemma UpdateAllKept(cfg: Config, net: Net, n: nat)
    requires InvBut(cfg, net, n) && n in net.active && n < |net.ns| && LosesNone(cfg, net, n)
    requires forall m :: m in net.active ==> m == n || Kept(cfg, net, m)
    ensures Update(cfg, net, n).active == net.active && AllKept(cfg, Update(cfg, net, n))
  {
    hide InvBut, Update, Settled, Loses;
    UpdateInv(cfg, net, n);
    forall m | m in net.active ensures Kept(cfg, Update(cfg, net, n), m) {
      UpdateKeeps(cfg, net, n, m);
    }
  }

  lemma {:induction false} IterateKeeps(cfg: Config, net: Net, limit: nat)
    requires Inv(cfg, net) && AllKept(cfg, net) && IterateLosesNone(cfg, net, limit)
    ensures AllKept(cfg, Iterate(cfg, net, limit))
    decreases limit
  {
    hide NetOK, Update, Settled, Turn, Inv, LosesNone;
    if limit > 0 && net.todo != [] {
      TurnInv(cfg, net);
      TurnIsUpdate(cfg, net);
      var n := net.todo[|net.todo| - 1];
      UpdateAllKept(cfg, Popped(net), n);
      assert AllKept(cfg, Turn(cfg, net));
      IterateKeeps(cfg, Turn(cfg, net), limit - 1);
    }
  }

  // Biases and links change only on queued bundles.
  ghost predicate Touches(net: Net, net1: Net) {
    && |net1.ns| == |net.ns| && net.active <= net1.active
    && (forall k :: k in net.todo ==> k in net1.todo)
    && (forall k :: k in net.active && k < |net.ns| ==> net1.ns[k].value == net.ns[k].value)
    && (forall k :: k in net.active && k < |net.ns| && k !in net1.todo ==> net1.ns[k] == net.ns[k])
    && (forall k :: k in net1.active ==> k in net.active || k in net1.todo)
  }

  lemma TouchesMore(a: Net, b: Net, c: Net)
    requires Touches(a, b) && Touches(b, c)
    ensures Touches(a, c)
  {}

  lemma ActivateTouches(cfg: Config, net: Net, n: nat)
    requires n < |net.ns| && ConfigOK(cfg)
    ensures Touches(net, Activate(cfg, net, n)) && n in Activate(cfg, net, n).todo
  {}

  // A change of a queued bundle other than of its value.
  lemma ChangeTouches(net: Net, n: nat, node: Node)
    requires n < |net.ns| && n in net.todo && node.value == net.ns[n].value
    ensures Touches(net, net.(ns := net.ns[n := node]))
  {}

  lemma Bias1Touches(cfg: Config, net: Net, n: nat, freq: Freq, direction: BorderConstraint)
    requires n < |net.ns| && ConfigOK(cfg)
    ensures Touches(net, Bias1(cfg, net, n, freq, direction))
  {
    hide Touches, Activate;
    ActivateTouches(cfg, net, n);
    var net1 := Activate(cfg, net, n);
    assert |net1.ns| == |net.ns| by { ActivateLength(cfg, net, n); }
    ChangeTouches(net1, n, AddBias(net1.ns[n], freq, direction));
    TouchesMore(net, net1, Bias1(cfg, net, n, freq, direction));
  }

  lemma ActivateLength(cfg: Config, net: Net, n: nat)
    requires n < |net.ns| && ConfigOK(cfg)
    ensures |Activate(cfg, net, n).ns| == |net.ns| && forall k :: k in net.todo ==> k in Activate(cfg, net, n).todo
  {}

  lemma SelfTouches(net: Net)
    ensures Touches(net, net)
  {}

  lemma {:induction false} ConstrainAllTouches(cfg: Config, net: Net, lbs: seq<BlockConstraint>)
    requires |net.ns| == cfg.numBundles && ConfigOK(cfg)
    ensures Touches(net, ConstrainAll(cfg, net, lbs))
  {
    hide Touches, Bias1;
    SelfTouches(net);
    if lbs != [] {
      var net0, lb := ConstrainAll(cfg, net, lbs[..|lbs| - 1]), lbs[|lbs| - 1];
      ConstrainAllTouches(cfg, net, lbs[..|lbs| - 1]);
      var ib, ob, freq := cfg.bundle(lb.number, false), cfg.bundle(lb.number, true), cfg.blockFreq(lb.number);
      var net1 := if lb.entry == DontCare then net0 else Bias1(cfg, net0, ib, freq, lb.entry);
      Bias1Length(cfg, net0, ib, freq, lb.entry);
      Bias1Touches(cfg, net0, ib, freq, lb.entry);
      Bias1Touches(cfg, net1, ob, freq, lb.exit);
      if lb.entry != DontCare { TouchesMore(net, net0, net1); }
      if lb.exit != DontCare { TouchesMore(net, net1, ConstrainAll(cfg, net, lbs)); }
    }
  }

  lemma BothTouch(cfg: Config, net: Net, ib: nat, ob: nat) returns (net1: Net)
    requires ib < |net.ns| && ob < |net.ns| && ConfigOK(cfg)
    ensures |Activate(cfg, net, ib).ns| == |net.ns| && net1 == Activate(cfg, Activate(cfg, net, ib), ob)
    ensures |net1.ns| == |net.ns| && ib in net1.todo && ob in net1.todo && Touches(net, net1)
  {
    hide Touches, Activate;
    ActivateTouches(cfg, net, ib);
    ActivateLength(cfg, net, ib);
    var net0 := Activate(cfg, net, ib);
    ActivateTouches(cfg, net0, ob);
    ActivateLength(cfg, net0, ob);
    net1 := Activate(cfg, net0, ob);
    TouchesMore(net, net0, net1);
  }

  lemma {:induction false} PreferSpillAllTouches(cfg: Config, net: Net, blocks: seq<nat>, strong: bool)
    requires |net.ns| == cfg.numBundles && ConfigOK(cfg)
    ensures Touches(net, PreferSpillAll(cfg, net, blocks, strong))
  {
    hide Touches, Activate;
    SelfTouches(net);
    if blocks != [] {
      var b := blocks[|blocks| - 1];
      var net0 := PreferSpillAll(cfg, net, blocks[..|blocks| - 1], strong);
      PreferSpillAllTouches(cfg, net, blocks[..|blocks| - 1], strong);
      var ib, ob, freq := cfg.bundle(b, false), cfg.bundle(b, true), SpillFreq(cfg, b, strong);
      var net1 := BothTouch(cfg, net0, ib, ob);
      var net2 := net1.(ns := net1.ns[ib := AddBias(net1.ns[ib], freq, PrefSpill)]);
      ChangeTouches(net1, ib, AddBias(net1.ns[ib], freq, PrefSpill));
      ChangeTouches(net2, ob, AddBias(net2.ns[ob], freq, PrefSpill));
      TouchesMore(net, net0, net1);
      TouchesMore(net, net1, net2);
      TouchesMore(net, net2, PreferSpillAll(cfg, net, blocks, strong));
    }
  }

  lemma {:induction false} LinkAllTouches(cfg: Config, net: Net, blocks: seq<nat>)
    requires |net.ns| == cfg.numBundles && ConfigOK(cfg)
    ensures Touches(net, LinkAll(cfg, net, blocks))
  {
    hide Touches, Activate, Joined;
    SelfTouches(net);
    if blocks != [] {
      var b := blocks[|blocks| - 1];
      var net0 := LinkAll(cfg, net, blocks[..|blocks| - 1]);
      LinkAllTouches(cfg, net, blocks[..|blocks| - 1]);
      var ib, ob := cfg.bundle(b, false), cfg.bundle(b, true);
      if ib != ob {
        var net1 := BothTouch(cfg, net0, ib, ob);
        var net2 := net1.(ns := net1.ns[ib := AddLink(net1.ns[ib], ob, cfg.blockFreq(b))]);
        ChangeTouches(net1, ib, AddLink(net1.ns[ib], ob, cfg.blockFreq(b)));
        ChangeTouches(net2, ob, AddLink(net2.ns[ob], ib, cfg.blockFreq(b)));
        TouchesMore(net, net0, net1);
        TouchesMore(net, net1, net2);
        TouchesMore(net, net2, LinkAll(cfg, net, blocks));
      }
    }
  }

  lemma {:induction false} SamePull(ns: seq<Node>, ns1: seq<Node>, links: seq<Link>, v: int)
    requires |ns| == |ns1|
    requires forall i :: 0 <= i < |links| ==> links[i].to < |ns| && ns1[links[i].to].value == ns[links[i].to].value
    ensures Pull(ns1, links, v) == Pull(ns, links, v)
  {
    if links != [] { SamePull(ns, ns1, links[..|links| - 1], v); }
  }

  // So they leave no bundle behind.
  lemma TouchesKeeps(cfg: Config, net: Net, net1: Net)
    requires Inv(cfg, net) && AllKept(cfg, net) && Inv(cfg, net1) && Touches(net, net1)
    ensures AllKept(cfg, net1)
  {
    hide Symmetric, TotalWeight, Pull, MustSpillQueued, Sign;
    forall m | m in net1.active ensures Kept(cfg, net1, m) {
      if m !in net1.todo {
        assert LinksOK(net.ns, net.active, m) && Kept(cfg, net, m);
        SamePull(net.ns, net1.ns, net.ns[m].links, 1);
        SamePull(net.ns, net1.ns, net.ns[m].links, -1);
      }
    }
  }

  // Whatever is no update only touches queued bundles.
  lemma ApplyTouches(cfg: Config, net: Net, op: Op)
    requires Inv(cfg, net) && !op.ScanActive? && !op.IterateFor?
    ensures Touches(net, Apply(cfg, net, op))
  {
    FromInv(cfg, net);
    hide Inv, ConfigOK, Touches, ConstrainAll, PreferSpillAll, LinkAll;
    match op
    case Constraints(lbs) => ConstrainAllTouches(cfg, net, lbs);
    case PrefSpills(blocks, strong) => PreferSpillAllTouches(cfg, net, blocks, strong);
    case Links(blocks) => LinkAllTouches(cfg, net, blocks);
  }

  lemma ForgetRecent(cfg: Config, net: Net)
    requires Inv(cfg, net) && AllKept(cfg, net)
    ensures Inv(cfg, net.(recent := [])) && AllKept(cfg, net.(recent := []))
  {
    FromInv(cfg, net);
    hide Inv, Settled;
    assert forall m :: Kept(cfg, net, m) ==> Kept(cfg, net.(recent := []), m);
  }

  lemma ApplyKeeps(cfg: Config, net: Net, op: Op)
    requires Inv(cfg, net) && AllKept(cfg, net)
    requires op.ScanActive? ==> ScanLosesNone(cfg, net, |net.ns|)
    requires op.IterateFor? ==> IterateLosesNone(cfg, net.(recent := []), op.limit)
    ensures AllKept(cfg, Apply(cfg, net, op))
  {
    hide Inv, AllKept, Touches, ConstrainAll, PreferSpillAll, LinkAll, Scan, Iterate, IterateLosesNone, ScanLosesNone;
    ApplyInv(cfg, net, op);
    match op
    case ScanActive => ScanKeeps(cfg, net, |net.ns|);
    case IterateFor(limit) =>
      ForgetRecent(cfg, net);
      IterateKeeps(cfg, net.(recent := []), limit);
    case _ =>
      ApplyTouches(cfg, net, op);
      TouchesKeeps(cfg, net, Apply(cfg, net, op));
  }

  lemma FromInv(cfg: Config, net: Net)
    requires Inv(cfg, net)
    ensures ConfigOK(cfg) && |net.ns| == cfg.numBundles && Inv(cfg, net.(recent := []))
  {}

  // A query in which no update loses a bundle is stable whenever its work list is empty.
  lemma {:induction false} RunIsStable(cfg: Config, net0: Net, ops: seq<Op>)
    requires ConfigOK(cfg) && |net0.ns| == cfg.numBundles && RunLosesNone(cfg, Prepared(cfg, net0), ops)
    ensures AllKept(cfg, Run(cfg, Prepared(cfg, net0), ops))
    ensures Run(cfg, Prepared(cfg, net0), ops).todo == [] ==> Stable(cfg, Run(cfg, Prepared(cfg, net0), ops))
  {
    hide Inv, Settled, Apply, IterateLosesNone, ScanLosesNone;
    if ops != [] {
      RunIsStable(cfg, net0, ops[..|ops| - 1]);
      ApplyKeeps(cfg, Run(cfg, Prepared(cfg, net0), ops[..|ops| - 1]), ops[|ops| - 1]);
    }
  }

  // ---- a run of iterate, exactly ----

  // One turn more.
  lemma {:induction false} IterateMore(cfg: Config, net: Net, k: nat)
    requires Inv(cfg, net)
    ensures var now := Iterate(cfg, net, k);
            if now.todo == [] then Iterate(cfg, net, k + 1) == now
            else (TurnInv(cfg, now); Iterate(cfg, net, k + 1) == Turn(cfg, now))
    decreases k
  {
    hide Inv, Turn;
    if net.todo != [] {
      TurnInv(cfg, net);
      IterateStep(cfg, net, k + 1);
      if k > 0 {
        IterateMore(cfg, Turn(cfg, net), k - 1);
      } else {
        IterateStep(cfg, Turn(cfg, net), 0);
      }
    }
  }

  // Turn number k leaves m behind.
  ghost predicate LostAt(cfg: Config, net: Net, k: nat, m: nat)
    requires Inv(cfg, net)
  {
    Kept(cfg, Iterate(cfg, net, k), m) && !Kept(cfg, Iterate(cfg, net, k + 1), m)
  }

  // ... which happens exactly when it is a silent move across m's threshold.
  lemma LostAtExactly(cfg: Config, net: Net, k: nat, m: nat)
    requires Inv(cfg, net) && m in net.active && Kept(cfg, Iterate(cfg, net, k), m) && Calm(cfg, Iterate(cfg, net, k))
    ensures var now := Iterate(cfg, net, k);
            LostAt(cfg, net, k, m)
            <==> now.todo != [] && m !in now.todo
                 && (TurnInv(cfg, now); SilentlyCrosses(cfg, Popped(now), now.todo[|now.todo| - 1], m))
  {
    hide Inv, Iterate, SilentlyCrosses, Kept, Calm, Turn;
    var now := Iterate(cfg, net, k);
    IterateMore(cfg, net, k);
    if now.todo != [] { TurnLosesExactly(cfg, now, m); }
  }

  lemma TurnLosesExactly(cfg: Config, now: Net, m: nat)
    requires Inv(cfg, now) && m in now.active && Kept(cfg, now, m) && Calm(cfg, now) && now.todo != []
    ensures var n := now.todo[|now.todo| - 1];
            && n < |now.ns|
            && (Kept(cfg, Turn(cfg, now), m) <==> m in now.todo || !SilentlyCrosses(cfg, Popped(now), n, m))
  {
    TurnIsUpdate(cfg, now);
    var n, popped := now.todo[|now.todo| - 1], Popped(now);
    CalmNode(now.ns, now.active, cfg.threshold, m);
    hide Inv, InvBut, Update, Turn, SilentlyCrosses, Unsaturated, Settled, Calm, Loses;
    assert m == n || Kept(cfg, popped, m);
    UpdateKeeps(cfg, popped, n, m);
    if Loses(cfg, popped, n, m) { LosesNeeds(cfg, popped, n, m); }
    if m !in now.todo { LosesExactly(cfg, popped, n, m); }
  }

  lemma LosesNeeds(cfg: Config, net: Net, n: nat, m: nat)
    requires InvBut(cfg, net, n) && n in net.active && n < |net.ns| && m < |net.ns| && Loses(cfg, net, n, m)
    ensures m != n && m !in net.todo && Settled(net.ns, m, cfg.threshold)
  {
    hide Decide, NetOK, TodoOK;
    ForInvBut(cfg, net, n);
    ForcedOut(net.ns, net.active, n, cfg.threshold);
    UpdateTodo(cfg, net, n);
  }

  // m is not left behind for good.
  ghost predicate FoundAgain(cfg: Config, net: Net, k: nat, limit: nat, m: nat)
    requires Inv(cfg, net)
  {
    exists k2: nat :: k < k2 <= limit && Kept(cfg, Iterate(cfg, net, k2), m)
  }

  lemma {:induction false} KeptAtEnd(cfg: Config, net: Net, k: nat, limit: nat, m: nat)
    requires Inv(cfg, net) && k <= limit && Kept(cfg, Iterate(cfg, net, k), m)
    requires forall i: nat :: i < limit && LostAt(cfg, net, i, m) ==> FoundAgain(cfg, net, i, limit, m)
    ensures Kept(cfg, Iterate(cfg, net, limit), m)
    decreases limit - k
  {
    hide Inv, Iterate, Kept;
    if k < limit {
      if Kept(cfg, Iterate(cfg, net, k + 1), m) {
        KeptAtEnd(cfg, net, k + 1, limit, m);
      } else {
        assert LostAt(cfg, net, k, m);
        var k2: nat :| k < k2 <= limit && Kept(cfg, Iterate(cfg, net, k2), m);
        KeptAtEnd(cfg, net, k2, limit, m);
      }
    }
  }

  ghost predicate AllFoundAgain(cfg: Config, net: Net, limit: nat)
    requires Inv(cfg, net)
  {
    forall k: nat, m :: k < limit && m in net.active && LostAt(cfg, net, k, m) ==> FoundAgain(cfg, net, k, limit, m)
  }

  lemma StableIsFound(cfg: Config, net: Net, limit: nat)
    requires Inv(cfg, net) && forall m :: m in net.active ==> Kept(cfg, Iterate(cfg, net, limit), m)
    ensures AllFoundAgain(cfg, net, limit)
  {
    hide Inv, Kept, LostAt, Iterate;
  }

  // A run of iterate that empties its work list ends in a fixed point exactly
  // when every bundle left behind on the way is queued or settled again.
  lemma FixedPointExactly(cfg: Config, net: Net, limit: nat)
    requires Inv(cfg, net) && AllKept(cfg, net) && Iterate(cfg, net, limit).todo == []
    ensures Stable(cfg, Iterate(cfg, net, limit)) <==> AllFoundAgain(cfg, net, limit)
  {
    var end := Iterate(cfg, net, limit);
    assert Iterate(cfg, net, 0) == net;
    hide Inv, Settled, LostAt, Iterate, FoundAgain;
    if Stable(cfg, end) { StableIsFound(cfg, net, limit); }
    if AllFoundAgain(cfg, net, limit) {
      forall m | m in net.active ensures Kept(cfg, end, m) {
        KeptAtEnd(cfg, net, 0, limit, m);
      }
    }
  }
}
