// What one allocation step may change, and how such changes compose.
//
// Every operation of the allocator -- eviction, one call of selectOrSplitImpl,
// one round of last-chance recoloring -- is described by Frame: which ranges it
// may have moved, which it handed back to the caller, what it pushed on the
// undo stack, and how stages and cascade numbers advanced.
module GreedyFrames {
  import opened GreedyState

  // ---- well-formed states ----

  ghost predicate CascadesOK(t: Target, s: State) {
    && s.cascade.Keys == t.vregs
    && s.next >= 1
    && (forall w :: w in s.cascade ==> s.cascade[w] < s.next)
    && s.next <= 1 + |Numbered(s.cascade)|
  }

  ghost function Numbered(cascade: map<VReg, nat>): set<VReg> {
    set w | w in cascade && cascade[w] != 0
  }

  // Ranges on the undo stack are either settled for this session or unassigned.
  ghost predicate StackOK(t: Target, s: State) {
    && DistinctStack(s.stack)
    && (forall i :: 0 <= i < |s.stack| ==>
          s.stack[i].0 in t.vregs && (s.stack[i].0 in s.fixed || s.stack[i].0 !in s.phys))
  }

  ghost predicate StateOK(t: Target, s: State) {
    && s.phys.Keys <= s.live <= t.vregs
    && s.fixed <= t.vregs
    && s.stage.Keys == t.vregs
    && InterferenceFree(t, s.phys)
    && StackOK(t, s)
    && CascadesOK(t, s)
  }

  ghost predicate AllDone(t: Target, s: State) {
    forall w :: w in s.stage ==> s.stage[w] == RSDone
  }

  // No range is urgent: everything can be spilled.
  ghost predicate AllSpillable(t: Target) {
    forall w :: w in t.vregs ==> t.spillable(w)
  }

  // ---- frames ----

  // Registers pushed on the undo stack between s0 and s1.
  ghost predicate Pushed(s0: State, s1: State, w: VReg) {
    Recorded(s1.stack, |s0.stack|, |s1.stack|, w)
  }

  // w is on the undo stack somewhere in [from, to).
  ghost predicate Recorded(stack: seq<(VReg, PReg)>, from: nat, to: nat, w: VReg) {
    exists i :: from <= i < to && i < |stack| && stack[i].0 == w
  }

  // Stages only advance, and nothing becomes done on the way.
  ghost predicate StageStep(a: Stage, b: Stage) {
    a == b || (Rank(a) < Rank(b) && b != RSDone)
  }

  // ---- which registers a range may get, and which ranges may go away ----

  ghost predicate InOrder(t: Target, w: VReg, p: PReg, m: Assignment) {
    exists i :: 0 <= i < |t.order(w, m)| && t.order(w, m)[i].reg == p
  }

  // Some order of w names p.
  ghost predicate Ordered(t: Target, w: VReg, p: PReg) {
    exists m: Assignment :: InOrder(t, w, p, m)
  }

  // Every order of v names p, and nothing v overlaps holds or may get a register
  // that aliases it.
  ghost predicate Reserved(t: Target, phys: Assignment, v: VReg, p: PReg) {
    && t.inClass(v, p) && !t.fixedInterference(v, p)
    && (forall m: Assignment :: InOrder(t, v, p, m))
    && (forall w, q :: w != v && t.overlap(v, w) && Ordered(t, w, q) ==> !Aliases(t, p, q))
    && (forall w :: w in phys && w != v && t.overlap(v, w) ==> !Aliases(t, p, phys[w]))
  }

  ghost predicate HasReserved(t: Target, phys: Assignment, v: VReg) {
    exists p :: Reserved(t, phys, v, p)
  }

  // w has come to the stage at which it is spilled.
  ghost predicate MaySpill(t: Target, s: State, w: VReg) {
    && t.spillable(w) && w in s.stage && Rank(RSSplit) <= Rank(s.stage[w]) && s.stage[w] != RSDone
    && (t.deferredSpilling(w) ==> s.stage[w] == RSMemory)
  }

  // New registers come from the orders.
  ghost predicate FromOrders(t: Target, s0: State, s1: State) {
    forall w :: w in s1.phys ==> (w in s0.phys && s1.phys[w] == s0.phys[w]) || Ordered(t, w, s1.phys[w])
  }

  // Only ranges go away that have come to be spilled and have no register reserved.
  ghost predicate Fates(t: Target, s0: State, s1: State) {
    && FromOrders(t, s0, s1)
    && (forall w :: w in s0.live && w !in s1.live ==> MaySpill(t, s1, w) && !HasReserved(t, s0.phys, w))
  }

  lemma ReservedStays(t: Target, s0: State, s1: State, v: VReg, p: PReg)
    requires FromOrders(t, s0, s1) && Reserved(t, s0.phys, v, p)
    ensures Reserved(t, s1.phys, v, p)
  {
    hide Ordered, InOrder, Aliases;
  }

  lemma MaySpillStays(t: Target, s1: State, s2: State, w: VReg)
    requires MaySpill(t, s1, w) && w in s2.stage && StageStep(s1.stage[w], s2.stage[w])
    ensures MaySpill(t, s2, w)
  {}

  lemma FatesCompose(t: Target, s0: State, s1: State, s2: State)
    requires Fates(t, s0, s1) && Fates(t, s1, s2)
    requires forall w :: w in s1.stage ==> w in s2.stage && StageStep(s1.stage[w], s2.stage[w])
    ensures Fates(t, s0, s2)
  {
    hide Ordered, Reserved, StageStep;
    forall w | w in s0.live && w !in s2.live ensures MaySpill(t, s2, w) && !HasReserved(t, s0.phys, w) {
      if w !in s1.live {
        MaySpillStays(t, s1, s2, w);
      } else if p :| Reserved(t, s0.phys, w, p) {
        ReservedStays(t, s0, s1, w, p);
        assert false;
      }
    }
  }

  ghost predicate Progress(t: Target, s0: State, s1: State, news: seq<VReg>) {
    && (forall w :: w in s0.stage ==> w in s1.stage && StageStep(s0.stage[w], s1.stage[w]))
    && (AllSpillable(t) ==>
          && (forall w :: w in s0.cascade ==> w in s1.cascade && s0.cascade[w] <= s1.cascade[w])
          && (forall w :: w in news && w in s0.phys ==>
                w in s0.cascade && w in s1.cascade && s0.cascade[w] < s1.cascade[w]))
    && (AllDone(t, s0) ==> news == [] && s1.live == s0.live)
  }

  // Every entry pushed records the assignment the range had in s0, and that
  // range was not fixed and is not handed back.
  ghost predicate PushedOK(s0: State, s1: State, news: seq<VReg>) {
    && s0.stack <= s1.stack
    && (forall i :: |s0.stack| <= i < |s1.stack| ==>
          && s1.stack[i].0 in s0.phys && s0.phys[s1.stack[i].0] == s1.stack[i].1
          && s1.stack[i].0 !in s0.fixed && s1.stack[i].0 !in news)
  }

  // Ranges handed back to the caller are live and unassigned, each listed once.
  ghost predicate NewsOK(s0: State, s1: State, touched: set<VReg>, news: seq<VReg>) {
    && NoDup(news)
    && (forall w :: w in news ==> w in s1.live && w !in s1.phys && (w in s0.phys || w in touched))
  }

  // Who is assigned afterwards: everyone who was, except ranges handed back or
  // spilled; nobody else except touched ranges.
  ghost predicate KeysOK(s0: State, s1: State, touched: set<VReg>, news: seq<VReg>) {
    && s1.live <= s0.live
    && (forall w :: w in s0.live && w !in s1.live ==> w in s0.phys || w in touched)
    && (forall w :: w in s0.phys && w !in news && w in s1.live ==> w in s1.phys)
    && (forall w :: w in s1.phys ==> w in s0.phys || w in touched)
  }

  // Only ranges recorded on the undo stack changed register.
  ghost predicate ValuesOK(s0: State, s1: State, touched: set<VReg>) {
    forall w :: w in s1.phys && w !in touched && !Pushed(s0, s1, w) ==> w in s0.phys && s1.phys[w] == s0.phys[w]
  }

  // Fixed ranges stay where they are; only ranges placed by the step become fixed.
  ghost predicate FixedKept(s0: State, s1: State, touched: set<VReg>) {
    && s0.fixed <= s1.fixed
    && (forall w :: w in s1.fixed ==> w in s0.fixed || w in touched || w in s0.phys)
    && (forall w :: w in s0.fixed && w in s0.phys ==> w in s1.phys && s1.phys[w] == s0.phys[w])
  }

  // touched: ranges that were unassigned in s0 and that the step was asked to place.
  // news: ranges handed back to the caller's queue.
  ghost predicate Frame(t: Target, s0: State, s1: State, touched: set<VReg>, news: seq<VReg>) {
    && StateOK(t, s1)
    && PushedOK(s0, s1, news)
    && NewsOK(s0, s1, touched, news)
    && KeysOK(s0, s1, touched, news)
    && ValuesOK(s0, s1, touched)
    && FixedKept(s0, s1, touched)
    && Progress(t, s0, s1, news)
    && Fates(t, s0, s1)
  }

  lemma IsFrame(t: Target, s0: State, s1: State, touched: set<VReg>, news: seq<VReg>)
    requires StateOK(t, s1) && PushedOK(s0, s1, news) && NewsOK(s0, s1, touched, news) && Progress(t, s0, s1, news)
    requires KeysOK(s0, s1, touched, news) && ValuesOK(s0, s1, touched) && FixedKept(s0, s1, touched)
    requires Fates(t, s0, s1)
    ensures Frame(t, s0, s1, touched, news)
  {
    hide StateOK, PushedOK, NewsOK, KeysOK, ValuesOK, FixedKept, Progress, Fates;
  }

  lemma FrameParts(t: Target, s0: State, s1: State, touched: set<VReg>, news: seq<VReg>)
    requires Frame(t, s0, s1, touched, news)
    ensures StateOK(t, s1) && PushedOK(s0, s1, news) && NewsOK(s0, s1, touched, news) && Progress(t, s0, s1, news)
    ensures KeysOK(s0, s1, touched, news) && ValuesOK(s0, s1, touched) && FixedKept(s0, s1, touched)
    ensures Fates(t, s0, s1) && forall w :: w in s0.stage ==> w in s1.stage && StageStep(s0.stage[w], s1.stage[w])
    ensures StackOK(t, s1) && DistinctStack(s1.stack) && s1.stage.Keys == s1.cascade.Keys == t.vregs
    ensures s0.stack <= s1.stack && forall w :: w in s1.phys ==> w in s0.phys || w in touched
  {}

  lemma StateParts(t: Target, s: State)
    requires StateOK(t, s)
    ensures s.stage.Keys == s.cascade.Keys == t.vregs
  {}

  lemma FrameRefl(t: Target, s: State, touched: set<VReg>)
    requires StateOK(t, s)
    ensures Frame(t, s, s, touched, [])
  {}

  lemma FrameWeaken(t: Target, s0: State, s1: State, a: set<VReg>, b: set<VReg>, news: seq<VReg>)
    requires Frame(t, s0, s1, a, news) && a <= b
    ensures Frame(t, s0, s1, b, news)
  {}

  lemma ProgressCompose(t: Target, s0: State, s1: State, s2: State, b: set<VReg>,
                        n1: seq<VReg>, n2: seq<VReg>)
    requires Progress(t, s0, s1, n1) && Progress(t, s1, s2, n2)
    requires forall w :: w in n2 ==> w in s1.phys || w in b
    requires forall w :: w in b ==> w !in s0.phys
    requires AllDone(t, s0) ==> AllDone(t, s1)
    requires s0.cascade.Keys == s1.cascade.Keys
    ensures Progress(t, s0, s2, n1 + n2)
  {
    forall w | w in s0.stage ensures w in s2.stage && StageStep(s0.stage[w], s2.stage[w]) {
      assert StageStep(s0.stage[w], s1.stage[w]);
      assert StageStep(s1.stage[w], s2.stage[w]);
    }
  }

  lemma AllDoneStays(t: Target, s0: State, s1: State, news: seq<VReg>)
    requires Progress(t, s0, s1, news) && AllDone(t, s0) && s1.stage.Keys == s0.stage.Keys
    ensures AllDone(t, s1)
  {
    forall w | w in s1.stage ensures s1.stage[w] == RSDone {
      assert StageStep(s0.stage[w], s1.stage[w]);
    }
  }

  lemma PushedSplit(s0: State, s1: State, s2: State, w: VReg)
    requires s0.stack <= s1.stack <= s2.stack
    ensures Pushed(s0, s2, w) <==> Pushed(s0, s1, w) || Pushed(s1, s2, w)
  {
    if Pushed(s0, s2, w) {
      var i :| |s0.stack| <= i < |s2.stack| && s2.stack[i].0 == w;
      if i < |s1.stack| { assert s1.stack[i] == s2.stack[i]; assert Pushed(s0, s1, w); }
      else { assert Pushed(s1, s2, w); }
    }
    if Pushed(s0, s1, w) {
      var i :| |s0.stack| <= i < |s1.stack| && s1.stack[i].0 == w;
      assert s2.stack[i] == s1.stack[i];
    }
  }

  // The entries two consecutive steps push together.
  lemma PushedCompose(t: Target, s0: State, s1: State, s2: State, a: set<VReg>, b: set<VReg>,
                      n1: seq<VReg>, n2: seq<VReg>)
    requires StackOK(t, s1) && DistinctStack(s2.stack)
    requires PushedOK(s0, s1, n1) && PushedOK(s1, s2, n2)
    requires NewsOK(s0, s1, a, n1) && NewsOK(s1, s2, b, n2)
    requires KeysOK(s0, s1, a, n1) && ValuesOK(s0, s1, a) && FixedKept(s0, s1, a) && FixedKept(s1, s2, b)
    requires forall w :: w in b ==> w !in s0.phys
    requires forall w :: w in a && w in s1.phys ==> w in s1.fixed
    ensures PushedOK(s0, s2, n1 + n2)
  {
    forall i | |s0.stack| <= i < |s2.stack|
      ensures && s2.stack[i].0 in s0.phys && s0.phys[s2.stack[i].0] == s2.stack[i].1
              && s2.stack[i].0 !in s0.fixed && s2.stack[i].0 !in n1 + n2
    {
      var w := s2.stack[i].0;
      if i < |s1.stack| {
        assert s1.stack[i] == s2.stack[i];
        assert w in s1.fixed || w !in s1.phys;
      } else {
        assert w in s1.phys && w !in s1.fixed;
        NotPushedBefore(s0, s1, s2, i);
      }
    }
  }

  lemma NotPushedBefore(s0: State, s1: State, s2: State, i: nat)
    requires s0.stack <= s1.stack <= s2.stack && DistinctStack(s2.stack)
    requires |s1.stack| <= i < |s2.stack|
    ensures !Pushed(s0, s1, s2.stack[i].0)
  {
    forall j | |s0.stack| <= j < |s1.stack| ensures s1.stack[j].0 != s2.stack[i].0 {
      assert s2.stack[j] == s1.stack[j];
    }
  }

  lemma NewsCompose(s0: State, s1: State, s2: State, a: set<VReg>, b: set<VReg>, n1: seq<VReg>, n2: seq<VReg>)
    requires NewsOK(s0, s1, a, n1) && NewsOK(s1, s2, b, n2)
    requires KeysOK(s0, s1, a, n1) && KeysOK(s1, s2, b, n2)
    requires forall w :: w in b ==> w !in s0.phys && w !in a
    ensures NewsOK(s0, s2, a + b, n1 + n2)
  {
    forall w | w in n1 + n2 ensures w in s2.live && w !in s2.phys && (w in s0.phys || w in a + b) {}
    forall i, j | 0 <= i < j < |n1 + n2| ensures (n1 + n2)[i] != (n1 + n2)[j] {
      if i < |n1| <= j {
        assert n1[i] in n1 && n2[j - |n1|] in n2;
      }
    }
  }

  lemma KeysCompose(s0: State, s1: State, s2: State, a: set<VReg>, b: set<VReg>, n1: seq<VReg>, n2: seq<VReg>)
    requires KeysOK(s0, s1, a, n1) && KeysOK(s1, s2, b, n2)
    ensures KeysOK(s0, s2, a + b, n1 + n2)
  {}

  lemma ValuesCompose(s0: State, s1: State, s2: State, a: set<VReg>, b: set<VReg>)
    requires s0.stack <= s1.stack <= s2.stack
    requires ValuesOK(s0, s1, a) && ValuesOK(s1, s2, b)
    ensures ValuesOK(s0, s2, a + b)
  {
    forall w | w in s2.phys && w !in a + b && !Pushed(s0, s2, w)
      ensures w in s0.phys && s2.phys[w] == s0.phys[w]
    {
      PushedSplit(s0, s1, s2, w);
    }
  }

  lemma FrameCompose(t: Target, s0: State, s1: State, s2: State, a: set<VReg>, b: set<VReg>,
                     n1: seq<VReg>, n2: seq<VReg>)
    requires StateOK(t, s0) && Frame(t, s0, s1, a, n1) && Frame(t, s1, s2, b, n2)
    requires forall w :: w in b ==> w !in s0.phys && w !in a
    requires forall w :: w in a && w in s1.phys ==> w in s1.fixed
    ensures Frame(t, s0, s2, a + b, n1 + n2)
  {
    hide *;
    FrameParts(t, s0, s1, a, n1);
    FrameParts(t, s1, s2, b, n2);
    StateParts(t, s0);
    PushedCompose(t, s0, s1, s2, a, b, n1, n2);
    NewsCompose(s0, s1, s2, a, b, n1, n2);
    FixedCompose(s0, s1, s2, a, b);
    KeysCompose(s0, s1, s2, a, b, n1, n2);
    ValuesCompose(s0, s1, s2, a, b);
    if AllDone(t, s0) { AllDoneStays(t, s0, s1, n1); }
    NewsFrom(s1, s2, b, n2);
    ProgressCompose(t, s0, s1, s2, b, n1, n2);
    FatesCompose(t, s0, s1, s2);
    IsFrame(t, s0, s2, a + b, n1 + n2);
  }

  lemma FixedCompose(s0: State, s1: State, s2: State, a: set<VReg>, b: set<VReg>)
    requires FixedKept(s0, s1, a) && FixedKept(s1, s2, b)
    requires forall w :: w in s1.phys ==> w in s0.phys || w in a
    ensures FixedKept(s0, s2, a + b)
  {}

  lemma NewsFrom(s1: State, s2: State, b: set<VReg>, news: seq<VReg>)
    requires NewsOK(s1, s2, b, news)
    ensures forall w :: w in news ==> w in s1.phys || w in b
  {}

  // s with range x settled in register p.
  function Place(s: State, x: VReg, p: PReg): State {
    s.(phys := s.phys[x := p], fixed := s.fixed + {x})
  }

  lemma PlaceStateOK(t: Target, s: State, x: VReg, p: PReg)
    requires WellFormed(t) && StateOK(t, s) && x in s.live && x !in s.phys && FreeFor(t, s.phys, x, p)
    ensures StateOK(t, Place(s, x, p))
  {
    AssignKeepsFree(t, s.phys, x, p);
  }

  lemma PlaceValues(s0: State, s1: State, a: set<VReg>, x: VReg, p: PReg)
    requires ValuesOK(s0, s1, a) && x in a
    ensures ValuesOK(s0, Place(s1, x, p), a)
  {
    forall w | w in Place(s1, x, p).phys && w !in a && !Pushed(s0, Place(s1, x, p), w)
      ensures w in s0.phys && Place(s1, x, p).phys[w] == s0.phys[w]
    {
      assert !Pushed(s0, s1, w);
    }
  }

  lemma PlaceKeys(s0: State, s1: State, a: set<VReg>, news: seq<VReg>, x: VReg, p: PReg)
    requires KeysOK(s0, s1, a, news) && NewsOK(s0, s1, a, news) && PushedOK(s0, s1, news) && FixedKept(s0, s1, a)
    requires x in a && x !in news && x !in s0.phys
    ensures KeysOK(s0, Place(s1, x, p), a, news) && NewsOK(s0, Place(s1, x, p), a, news)
    ensures PushedOK(s0, Place(s1, x, p), news) && FixedKept(s0, Place(s1, x, p), a)
  {}

  lemma PlaceFates(t: Target, s0: State, s1: State, x: VReg, p: PReg)
    requires Fates(t, s0, s1) && Ordered(t, x, p)
    ensures Fates(t, s0, Place(s1, x, p))
  {
    hide Ordered, HasReserved;
  }

  // A range the step was asked to place is given the register found for it.
  lemma FramePlace(t: Target, s0: State, s1: State, a: set<VReg>, news: seq<VReg>, x: VReg, p: PReg)
    requires WellFormed(t) && Frame(t, s0, s1, a, news) && Ordered(t, x, p)
    requires x in a && x !in s0.phys && x !in s1.phys && x in s1.live && x !in news && FreeFor(t, s1.phys, x, p)
    ensures Frame(t, s0, Place(s1, x, p), a, news)
  {
    PlaceFates(t, s0, s1, x, p);
    assert StateOK(t, Place(s1, x, p)) by { PlaceStateOK(t, s1, x, p); }
    PlaceValues(s0, s1, a, x, p);
    PlaceKeys(s0, s1, a, news, x, p);
    assert Progress(t, s0, Place(s1, x, p), news);
  }

  // ---- one round of last-chance recoloring ----

  // s1 is s0 with the candidates c pushed and unassigned, and v tried in p.
  ghost predicate RoundShape(s0: State, s1: State, v: VReg, p: PReg, c: set<VReg>) {
    && v in s0.fixed && v in s0.live && v !in s0.phys && v !in c && c <= s0.phys.Keys
    && s1.phys == (s0.phys - c)[v := p]
    && s1.fixed == s0.fixed && s1.live == s0.live && s1.cascade == s0.cascade
    && PushedOK(s0, s1, [])
    && (forall w :: w in c <==> Pushed(s0, s1, w))
  }

  ghost predicate RoundStart(t: Target, s0: State, s1: State, v: VReg, p: PReg, c: set<VReg>) {
    && StateOK(t, s0) && StateOK(t, s1)
    && RoundShape(s0, s1, v, p, c)
    && Progress(t, s0, s1, [])
    && Fates(t, s0, s1)
  }

  // Exactly the ranges c were recorded above base, once each, with their registers.
  ghost predicate Logged(base: seq<(VReg, PReg)>, stack: seq<(VReg, PReg)>, phys: Assignment, c: set<VReg>) {
    && base <= stack && (forall w :: w in c <==> Recorded(stack, |base|, |stack|, w))
    && (forall i :: |base| <= i < |stack| ==> stack[i].0 in phys && stack[i].1 == phys[stack[i].0])
    && (forall i, j :: |base| <= i < j < |stack| ==> stack[i].0 != stack[j].0)
  }

  lemma LogOne(base: seq<(VReg, PReg)>, stack: seq<(VReg, PReg)>, phys: Assignment, c: set<VReg>, w: VReg)
    requires Logged(base, stack, phys, c) && w in phys && w !in c
    ensures Logged(base, stack + [(w, phys[w])], phys, c + {w})
  {
    var more := stack + [(w, phys[w])];
    forall i | |base| <= i < |stack| ensures stack[i].0 != w {
      assert Recorded(stack, |base|, |stack|, stack[i].0);
    }
    forall x ensures Recorded(more, |base|, |more|, x) <==> Recorded(stack, |base|, |stack|, x) || x == w {
      if Recorded(stack, |base|, |stack|, x) {
        var i :| |base| <= i < |stack| && stack[i].0 == x;
        assert more[i].0 == x;
      }
      assert more[|stack|].0 == w;
    }
    hide Recorded;
  }

  // Trying v in p once the candidates gave way is a well-formed state.
  lemma RoundBegins(t: Target, s0: State, s1: State, v: VReg, p: PReg, c: set<VReg>)
    requires WellFormed(t) && StateOK(t, s0) && v in s0.fixed && v in s0.live && v !in s0.phys && Ordered(t, v, p)
    requires t.inClass(v, p) && !t.fixedInterference(v, p) && c == Conflicts(t, s0.phys, v, p) && c !! s0.fixed
    requires s1 == s0.(phys := (s0.phys - c)[v := p], stack := s1.stack, stage := s1.stage)
    requires Logged(s0.stack, s1.stack, s0.phys, c)
    requires s1.stage.Keys == s0.stage.Keys && forall w :: w in s1.stage ==> StageStep(s0.stage[w], s1.stage[w])
    ensures RoundStart(t, s0, s1, v, p, c)
  {
    TriedFree(t, s0.phys, v, p, c);
    PushedStackOK(t, s0, s1, v, p, c);
    TriedFates(t, s0, s1, v, p, c);
    ConflictsKnown(t, s0.phys, v, p);
    hide InterferenceFree, StackOK, Conflicts, WellFormed, StageStep, Numbered, Fates, Ordered;
    LoggedPushed(s0, s1, c);
    hide Logged, PushedOK;
  }

  lemma TriedFates(t: Target, s0: State, s1: State, v: VReg, p: PReg, c: set<VReg>)
    requires s1.phys == (s0.phys - c)[v := p] && s1.live == s0.live && Ordered(t, v, p)
    ensures Fates(t, s0, s1)
  {
    hide Ordered;
  }

  // Taking registers back makes nobody go away.
  lemma FatesShrunk(t: Target, s0: State, s2: State, s3: State)
    requires Fates(t, s0, s2) && s3.live == s2.live && s3.stage == s2.stage
    requires forall w :: w in s3.phys ==>
               (w in s2.phys && s3.phys[w] == s2.phys[w]) || (w in s0.phys && s3.phys[w] == s0.phys[w])
    ensures Fates(t, s0, s3)
  {
    hide Ordered, HasReserved;
  }

  // With everything in its way gone, v fits p.
  lemma TriedFree(t: Target, phys: Assignment, v: VReg, p: PReg, c: set<VReg>)
    requires WellFormed(t) && InterferenceFree(t, phys) && v !in phys
    requires t.inClass(v, p) && !t.fixedInterference(v, p) && c == Conflicts(t, phys, v, p)
    ensures InterferenceFree(t, (phys - c)[v := p])
  {
    SubAssignmentFree(t, phys, phys - c);
    assert FreeFor(t, phys - c, v, p) by {
      assert forall w :: w in Conflicts(t, phys - c, v, p) ==> w in c;
    }
    hide InterferenceFree, WellFormed;
    AssignKeepsFree(t, phys - c, v, p);
  }

  lemma LoggedPushed(s0: State, s1: State, c: set<VReg>)
    requires Logged(s0.stack, s1.stack, s0.phys, c) && c !! s0.fixed
    ensures PushedOK(s0, s1, []) && forall w :: w in c <==> Pushed(s0, s1, w)
  {
    forall i | |s0.stack| <= i < |s1.stack| ensures s1.stack[i].0 in c {
      assert Recorded(s1.stack, |s0.stack|, |s1.stack|, s1.stack[i].0);
    }
  }

  lemma PushedStackOK(t: Target, s0: State, s1: State, v: VReg, p: PReg, c: set<VReg>)
    requires StackOK(t, s0) && c <= s0.phys.Keys <= t.vregs && c !! s0.fixed && v in s0.fixed && v !in c
    requires s1.phys == (s0.phys - c)[v := p] && s1.fixed == s0.fixed && s0.stack <= s1.stack
    requires forall i :: |s0.stack| <= i < |s1.stack| ==> s1.stack[i].0 in c
    requires forall i, j :: |s0.stack| <= i < j < |s1.stack| ==> s1.stack[i].0 != s1.stack[j].0
    ensures StackOK(t, s1)
  {
    forall i | 0 <= i < |s0.stack| ensures s1.stack[i] == s0.stack[i] && s1.stack[i].0 !in c {}
    forall i, j | 0 <= i < j < |s1.stack| ensures s1.stack[i].0 != s1.stack[j].0 {
      if j < |s0.stack| {
        assert s1.stack[i] == s0.stack[i] && s1.stack[j] == s0.stack[j];
      }
    }
  }

  // What the recoloring of the candidates may rely on.
  lemma RoundQueue(t: Target, s0: State, s1: State, v: VReg, p: PReg, c: set<VReg>)
    requires RoundStart(t, s0, s1, v, p, c)
    ensures StateOK(t, s1) && c <= s1.live && c !! s1.phys.Keys && c !! s1.fixed && s1.fixed == s0.fixed
  {
    CandidatesNotFixed(s0, s1, v, p, c);
  }

  // v kept the register it was tried in, and the stack only grew.
  lemma RoundKeeps(t: Target, s0: State, s1: State, s2: State, v: VReg, p: PReg, c: set<VReg>, news: seq<VReg>)
    requires RoundStart(t, s0, s1, v, p, c) && Frame(t, s1, s2, c, news)
    ensures v in s2.phys && s2.phys[v] == p && v in s2.live
    ensures s0.stack <= s2.stack && DistinctStack(s2.stack) && NoDup(news)
  {}

  lemma SubAssignmentFree(t: Target, big: Assignment, small: Assignment)
    requires InterferenceFree(t, big)
    requires forall w :: w in small ==> w in big && small[w] == big[w]
    ensures InterferenceFree(t, small)
  {}

  lemma RoundProgress(t: Target, s0: State, s1: State, s2: State, v: VReg, p: PReg, c: set<VReg>,
                      news: seq<VReg>, kept: seq<VReg>)
    requires RoundShape(s0, s1, v, p, c) && Progress(t, s0, s1, []) && Progress(t, s1, s2, news)
    requires s1.stage.Keys == s0.stage.Keys
    requires forall w :: w in kept ==> w in news && w !in c
    requires |kept| <= |news|
    ensures Progress(t, s0, s2, kept)
  {
    if AllDone(t, s0) { AllDoneStays(t, s0, s1, []); }
    forall w | w in s0.stage ensures w in s2.stage && StageStep(s0.stage[w], s2.stage[w]) {
      assert StageStep(s0.stage[w], s1.stage[w]);
      assert StageStep(s1.stage[w], s2.stage[w]);
    }
    assert forall w :: w in kept && w in s0.phys ==> w in s1.phys;
  }

  // All candidates found a new register: v gives up p again, and p stays free for it.
  lemma RoundSuccess(t: Target, s0: State, s1: State, s2: State, s3: State, v: VReg, p: PReg,
                     c: set<VReg>, news: seq<VReg>)
    requires WellFormed(t) && RoundStart(t, s0, s1, v, p, c) && Frame(t, s1, s2, c, news)
    requires forall w :: w in c && w in s2.live ==> w in s2.phys
    requires s3 == s2.(phys := s2.phys - {v})
    ensures Frame(t, s0, s3, {}, news)
    ensures v in s3.live && v !in s3.phys && FreeFor(t, s3.phys, v, p)
    ensures forall w :: w in c ==> w !in news
  {
    hide *;
    RoundParts(t, s0, s1, s2, v, p, c, news);
    NewsUnassigned(s1, s2, c, news);
    StillFree(t, s2.phys, v);
    UnassignStateOK(t, s2, v);
    RoundProgress(t, s0, s1, s2, v, p, c, news, news);
    ProgressUnassigned(t, s0, s2, v, news);
    RoundPushed(s0, s1, s2, v, p, c, news);
    PushedUnassigned(s0, s2, v, news);
    RoundSuccessFrame(s0, s1, s2, s3, v, p, c, news);
    FatesCompose(t, s0, s1, s2);
    FatesShrunk(t, s0, s2, s3);
    IsFrame(t, s0, s3, {}, news);
  }

  lemma NewsUnassigned(s1: State, s2: State, c: set<VReg>, news: seq<VReg>)
    requires NewsOK(s1, s2, c, news) && forall w :: w in c && w in s2.live ==> w in s2.phys
    ensures forall w :: w in news ==> w !in c
  {}

  lemma ProgressUnassigned(t: Target, s0: State, s2: State, v: VReg, news: seq<VReg>)
    requires Progress(t, s0, s2, news)
    ensures Progress(t, s0, s2.(phys := s2.phys - {v}), news)
  {
    hide AllSpillable, AllDone;
  }

  lemma PushedUnassigned(s0: State, s2: State, v: VReg, news: seq<VReg>)
    requires PushedOK(s0, s2, news)
    ensures PushedOK(s0, s2.(phys := s2.phys - {v}), news)
  {}

  // Giving up a register leaves it free for the range that held it.
  lemma StillFree(t: Target, phys: Assignment, v: VReg)
    requires InterferenceFree(t, phys) && v in phys
    ensures FreeFor(t, phys - {v}, v, phys[v])
  {
    forall w | w in phys - {v} ensures w !in Conflicts(t, phys - {v}, v, phys[v]) {
      if t.overlap(v, w) { assert !Aliases(t, phys[v], phys[w]); }
    }
  }

  lemma UnassignStateOK(t: Target, s: State, v: VReg)
    requires StateOK(t, s)
    ensures StateOK(t, s.(phys := s.phys - {v}))
  {
    SubAssignmentFree(t, s.phys, s.phys - {v});
  }

  lemma RoundSuccessFrame(s0: State, s1: State, s2: State, s3: State, v: VReg, p: PReg, c: set<VReg>, news: seq<VReg>)
    requires RoundShape(s0, s1, v, p, c) && s1.stack <= s2.stack && s2.phys.Keys <= s2.live
    requires NewsOK(s1, s2, c, news) && KeysOK(s1, s2, c, news) && ValuesOK(s1, s2, c) && FixedKept(s1, s2, c)
    requires forall w :: w in c && w in s2.live ==> w in s2.phys
    requires s3 == s2.(phys := s2.phys - {v})
    ensures NewsOK(s0, s3, {}, news) && KeysOK(s0, s3, {}, news) && ValuesOK(s0, s3, {}) && FixedKept(s0, s3, {})
  {
    RoundValues(s0, s1, s2, v, p, c);
    assert forall w :: Pushed(s0, s3, w) <==> Pushed(s0, s2, w);
    CandidatesNotFixed(s0, s1, v, p, c);
  }

  lemma CandidatesNotFixed(s0: State, s1: State, v: VReg, p: PReg, c: set<VReg>)
    requires RoundShape(s0, s1, v, p, c)
    ensures forall w :: w in c ==> w !in s0.fixed
  {
    forall w | w in c ensures w !in s0.fixed {
      assert Pushed(s0, s1, w);
      var i :| |s0.stack| <= i < |s1.stack| && s1.stack[i].0 == w;
    }
  }

  lemma RoundPushed(s0: State, s1: State, s2: State, v: VReg, p: PReg, c: set<VReg>, news: seq<VReg>)
    requires RoundShape(s0, s1, v, p, c) && PushedOK(s1, s2, news)
    requires forall w :: w in news ==> w !in c
    ensures PushedOK(s0, s2, news)
  {
    forall i | |s0.stack| <= i < |s2.stack|
      ensures s2.stack[i].0 in s0.phys && s0.phys[s2.stack[i].0] == s2.stack[i].1
              && s2.stack[i].0 !in s0.fixed && s2.stack[i].0 !in news
    {
      if i < |s1.stack| {
        assert s1.stack[i] == s2.stack[i];
        assert Pushed(s0, s1, s1.stack[i].0);
      } else {
        assert s2.stack[i].0 != v;
      }
    }
  }

  lemma RoundValues(s0: State, s1: State, s2: State, v: VReg, p: PReg, c: set<VReg>)
    requires RoundShape(s0, s1, v, p, c) && s1.stack <= s2.stack && ValuesOK(s1, s2, c)
    ensures forall w :: w in s2.phys && w != v && !Pushed(s0, s2, w) ==> w in s0.phys && s2.phys[w] == s0.phys[w]
  {
    forall w | w in s2.phys && w != v && !Pushed(s0, s2, w) ensures w in s0.phys && s2.phys[w] == s0.phys[w] {
      PushedSplit(s0, s1, s2, w);
    }
  }

  // What the rollback loops compute: every range pushed since s0 that is still
  // live is back where the stack says, and v is unassigned.
  ghost predicate RolledBack(s0: State, s2: State, s3: State, v: VReg) {
    && (forall w :: w in s3.phys <==>
          if Pushed(s0, s2, w) then w in s2.live else w in s2.phys && w != v)
    && (forall w :: w in s3.phys && !Pushed(s0, s2, w) ==> w in s2.phys && s3.phys[w] == s2.phys[w])
    && (forall i :: |s0.stack| <= i < |s2.stack| && s2.stack[i].0 in s3.phys ==>
          s3.phys[s2.stack[i].0] == s2.stack[i].1)
    && s3.stack == s0.stack && s3.fixed == s0.fixed
    && s3.live == s2.live && s3.cascade == s2.cascade && s3.next == s2.next && s3.stage == s2.stage
  }

  // Rollback puts back exactly what the stack recorded.
  lemma RollbackRestores(s0: State, s1: State, s2: State, s3: State, v: VReg, p: PReg,
                         c: set<VReg>, news: seq<VReg>)
    requires RoundShape(s0, s1, v, p, c) && PushedOK(s1, s2, news) && ValuesOK(s1, s2, c)
    requires RolledBack(s0, s2, s3, v)
    ensures forall w :: w in s3.phys ==> w in s0.phys && s3.phys[w] == s0.phys[w]
  {
    forall w | w in s3.phys ensures w in s0.phys && s3.phys[w] == s0.phys[w] {
      PushedSplit(s0, s1, s2, w);
      if Pushed(s0, s1, w) {
        var i :| |s0.stack| <= i < |s1.stack| && s1.stack[i].0 == w;
        assert s2.stack[i] == s1.stack[i];
      } else if Pushed(s1, s2, w) {
        var i :| |s1.stack| <= i < |s2.stack| && s2.stack[i].0 == w;
      }
    }
  }

  lemma RollbackKeys(s0: State, s1: State, s2: State, s3: State, v: VReg, p: PReg,
                     c: set<VReg>, news: seq<VReg>, kept: seq<VReg>)
    requires RoundShape(s0, s1, v, p, c) && PushedOK(s1, s2, news) && FixedKept(s1, s2, c)
    requires NewsOK(s1, s2, c, news) && KeysOK(s1, s2, c, news) && s2.phys.Keys <= s2.live
    requires RolledBack(s0, s2, s3, v)
    requires NoDup(kept) && (forall w :: w in kept <==> w in news && w !in c)
    requires forall w :: w in s3.phys ==> w in s0.phys
    ensures KeysOK(s0, s3, {}, kept) && NewsOK(s0, s3, {}, kept)
  {
    forall w | w in kept ensures w in s3.live && w !in s3.phys && w in s0.phys {
      PushedSplit(s0, s1, s2, w);
      assert !Pushed(s1, s2, w);
    }
    forall w | w in s0.phys && w !in kept && w in s3.live ensures w in s3.phys {
      PushedSplit(s0, s1, s2, w);
    }
  }

  lemma RollbackFrame(s0: State, s1: State, s2: State, s3: State, v: VReg, p: PReg,
                      c: set<VReg>, news: seq<VReg>, kept: seq<VReg>)
    requires RoundShape(s0, s1, v, p, c) && RolledBack(s0, s2, s3, v) && s2.phys.Keys <= s2.live
    requires PushedOK(s1, s2, news) && FixedKept(s1, s2, c) && ValuesOK(s1, s2, c)
    requires NewsOK(s1, s2, c, news) && KeysOK(s1, s2, c, news)
    requires NoDup(kept) && (forall w :: w in kept <==> w in news && w !in c)
    ensures forall w :: w in s3.phys ==> w in s0.phys && w in s3.live && s3.phys[w] == s0.phys[w]
    ensures PushedOK(s0, s3, kept) && FixedKept(s0, s3, {}) && ValuesOK(s0, s3, {})
    ensures NewsOK(s0, s3, {}, kept) && KeysOK(s0, s3, {}, kept)
  {
    RollbackRestores(s0, s1, s2, s3, v, p, c, news);
    RollbackKeys(s0, s1, s2, s3, v, p, c, news, kept);
    RollbackFixed(s0, s1, s2, s3, v, p, c, news);
  }

  lemma CandidatesBack(s0: State, s3: State, c: set<VReg>, kept: seq<VReg>)
    requires KeysOK(s0, s3, {}, kept) && c <= s0.phys.Keys && forall w :: w in c ==> w !in kept
    requires forall w :: w in s3.phys ==> w in s0.phys && s3.phys[w] == s0.phys[w]
    ensures forall w :: w in c && w in s3.live ==> w in s3.phys && w in s0.phys && s3.phys[w] == s0.phys[w]
  {
  }

  // The recoloring failed: rollback restores the assignment of every range that
  // is still live and was not evicted.
  lemma RoundRollback(t: Target, s0: State, s1: State, s2: State, s3: State, v: VReg, p: PReg,
                      c: set<VReg>, news: seq<VReg>, kept: seq<VReg>)
    requires RoundStart(t, s0, s1, v, p, c) && Frame(t, s1, s2, c, news)
    requires RolledBack(s0, s2, s3, v)
    requires NoDup(kept) && |kept| <= |news|
    requires forall w :: w in kept <==> w in news && w !in c
    ensures Frame(t, s0, s3, {}, kept)
    ensures v in s3.live && v !in s3.phys
    ensures forall w :: w in c && w in s3.live ==> w in s3.phys && w in s0.phys && s3.phys[w] == s0.phys[w]
  {
    hide *;
    RoundParts(t, s0, s1, s2, v, p, c, news);
    VReleased(s0, s2, s3, v);
    RollbackFrame(s0, s1, s2, s3, v, p, c, news, kept);
    CandidatesBack(s0, s3, c, kept);
    RestoredStateOK(t, s0, s2, s3, v);
    RoundProgress(t, s0, s1, s2, v, p, c, news, kept);
    ProgressRolledBack(t, s0, s2, s3, v, kept);
    FatesCompose(t, s0, s1, s2);
    RolledBackKeeps(s0, s2, s3, v);
    FatesShrunk(t, s0, s2, s3);
    IsFrame(t, s0, s3, {}, kept);
  }

  // What a round knows once the recoloring of its candidates returns.
  lemma RoundParts(t: Target, s0: State, s1: State, s2: State, v: VReg, p: PReg, c: set<VReg>, news: seq<VReg>)
    requires RoundStart(t, s0, s1, v, p, c) && Frame(t, s1, s2, c, news)
    ensures StateOK(t, s0) && StateOK(t, s1) && StateOK(t, s2) && RoundShape(s0, s1, v, p, c)
    ensures PushedOK(s1, s2, news) && NewsOK(s1, s2, c, news) && KeysOK(s1, s2, c, news)
    ensures ValuesOK(s1, s2, c) && FixedKept(s1, s2, c) && Progress(t, s0, s1, []) && Progress(t, s1, s2, news)
    ensures s1.stage.Keys == s0.stage.Keys && s2.phys.Keys <= s2.live && c <= s0.phys.Keys && s1.stack <= s2.stack
    ensures v in s2.phys && s2.phys[v] == p && v !in s0.phys && InterferenceFree(t, s2.phys)
    ensures Fates(t, s0, s1) && Fates(t, s1, s2)
    ensures forall w :: w in s1.stage ==> w in s2.stage && StageStep(s1.stage[w], s2.stage[w])
  {
    hide Fates;
  }

  lemma RolledBackKeeps(s0: State, s2: State, s3: State, v: VReg)
    requires RolledBack(s0, s2, s3, v)
    ensures s3.live == s2.live && s3.stage == s2.stage
  {}

  lemma VReleased(s0: State, s2: State, s3: State, v: VReg)
    requires RolledBack(s0, s2, s3, v) && v in s2.phys && s2.phys.Keys <= s2.live
    ensures v in s3.live
  {
    hide Pushed;
  }

  lemma ProgressRolledBack(t: Target, s0: State, s2: State, s3: State, v: VReg, kept: seq<VReg>)
    requires Progress(t, s0, s2, kept) && RolledBack(s0, s2, s3, v)
    ensures Progress(t, s0, s3, kept)
  {
    hide AllSpillable, AllDone, Pushed;
  }

  lemma RestoredStateOK(t: Target, s0: State, s2: State, s3: State, v: VReg)
    requires StateOK(t, s0) && StateOK(t, s2) && RolledBack(s0, s2, s3, v)
    requires forall w :: w in s3.phys ==> w in s0.phys && w in s3.live && s3.phys[w] == s0.phys[w]
    ensures StateOK(t, s3)
  {
    SubAssignmentFree(t, s0.phys, s3.phys);
  }

  lemma RollbackFixed(s0: State, s1: State, s2: State, s3: State, v: VReg, p: PReg, c: set<VReg>, news: seq<VReg>)
    requires RoundShape(s0, s1, v, p, c) && PushedOK(s1, s2, news) && FixedKept(s1, s2, c) && s2.phys.Keys <= s2.live
    requires RolledBack(s0, s2, s3, v)
    requires forall w :: w in s3.phys ==> w in s0.phys && s3.phys[w] == s0.phys[w]
    ensures FixedKept(s0, s3, {})
  {
    CandidatesNotFixed(s0, s1, v, p, c);
    forall w | w in s0.fixed && w in s0.phys ensures w in s3.phys {
      PushedSplit(s0, s1, s2, w);
    }
  }
}
