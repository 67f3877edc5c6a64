// The greedy allocator: direct assignment, eviction, last-chance recoloring
// and the work list that drives them.
module Greedy {
  import opened Collections
  import opened GreedyState
  import opened GreedyFrames
  import opened Eviction
  import opened CascadeMeasure

  datatype Result = Reg(p: PReg) | NoReg | Failed

  // ---- what each operation promises ----

  // An eviction attempt: either nothing happened, or p was cleared for v and
  // exactly its interferences were handed back.
  ghost predicate EvictPost(t: Target, s0: State, s1: State, v: VReg, p: PReg, news: seq<VReg>) {
    && Frame(t, s0, s1, {}, news)
    && s1 == s0.(phys := s1.phys, cascade := s1.cascade, next := s1.next)
    && (p == 0 ==> s1 == s0 && news == [])
    && (p != 0 ==> FreeFor(t, s1.phys, v, p) && Ordered(t, v, p))
    && (p != 0 ==> forall w :: w in news <==> w in Conflicts(t, s0.phys, v, p))
  }

  // One attempt to find a register for v.
  ghost predicate SelectPost(t: Target, s0: State, s1: State, v: VReg, r: Result, news: seq<VReg>) {
    && Frame(t, s0, s1, {v}, news)
    && v !in s1.phys
    && (r.Reg? ==> r.p != 0 && v in s1.live && v !in news && FreeFor(t, s1.phys, v, r.p) && Ordered(t, v, r.p))
    && (!r.Reg? ==> s1.stack == s0.stack && s1.fixed <= s0.fixed + {v})
    && (r.Failed? ==> v in s1.live && v !in news)
    && (r.NoReg? ==> s1.phys == s0.phys && s1.fixed == s0.fixed)
    && (r.NoReg? ==> Deferred(s0, s1, v, news) || (v !in s1.live && news == []))
  }

  // v goes back to the queue at a later stage.
  ghost predicate Deferred(s0: State, s1: State, v: VReg, news: seq<VReg>) {
    && news == [v] && v in s1.live
    && v in s0.stage && v in s1.stage && Rank(s0.stage[v]) < Rank(s1.stage[v])
  }

  // The interferences of v on p that last-chance recoloring may try to move.
  predicate Recolorable(t: Target, s: State, v: VReg, p: PReg, w: VReg)
    requires w in s.phys && w in s.stage
  {
    && w !in s.fixed
    && !(s.stage[w] == RSDone && t.classOf(w) == t.classOf(v)
         && !(p != s.phys[w] && Aliases(t, p, s.phys[w]))
         && !(t.tiedDef(v) && !t.tiedDef(w)))
  }

  ghost predicate MayRecolorAll(t: Target, s: State, v: VReg, p: PReg, max: nat, exhaustive: bool)
    requires s.phys.Keys <= s.stage.Keys
  {
    && (exhaustive || forall u :: u in t.units(p) ==> |Query(t, s.phys, v, u)| < max)
    && (forall w :: w in Conflicts(t, s.phys, v, p) ==> Recolorable(t, s, v, p, w))
  }

  // Some register of v's order is free for it.
  ghost predicate HasFree(t: Target, phys: Assignment, v: VReg) {
    exists i :: 0 <= i < |t.order(v, phys)| && FreeFor(t, phys, v, t.order(v, phys)[i].reg)
  }

  // Register q is free for w, every order of w names it, and the other ranges of
  // the queue cannot take it away.
  ghost predicate Room(t: Target, phys: Assignment, w: VReg, q: PReg, queue: set<VReg>) {
    && FreeFor(t, phys, w, q) && (forall m: Assignment :: InOrder(t, w, q, m))
    && (forall u, r :: u in queue && u != w && t.overlap(w, u) && Ordered(t, u, r) ==> !Aliases(t, q, r))
  }

  ghost predicate HasRoom(t: Target, phys: Assignment, w: VReg, queue: set<VReg>) {
    exists q :: Room(t, phys, w, q, queue)
  }

  ghost predicate Roomy(t: Target, phys: Assignment, queue: set<VReg>, done: set<VReg>) {
    forall w :: w in queue && w !in done ==> HasRoom(t, phys, w, queue)
  }

  // There is nothing to recolor, or a single range that has a free register, or
  // each range of the queue has room of its own.
  ghost predicate Fits(t: Target, phys: Assignment, queue: set<VReg>) {
    queue == {} || (exists w :: queue == {w} && HasFree(t, phys, w)) || Roomy(t, phys, queue, {})
  }

  // The ranges in v's way on p fit elsewhere once v sits in p.
  ghost predicate Easy(t: Target, phys: Assignment, v: VReg, p: PReg, c: set<VReg>) {
    Fits(t, (phys - c)[v := p], c)
  }

  ghost predicate MakesRoom(t: Target, s: State, v: VReg, p: PReg, max: nat, exhaustive: bool)
    requires s.phys.Keys <= s.stage.Keys
  {
    && !t.fixedInterference(v, p) && MayRecolorAll(t, s, v, p, max, exhaustive)
    && Easy(t, s.phys, v, p, Conflicts(t, s.phys, v, p))
  }

  ghost predicate SomeMakesRoom(t: Target, s: State, v: VReg, order: seq<Candidate>, max: nat, exhaustive: bool)
    requires s.phys.Keys <= s.stage.Keys
  {
    exists c :: c in order && MakesRoom(t, s, v, c.reg, max, exhaustive)
  }

  // Not worth a round: fixed ranges, or some that may not move, are in the way.
  ghost predicate Skips(t: Target, s: State, v: VReg, p: PReg, max: nat, exhaustive: bool)
    requires s.phys.Keys <= s.stage.Keys
  {
    t.fixedInterference(v, p) || !MayRecolorAll(t, s, v, p, max, exhaustive)
  }

  // The first register of the order that is worth a round makes room.
  ghost predicate RoomFirst(t: Target, s: State, v: VReg, order: seq<Candidate>, max: nat, exhaustive: bool)
    requires s.phys.Keys <= s.stage.Keys
  {
    exists i :: 0 <= i < |order| && MakesRoom(t, s, v, order[i].reg, max, exhaustive)
                && forall j :: 0 <= j < i ==> Skips(t, s, v, order[j].reg, max, exhaustive)
  }

  // The same, or any register of the order when all ranges are done, so that
  // rounds that fail leave no trace.
  ghost predicate RoomFound(t: Target, s: State, v: VReg, order: seq<Candidate>, max: nat, exhaustive: bool) {
    s.phys.Keys <= s.stage.Keys
    && (RoomFirst(t, s, v, order, max, exhaustive)
        || (AllDone(t, s) && SomeMakesRoom(t, s, v, order, max, exhaustive)))
  }

  // Register p had its turn in state a, which left state b behind.
  ghost predicate Passed(t: Target, a: State, b: State, v: VReg, p: PReg, max: nat, exhaustive: bool) {
    && a.phys.Keys <= a.stage.Keys && !MakesRoom(t, a, v, p, max, exhaustive)
    && (Skips(t, a, v, p, max, exhaustive) ==> b == a)
  }

  // The states in which the registers of the order had their turns, one by one.
  ghost predicate Tried(t: Target, turns: seq<State>, v: VReg, order: seq<Candidate>, max: nat, exhaustive: bool) {
    && 0 < |turns| <= |order| + 1
    && forall i :: 0 <= i < |turns| - 1 ==> PassedAt(t, turns, i, v, order, max, exhaustive)
  }

  ghost predicate PassedAt(t: Target, turns: seq<State>, i: nat, v: VReg, order: seq<Candidate>, max: nat,
        exhaustive: bool)
    requires i + 1 < |turns| <= |order| + 1
  {
    Passed(t, turns[i], turns[i + 1], v, order[i].reg, max, exhaustive)
  }

  // The search for v from state s0 on, when the first n registers have had their
  // turns and the state is s.
  ghost predicate Turns(t: Target, s0: State, s: State, v: VReg, order: seq<Candidate>, turns: seq<State>, n: nat,
        max: nat, exhaustive: bool)
  {
    && Tried(t, turns, v, order, max, exhaustive) && |turns| == n + 1
    && turns[0] == s0.(fixed := s0.fixed + {v}) && turns[n] == s
  }

  lemma NobodyTried(t: Target, s: State, v: VReg, order: seq<Candidate>, max: nat, exhaustive: bool)
    ensures Turns(t, s, s.(fixed := s.fixed + {v}), v, order, [s.(fixed := s.fixed + {v})], 0, max, exhaustive)
  {}

  lemma LastTurn(t: Target, s0: State, s: State, v: VReg, order: seq<Candidate>, turns: seq<State>, n: nat, max: nat,
                 exhaustive: bool)
    requires Turns(t, s0, s, v, order, turns, n, max, exhaustive)
    ensures |turns| == n + 1 && turns[n] == s
  {}

  lemma OneTried(t: Target, s0: State, a: State, b: State, v: VReg, order: seq<Candidate>, turns: seq<State>, n: nat,
                 max: nat, exhaustive: bool)
    requires Turns(t, s0, a, v, order, turns, n, max, exhaustive) && n < |order|
    requires a.phys.Keys <= a.stage.Keys && !MakesRoom(t, a, v, order[n].reg, max, exhaustive)
    requires Skips(t, a, v, order[n].reg, max, exhaustive) ==> b == a
    ensures Turns(t, s0, b, v, order, turns + [b], n + 1, max, exhaustive)
  {
    hide MakesRoom, Skips, Tried;
    TriedOne(t, turns, b, v, order, max, exhaustive);
  }

  lemma TriedOne(t: Target, turns: seq<State>, b: State, v: VReg, order: seq<Candidate>, max: nat, exhaustive: bool)
    requires Tried(t, turns, v, order, max, exhaustive) && |turns| <= |order|
    requires Passed(t, turns[|turns| - 1], b, v, order[|turns| - 1].reg, max, exhaustive)
    ensures Tried(t, turns + [b], v, order, max, exhaustive)
  {
    hide Passed;
    var more := turns + [b];
    forall i | 0 <= i < |more| - 1 ensures PassedAt(t, more, i, v, order, max, exhaustive) {
      if i + 1 < |turns| { assert PassedAt(t, turns, i, v, order, max, exhaustive); }
    }
  }

  // While only registers not worth a round had their turns, nothing changed.
  lemma {:induction false} NothingTried(t: Target, turns: seq<State>, v: VReg, order: seq<Candidate>, max: nat,
                                        exhaustive: bool, i: nat)
    requires Tried(t, turns, v, order, max, exhaustive) && i < |turns| && turns[0].phys.Keys <= turns[0].stage.Keys
    requires forall j :: 0 <= j < i ==> Skips(t, turns[0], v, order[j].reg, max, exhaustive)
    ensures turns[i] == turns[0]
  {
    hide MakesRoom, Skips;
    if i > 0 {
      NothingTried(t, turns, v, order, max, exhaustive, i - 1);
      assert PassedAt(t, turns, i - 1, v, order, max, exhaustive);
    }
  }

  // If all registers had their turns, the first worth a round made no room.
  lemma AllTried(t: Target, s: State, turns: seq<State>, v: VReg, order: seq<Candidate>, max: nat, exhaustive: bool)
    requires s.phys.Keys <= s.stage.Keys && v !in s.phys
    requires exists now :: Turns(t, s, now, v, order, turns, |order|, max, exhaustive)
    ensures !RoomFirst(t, s, v, order, max, exhaustive)
  {
    hide MakesRoom, Skips, Tried;
    if i :| 0 <= i < |order| && MakesRoom(t, s, v, order[i].reg, max, exhaustive)
            && forall j :: 0 <= j < i ==> Skips(t, s, v, order[j].reg, max, exhaustive) {
      forall j | 0 <= j < i ensures Skips(t, turns[0], v, order[j].reg, max, exhaustive) {
        FixedSkips(t, s, v, order[j].reg, max, exhaustive);
      }
      NothingTried(t, turns, v, order, max, exhaustive, i);
      FixedRoom(t, s, v, order[i].reg, max, exhaustive);
      TurnOf(t, turns, v, order, max, exhaustive, i);
    }
  }

  lemma TurnOf(t: Target, turns: seq<State>, v: VReg, order: seq<Candidate>, max: nat, exhaustive: bool, i: nat)
    requires Tried(t, turns, v, order, max, exhaustive) && i + 1 < |turns|
    ensures turns[i].phys.Keys <= turns[i].stage.Keys && !MakesRoom(t, turns[i], v, order[i].reg, max, exhaustive)
  {
    hide MakesRoom, Skips;
    assert PassedAt(t, turns, i, v, order, max, exhaustive);
  }

  // That v itself is fixed changes nothing for it.
  lemma FixedSkips(t: Target, s: State, v: VReg, p: PReg, max: nat, exhaustive: bool)
    requires s.phys.Keys <= s.stage.Keys && Skips(t, s, v, p, max, exhaustive)
    ensures Skips(t, s.(fixed := s.fixed + {v}), v, p, max, exhaustive)
  {
    ConflictsKnown(t, s.phys, v, p);
    hide Conflicts, Query;
  }

  lemma FixedRoom(t: Target, s: State, v: VReg, p: PReg, max: nat, exhaustive: bool)
    requires s.phys.Keys <= s.stage.Keys && v !in s.phys && MakesRoom(t, s, v, p, max, exhaustive)
    ensures MakesRoom(t, s.(fixed := s.fixed + {v}), v, p, max, exhaustive)
  {
    hide Easy, MayRecolorAll;
    RecolorAllKept(t, s, s.(fixed := s.fixed + {v}), v, p, max, exhaustive);
  }

  // None of the first n registers of the order would have made room.
  ghost predicate NoRoomBefore(t: Target, s: State, v: VReg, order: seq<Candidate>, n: nat, max: nat,
        exhaustive: bool)
    requires s.phys.Keys <= s.stage.Keys
  {
    AllDone(t, s) ==> forall j :: 0 <= j < n <= |order| ==> !MakesRoom(t, s, v, order[j].reg, max, exhaustive)
  }

  lemma NoRoomYet(t: Target, s: State, v: VReg, order: seq<Candidate>, max: nat, exhaustive: bool)
    requires s.phys.Keys <= s.stage.Keys
    ensures NoRoomBefore(t, s, v, order, 0, max, exhaustive)
  {}

  lemma NoRoomNext(t: Target, s: State, v: VReg, order: seq<Candidate>, n: nat, max: nat, exhaustive: bool)
    requires s.phys.Keys <= s.stage.Keys && n < |order| && NoRoomBefore(t, s, v, order, n, max, exhaustive)
    ensures (AllDone(t, s) && MakesRoom(t, s, v, order[n].reg, max, exhaustive))
            || NoRoomBefore(t, s, v, order, n + 1, max, exhaustive)
  {
    hide MakesRoom;
  }

  lemma NoRoomAtAll(t: Target, s: State, v: VReg, order: seq<Candidate>, max: nat, exhaustive: bool)
    requires s.phys.Keys <= s.stage.Keys && NoRoomBefore(t, s, v, order, |order|, max, exhaustive) && AllDone(t, s)
    ensures !SomeMakesRoom(t, s, v, order, max, exhaustive)
  {
    hide MakesRoom;
  }

  // ---- direct assignment ----

  // order[i] is the first free register of the order.
  ghost predicate FirstFree(t: Target, phys: Assignment, v: VReg, order: seq<Candidate>, i: nat) {
    i < |order| && FreeFor(t, phys, v, order[i].reg) && forall j :: 0 <= j < i ==> !FreeFor(t, phys, v, order[j].reg)
  }

  // What is taken when c is the first free candidate: c if it is a hint, else v's
  // hint if that breaks no other, else something cheaper than c, else c.
  ghost predicate AssignChoice(t: Target, s: State, v: VReg, order: seq<Candidate>, c: Candidate, p: PReg)
    requires Known(s, v)
  {
    var hint, cost := t.simpleHint(v), t.regCost(c.reg);
    if c.hint then p == c.reg
    else if hint != 0 && Candidate(hint, true) in order && Evictable(t, s, v, hint, true, EvictionCost(1, 0.0)) then
      p == hint
    else if cost != 0 && SomeEvictable(t, s, v, order, cost) then
      exists seen: nat :: EvictChoice(t, s, v, order, cost, p, seen)
    else
      p == c.reg
  }

  // The first free register is not a hint, and v's own hint cannot be cleared.
  ghost predicate MissesHint(t: Target, s: State, v: VReg, order: seq<Candidate>)
    requires Known(s, v)
  {
    exists i :: 0 <= i < |order| && FirstFree(t, s.phys, v, order, i) && MissesHintFor(t, s, v, order, order[i])
  }

  ghost predicate MissesHintFor(t: Target, s: State, v: VReg, order: seq<Candidate>, c: Candidate)
    requires Known(s, v)
  {
    !c.hint && t.simpleHint(v) != 0 && Candidate(t.simpleHint(v), true) in order
    && !Evictable(t, s, v, t.simpleHint(v), true, EvictionCost(1, 0.0))
  }

  lemma ChoiceIs(t: Target, s: State, v: VReg, order: seq<Candidate>, i: nat)
    requires Known(s, v) && FirstFree(t, s.phys, v, order, i)
    ensures i < |order| && (MissesHint(t, s, v, order) <==> MissesHintFor(t, s, v, order, order[i]))
    ensures var hint, cost := t.simpleHint(v), t.regCost(order[i].reg);
            forall p :: AssignChoice(t, s, v, order, order[i], p) <==>
              if order[i].hint then p == order[i].reg
              else if hint != 0 && Candidate(hint, true) in order
                      && Evictable(t, s, v, hint, true, EvictionCost(1, 0.0)) then
                p == hint
              else if cost != 0 && SomeEvictable(t, s, v, order, cost) then
                exists seen: nat :: EvictChoice(t, s, v, order, cost, p, seen)
              else
                p == order[i].reg
  {
    FirstFreeIsOne(t, s.phys, v, order);
    hide FreeFor, FirstFree, Evictable, SomeEvictable, EvictChoice;
  }

  lemma FirstFreeIsOne(t: Target, phys: Assignment, v: VReg, order: seq<Candidate>)
    ensures forall i: nat, j: nat {:trigger FirstFree(t, phys, v, order, i), FirstFree(t, phys, v, order, j)} ::
              FirstFree(t, phys, v, order, i) && FirstFree(t, phys, v, order, j) ==> i == j
    ensures forall i: nat :: FirstFree(t, phys, v, order, i) ==> i < |order| && FreeFor(t, phys, v, order[i].reg)
  {
    hide FreeFor;
  }

  // A free register is taken without evicting anybody.
  lemma FreeTaken(t: Target, s: State, v: VReg, p: PReg)
    requires StateOK(t, s) && FreeFor(t, s.phys, v, p) && Ordered(t, v, p)
    ensures EvictPost(t, s, s, v, p, [])
  {
    FrameRefl(t, s, {});
    hide Frame, StateOK, Ordered;
  }

  lemma NoEviction(t: Target, s: State, v: VReg)
    requires StateOK(t, s)
    ensures EvictPost(t, s, s, v, 0, [])
    ensures v in s.live ==> Known(s, v)
  {
    FrameRefl(t, s, {});
  }

  lemma NothingEvicted(t: Target, s0: State, s1: State, v: VReg, news: seq<VReg>)
    requires EvictPost(t, s0, s1, v, 0, news)
    ensures s1 == s0 && news == []
  {
    hide Frame;
  }

  lemma ChoiceParts(t: Target, s: State, v: VReg, order: seq<Candidate>, costLimit: nat, p: PReg, seen: nat)
    requires Known(s, v) && EvictChoice(t, s, v, order, costLimit, p, seen)
    ensures p != 0 ==> Evictable(t, s, v, p, false, StartBudget(t, v, costLimit))
    ensures p != 0 ==> exists c :: c in order && c.reg == p
  {
    hide Evictable, CheapestOf, FirstTake;
  }

  lemma ClearsUnfixed(t: Target, s: State, v: VReg, p: PReg, isHint: bool, max: EvictionCost)
    requires Known(s, v) && Evictable(t, s, v, p, isHint, max)
    ensures !t.fixedInterference(v, p)
  {}

  // ---- recoloring a queue whose ranges all have room ----

  lemma FitsStays(t: Target, s0: State, s1: State, v: VReg, p: PReg, c: set<VReg>)
    requires RoundStart(t, s0, s1, v, p, c) && Easy(t, s0.phys, v, p, c)
    ensures Fits(t, s1.phys, c)
  {
    hide Fits, StateOK, Progress;
    assert s1.phys == (s0.phys - c)[v := p];
  }

  // Giving x a register takes nobody's room away, even if others lost theirs for it.
  lemma RoomStays(t: Target, phys: Assignment, more: Assignment, x: VReg, p: PReg, w: VReg, queue: set<VReg>)
    requires WellFormed(t) && Ordered(t, x, p) && x in queue && w != x && HasRoom(t, phys, w, queue)
    requires forall u :: u in more && u != x ==> u in phys && more[u] == phys[u]
    requires x in more ==> more[x] == p
    ensures HasRoom(t, more, w, queue)
  {
    hide Ordered, InOrder;
    var q :| Room(t, phys, w, q, queue);
    assert Conflicts(t, more, w, q) <= Conflicts(t, phys, w, q) by {
      assert t.overlap(w, x) ==> !Aliases(t, q, p);
    }
    assert Room(t, more, w, q, queue);
  }

  lemma RoomyStays(t: Target, phys: Assignment, more: Assignment, x: VReg, p: PReg, queue: set<VReg>, done: set<VReg>)
    requires WellFormed(t) && Ordered(t, x, p) && x in queue && Roomy(t, phys, queue, done)
    requires forall u :: u in more && u != x ==> u in phys && more[u] == phys[u]
    requires x in more ==> more[x] == p
    ensures Roomy(t, more, queue, done + {x})
  {
    forall w | w in queue && w !in done + {x} ensures HasRoom(t, more, w, queue) {
      hide HasRoom, Ordered, WellFormed;
      RoomStays(t, phys, more, x, p, w, queue);
    }
  }

  lemma RoomIsFree(t: Target, phys: Assignment, w: VReg, queue: set<VReg>)
    requires HasRoom(t, phys, w, queue)
    ensures HasFree(t, phys, w)
  {
    hide FreeFor;
    var q :| Room(t, phys, w, q, queue);
    assert InOrder(t, w, q, phys);
  }

  // A reserved register is free while its range waits for one.
  lemma ReservedIsFree(t: Target, phys: Assignment, v: VReg)
    requires v !in phys && HasReserved(t, phys, v)
    ensures HasFree(t, phys, v)
  {
    var p :| Reserved(t, phys, v, p);
    assert FreeFor(t, phys, v, p);
    hide FreeFor;
    assert InOrder(t, v, p, phys);
  }

  ghost predicate AllRecolorable(t: Target, s: State, v: VReg, p: PReg, ws: set<VReg>)
    requires s.phys.Keys <= s.stage.Keys
  {
    forall w :: w in ws ==> w in s.phys && Recolorable(t, s, v, p, w)
  }

  // None of the first n units has too many.
  ghost predicate FewOn(t: Target, phys: Assignment, v: VReg, p: PReg, max: nat, exhaustive: bool, n: nat) {
    forall j :: 0 <= j < n <= |t.units(p)| ==> exhaustive || |Query(t, phys, v, t.units(p)[j])| < max
  }

  lemma MetStart(t: Target, s: State, v: VReg, p: PReg, max: nat, exhaustive: bool)
    requires s.phys.Keys <= s.stage.Keys
    ensures MetOn(t, s.phys, v, p, 0) == {} && FewOn(t, s.phys, v, p, max, exhaustive, 0)
              && AllRecolorable(t, s, v, p, {})
  {
  }

  lemma MetStep(t: Target, phys: Assignment, v: VReg, p: PReg, max: nat, exhaustive: bool, n: nat)
    requires n < |t.units(p)| && FewOn(t, phys, v, p, max, exhaustive, n)
    requires exhaustive || |Query(t, phys, v, t.units(p)[n])| < max
    ensures MetOn(t, phys, v, p, n + 1) == MetOn(t, phys, v, p, n) + Query(t, phys, v, t.units(p)[n])
    ensures FewOn(t, phys, v, p, max, exhaustive, n + 1)
  {
    hide Query;
  }

  lemma BothRecolorable(t: Target, s: State, v: VReg, p: PReg, ws: set<VReg>, q: set<VReg>)
    requires s.phys.Keys <= s.stage.Keys && AllRecolorable(t, s, v, p, ws) && AllRecolorable(t, s, v, p, q)
    ensures AllRecolorable(t, s, v, p, ws + q)
  {
    hide Recolorable;
  }

  lemma TooManyToRecolor(t: Target, s: State, v: VReg, p: PReg, max: nat, i: nat)
    requires s.phys.Keys <= s.stage.Keys && i < |t.units(p)| && |Query(t, s.phys, v, t.units(p)[i])| >= max
    ensures !MayRecolorAll(t, s, v, p, max, false)
  {
    assert t.units(p)[i] in t.units(p);
  }

  lemma CannotRecolor(t: Target, s: State, v: VReg, p: PReg, max: nat, exhaustive: bool, i: nat, bad: VReg)
    requires s.phys.Keys <= s.stage.Keys && i < |t.units(p)| && bad in Query(t, s.phys, v, t.units(p)[i])
    requires !Recolorable(t, s, v, p, bad)
    ensures !MayRecolorAll(t, s, v, p, max, exhaustive)
  {
    ConflictOnUnit(t, s.phys, v, p, bad);
  }

  lemma CanRecolorAll(t: Target, s: State, v: VReg, p: PReg, max: nat, exhaustive: bool)
    requires s.phys.Keys <= s.stage.Keys && AllRecolorable(t, s, v, p, Conflicts(t, s.phys, v, p))
    requires FewOn(t, s.phys, v, p, max, exhaustive, |t.units(p)|)
    ensures MayRecolorAll(t, s, v, p, max, exhaustive)
  {
  }

  // ---- what selectOrSplitImpl does next ----

  // v finds a register without splitting, spilling or recoloring anything.
  ghost predicate Takes(t: Target, s: State, v: VReg)
    requires Known(s, v) && v in s.stage
  {
    HasFree(t, s.phys, v) || (s.stage[v] != RSSplit && SomeEvictable(t, s, v, t.order(v, s.phys), 255))
  }

  // No register of the order is free, but one may be cleared.
  ghost predicate Evicts(t: Target, s: State, v: VReg)
    requires Known(s, v) && v in s.stage
  {
    Takes(t, s, v) && !HasFree(t, s.phys, v)
  }

  lemma EvictsOrNot(t: Target, s: State, v: VReg, order: seq<Candidate>)
    requires Known(s, v) && v in s.stage && order == t.order(v, s.phys)
    ensures HasFree(t, s.phys, v) ==> !Evicts(t, s, v)
    ensures !HasFree(t, s.phys, v) ==> !MissesHint(t, s, v, order)
  {
    FirstFreeIsOne(t, s.phys, v, order);
    hide FreeFor, FirstFree, Takes;
  }

  // v may still be split, deferred or spilled.
  ghost predicate MovesOn(t: Target, s: State, v: VReg)
    requires v in s.stage
  {
    s.stage[v] in {RSNew, RSAssign} || (t.spillable(v) && s.stage[v] != RSDone)
  }

  ghost function MovedOn(t: Target, s: State, v: VReg): State
    requires v in s.stage
  {
    if s.stage[v] in {RSNew, RSAssign} then s.(stage := s.stage[v := RSSplit])
    else if t.deferredSpilling(v) && s.stage[v] != RSMemory then s.(stage := s.stage[v := RSMemory])
    else s.(live := s.live - {v})
  }

  // One call of selectOrSplitImpl: which of the three results v gets, and the
  // state left behind when it is split, deferred or spilled.
  ghost predicate Outcome(t: Target, s0: State, s1: State, v: VReg, r: Result, news: seq<VReg>) {
    && SelectPost(t, s0, s1, v, r, news) && Known(s0, v) && v in s0.stage
    && (Takes(t, s0, v) ==> r.Reg?)
    && (r.NoReg? <==> !Takes(t, s0, v) && MovesOn(t, s0, v))
    && (r.NoReg? ==> s1 == MovedOn(t, s0, v))
  }

  lemma TakesOutcome(t: Target, s0: State, s1: State, v: VReg, p: PReg, news: seq<VReg>)
    requires SelectPost(t, s0, s1, v, Reg(p), news) && Known(s0, v) && v in s0.stage
    requires HasFree(t, s0.phys, v)
             || (s0.stage[v] != RSSplit && SomeEvictable(t, s0, v, t.order(v, s0.phys), 255))
    ensures Outcome(t, s0, s1, v, Reg(p), news)
  {
    hide SelectPost, HasFree, SomeEvictable, MovedOn;
  }

  lemma NotTaken(t: Target, s: State, v: VReg)
    requires Known(s, v) && v in s.stage && !HasFree(t, s.phys, v)
    requires s.stage[v] != RSSplit ==> !SomeEvictable(t, s, v, t.order(v, s.phys), 255)
    ensures !Takes(t, s, v) && !Evicts(t, s, v)
  {
    hide HasFree, SomeEvictable;
  }

  lemma LastOutcome(t: Target, s0: State, s1: State, v: VReg, r: Result, news: seq<VReg>)
    requires SelectPost(t, s0, s1, v, r, news) && Known(s0, v) && v in s0.stage && !Takes(t, s0, v)
    requires (s0.stage[v] == RSDone || !t.spillable(v)) && s0.stage[v] !in {RSNew, RSAssign} && !r.NoReg?
    ensures Outcome(t, s0, s1, v, r, news)
  {
    hide SelectPost, Takes, MovedOn;
  }

  lemma MovesOutcome(t: Target, s: State, s1: State, v: VReg, news: seq<VReg>)
    requires StateOK(t, s) && v in s.live && v !in s.phys && Known(s, v) && v in s.stage && !Takes(t, s, v)
    requires if s.stage[v] in {RSNew, RSAssign} then s1 == s.(stage := s.stage[v := RSSplit]) && news == [v]
             else t.spillable(v) && s.stage[v] != RSDone
                  && if t.deferredSpilling(v) && s.stage[v] != RSMemory then
                       s1 == s.(stage := s.stage[v := RSMemory]) && news == [v]
                     else s1 == s.(live := s.live - {v}) && news == []
    ensures Outcome(t, s, s1, v, NoReg, news) && MovesOn(t, s, v)
  {
    if s.stage[v] in {RSNew, RSAssign} {
      DeferredPost(t, s, v, RSSplit);
    } else if t.deferredSpilling(v) && s.stage[v] != RSMemory {
      DeferredPost(t, s, v, RSMemory);
    } else {
      if HasReserved(t, s.phys, v) { ReservedIsFree(t, s.phys, v); }
      SpilledPost(t, s, v);
    }
    hide SelectPost, StateOK, HasFree, HasReserved, SomeEvictable;
  }

  lemma OutcomeSelects(t: Target, s0: State, s1: State, v: VReg, r: Result, news: seq<VReg>)
    requires Outcome(t, s0, s1, v, r, news)
    ensures SelectPost(t, s0, s1, v, r, news) && (HasFree(t, s0.phys, v) ==> r.Reg?)
  {
    hide SelectPost, HasFree, SomeEvictable;
  }

  lemma OrderPlaces(t: Target, v: VReg, phys: Assignment)
    requires WellFormed(t)
    ensures forall c :: c in t.order(v, phys) ==> c.reg != 0 && t.inClass(v, c.reg) && Ordered(t, v, c.reg)
  {
    forall c | c in t.order(v, phys) ensures c.reg != 0 && t.inClass(v, c.reg) && Ordered(t, v, c.reg) {
      var i :| 0 <= i < |t.order(v, phys)| && t.order(v, phys)[i] == c;
      assert InOrder(t, v, c.reg, phys);
    }
  }

  function StartState(t: Target, live: set<VReg>): State {
    State(map[], {}, [], map v | v in t.vregs :: RSNew, map v | v in t.vregs :: 0, 1, live)
  }

  lemma StartOK(t: Target, live: set<VReg>)
    requires live <= t.vregs
    ensures StateOK(t, StartState(t, live))
  {}

  // Every range is at its old stage or a later one.
  ghost predicate StagesAdvance(a: map<VReg, Stage>, b: map<VReg, Stage>) {
    a.Keys == b.Keys && forall w :: w in b ==> StageStep(a[w], b[w])
  }

  lemma AdvanceMore(a: map<VReg, Stage>, b: map<VReg, Stage>, c: map<VReg, Stage>)
    requires StagesAdvance(a, b) && StagesAdvance(b, c)
    ensures StagesAdvance(a, c) && a.Keys == c.Keys
  {
    forall w | w in c ensures StageStep(a[w], c[w]) {
      assert StageStep(a[w], b[w]) && StageStep(b[w], c[w]);
    }
  }

  // The stage of a range that has been queued.
  function Seen(s: Stage): Stage {
    if s == RSNew then RSAssign else s
  }

  // The ranges of the queue have been seen, the others are as they were.
  ghost predicate StagesSeen(a: map<VReg, Stage>, b: map<VReg, Stage>, queue: set<VReg>) {
    a.Keys == b.Keys && forall v :: v in b ==> b[v] == if v in queue then Seen(a[v]) else a[v]
  }

  lemma SeenNone(a: map<VReg, Stage>)
    ensures StagesSeen(a, a, {})
  {}

  lemma SeenOne(a: map<VReg, Stage>, b: map<VReg, Stage>, queue: set<VReg>, v: VReg)
    requires StagesSeen(a, b, queue) && v in b && v !in queue
    ensures StagesSeen(a, b[v := Seen(b[v])], queue + {v})
  {}

  lemma SeenAdvances(a: map<VReg, Stage>, b: map<VReg, Stage>, queue: set<VReg>)
    requires StagesSeen(a, b, queue)
    ensures StagesAdvance(a, b)
  {}

  class RAGreedy {
    const t: Target
    // ExhaustiveSearch, LastChanceRecoloringMaxDepth, LastChanceRecoloringMaxInterference
    const exhaustive: bool
    const maxDepth: nat
    const maxInterference: nat

    var phys: Assignment
    var fixed: set<VReg>
    var stack: seq<(VReg, PReg)>
    var stage: map<VReg, Stage>
    var cascade: map<VReg, nat>
    var next: nat
    var live: set<VReg>
    var brokenHints: set<VReg>

    // A fresh allocator: nothing assigned, fixed or numbered yet.
    constructor (t: Target, exhaustive: bool, maxDepth: nat, maxInterference: nat, live: set<VReg>)
      requires WellFormed(t) && live <= t.vregs
      ensures Valid() && this.t == t && this.exhaustive == exhaustive
      ensures this.maxDepth == maxDepth && this.maxInterference == maxInterference
      ensures phys == map[] && fixed == {} && stack == [] && brokenHints == {} && this.live == live
      ensures stage == (map v | v in t.vregs :: RSNew) && cascade == (map v | v in t.vregs :: 0) && next == 1
    {
      this.t, this.exhaustive, this.maxDepth, this.maxInterference := t, exhaustive, maxDepth, maxInterference;
      var s := StartState(t, live);
      phys, fixed, stack, stage, cascade, next := s.phys, s.fixed, s.stack, s.stage, s.cascade, s.next;
      this.live := live;
      brokenHints := {};
      StartOK(t, live);
    }

    function Snap(): State
      reads this
    {
      State(phys, fixed, stack, stage, cascade, next, live)
    }

    ghost predicate Valid()
      reads this
    {
      WellFormed(t) && StateOK(t, Snap())
    }

    // ---- LiveRegMatrix ----

    method Assign(v: VReg, p: PReg)
      requires v !in phys
      modifies `phys
      ensures phys == old(phys)[v := p]
    {
      phys := phys[v := p];
    }

    method Unassign(v: VReg)
      requires v in phys
      modifies `phys
      ensures phys == old(phys) - {v}
    {
      phys := phys - {v};
    }

    // ---- eviction ----

    // The ranges in v's way on the given units, possibly with repetitions.
    method CollectInterferences(v: VReg, p: PReg) returns (intfs: seq<VReg>)
      ensures forall w :: w in intfs <==> w in Conflicts(t, phys, v, p)
    {
      intfs := [];
      var us := t.units(p);
      for i := 0 to |us|
        invariant forall w :: w in intfs <==> exists j :: 0 <= j < i && w in Query(t, phys, v, us[j])
      {
        var rest := Query(t, phys, v, us[i]);
        ghost var before := intfs;
        while rest != {}
          invariant rest <= Query(t, phys, v, us[i])
          invariant forall w :: w in intfs <==> w in before || (w in Query(t, phys, v, us[i]) && w !in rest)
          decreases rest
        {
          var w :| w in rest;
          intfs := intfs + [w];
          rest := rest - {w};
        }
      }
      forall w ensures w in intfs <==> w in Conflicts(t, phys, v, p) {
        ConflictOnUnit(t, phys, v, p, w);
      }
    }

    // evictInterference
    method EvictInterference(v: VReg, p: PReg) returns (news: seq<VReg>)
      requires Known(Snap(), v) && v !in phys
      requires MayEvict(t, Snap(), v, Conflicts(t, phys, v, p))
      modifies `phys, `cascade, `next
      ensures Snap() == Evicted(old(Snap()), v, Conflicts(t, old(phys), v, p))
      ensures NoDup(news) && forall w :: w in news <==> w in Conflicts(t, old(phys), v, p)
    {
      hide Conflicts, Query, Elems, MayEvict;
      ConflictsKnown(t, phys, v, p);
      var k := cascade[v];
      if k == 0 {
        k := next;
        next := next + 1;
        cascade := cascade[v := k];
      }
      ghost var c := Conflicts(t, phys, v, p);
      var intfs := CollectInterferences(v, p);
      assert forall w :: w in intfs ==> w in c;
      news := EvictAll(k, intfs);
      EvictedPointwise(old(Snap()), Snap(), v, c, k, intfs);
    }

    // Unassign the listed ranges and hand them cascade number k. The same range
    // may be listed more than once.
    method EvictAll(k: nat, intfs: seq<VReg>) returns (news: seq<VReg>)
      requires forall w :: w in intfs ==> w in phys
      modifies `phys, `cascade
      ensures phys.Keys == old(phys).Keys - Elems(intfs)
      ensures forall w :: w in phys ==> phys[w] == old(phys)[w]
      ensures forall w :: w in cascade <==> w in old(cascade) || w in intfs
      ensures forall w :: w in cascade ==> cascade[w] == if w in intfs then k else old(cascade)[w]
      ensures NoDup(news) && forall w :: w in news <==> w in intfs
    {
      news := [];
      for i := 0 to |intfs|
        invariant forall w :: w in phys <==> w in old(phys) && w !in news
        invariant forall w :: w in phys ==> phys[w] == old(phys)[w]
        invariant forall w :: w in cascade <==> w in old(cascade) || w in news
        invariant forall w :: w in cascade ==> cascade[w] == if w in news then k else old(cascade)[w]
        invariant NoDup(news) && (forall w :: w in news ==> w in intfs)
        invariant forall j :: 0 <= j < i ==> intfs[j] in news
      {
        var w := intfs[i];
        if w in phys {
          Unassign(w);
          cascade := cascade[w := k];
          news := news + [w];
        } else {
          assert w in intfs && w in news;
        }
      }
      assert forall w :: w in Elems(intfs) <==> w in intfs;
    }

    ghost predicate CanPlace(v: VReg, order: seq<Candidate>)
      reads this
    {
      Valid() && v in live && v !in phys
      && forall c :: c in order ==> c.reg != 0 && t.inClass(v, c.reg) && Ordered(t, v, c.reg)
    }

    // Clear p for v, which canEvictInterference allowed.
    method EvictFor(v: VReg, p: PReg) returns (news: seq<VReg>)
      requires Valid() && v in live && v !in phys && p != 0 && t.inClass(v, p) && !t.fixedInterference(v, p)
               && Ordered(t, v, p)
      requires MayEvict(t, Snap(), v, Conflicts(t, phys, v, p))
      modifies `phys, `cascade, `next
      ensures EvictPost(t, old(Snap()), Snap(), v, p, news)
    {
      ghost var s0 := Snap();
      news := EvictInterference(v, p);
      EvictFrame(t, s0, v, p, news);
    }

    method TryEvict(v: VReg, order: seq<Candidate>, costLimit: nat) returns (p: PReg, news: seq<VReg>)
      requires CanPlace(v, order)
      modifies `phys, `cascade, `next
      ensures EvictPost(t, old(Snap()), Snap(), v, p, news)
      ensures Known(old(Snap()), v) && (p != 0 <==> SomeEvictable(t, old(Snap()), v, order, costLimit))
      ensures exists seen: nat :: EvictChoice(t, old(Snap()), v, order, costLimit, p, seen)
    {
      hide EvictPost, Evictable, SomeEvictable, FreeFor, Ordered, EvictChoice, CanTake;
      news := [];
      ghost var seen;
      p, seen := TryFindEvictionCandidate(t, Snap(), v, order, costLimit);
      ChoiceParts(t, Snap(), v, order, costLimit, p, seen);
      if p != 0 {
        ClearedMayEvict(t, Snap(), v, p, false, StartBudget(t, v, costLimit));
        ClearsUnfixed(t, Snap(), v, p, false, StartBudget(t, v, costLimit));
        news := EvictFor(v, p);
      } else {
        NoEviction(t, Snap(), v);
      }
    }

    // The first free register of the order: hints first.
    method FindFree(v: VReg, order: seq<Candidate>) returns (c: Option<Candidate>)
      requires forall c :: c in order ==> t.inClass(v, c.reg)
      ensures c.Some? ==> exists i: nat :: FirstFree(t, phys, v, order, i) && i < |order| && order[i] == c.value
      ensures c.None? ==> forall i :: 0 <= i < |order| ==> !FreeFor(t, phys, v, order[i].reg)
    {
      for i := 0 to |order|
        invariant forall j :: 0 <= j < i ==> !FreeFor(t, phys, v, order[j].reg)
      {
        if CheckInterference(t, phys, v, order[i].reg) == IKFree {
          assert FirstFree(t, phys, v, order, i);
          return Some(order[i]);
        }
      }
      c := None;
    }

    method TryAssign(v: VReg, order: seq<Candidate>) returns (p: PReg, news: seq<VReg>)
      requires CanPlace(v, order)
      modifies `phys, `cascade, `next, `brokenHints
      ensures EvictPost(t, old(Snap()), Snap(), v, p, news)
      ensures p != 0 <==> exists i :: 0 <= i < |order| && FreeFor(t, old(phys), v, order[i].reg)
      ensures Known(old(Snap()), v)
      ensures forall i :: 0 <= i < |order| && FirstFree(t, old(phys), v, order, i) ==>
                AssignChoice(t, old(Snap()), v, order, order[i], p)
      ensures brokenHints == old(brokenHints) + if MissesHint(t, old(Snap()), v, order) then {v} else {}
    {
      hide EvictPost, Evictable, SomeEvictable, FreeFor, Ordered, FirstFree, AssignChoice;
      NoEviction(t, Snap(), v);
      var free := FindFree(v, order);
      FirstFreeIsOne(t, phys, v, order);
      if free.None? { return 0, []; }
      ghost var at: nat :| FirstFree(t, phys, v, order, at) && at < |order| && order[at] == free.value;
      p := free.value.reg;
      FreeTaken(t, Snap(), v, p);
      ChoiceIs(t, Snap(), v, order, at);
      if free.value.hint { return p, []; }
      var hint := t.simpleHint(v);
      if hint != 0 && Candidate(hint, true) in order {
        var ok, _ := CanEvictInterferenceBasedOnCost(t, Snap(), v, hint, true, EvictionCost(1, 0.0));
        if ok {
          ClearedMayEvict(t, Snap(), v, hint, true, EvictionCost(1, 0.0));
          ClearsUnfixed(t, Snap(), v, hint, true, EvictionCost(1, 0.0));
          news := EvictFor(v, hint);
          return hint, news;
        }
        brokenHints := brokenHints + {v};
      }
      var cost := t.regCost(p);
      if cost == 0 { return p, []; }
      var cheap;
      cheap, news := TryEvict(v, order, cost);
      if cheap != 0 { p := cheap; } else { NothingEvicted(t, old(Snap()), Snap(), v, news); }
    }

    // ---- last-chance recoloring ----

    method MayRecolorAllInterferences(p: PReg, v: VReg) returns (ok: bool, candidates: set<VReg>)
      requires phys.Keys <= stage.Keys
      ensures ok <==> MayRecolorAll(t, Snap(), v, p, maxInterference, exhaustive)
      ensures ok ==> candidates == Conflicts(t, phys, v, p)
    {
      candidates := {};
      var us := t.units(p);
      hide Query, Recolorable, AllRecolorable, Conflicts, MayRecolorAll, MetOn, FewOn, Aliases;
      MetStart(t, Snap(), v, p, maxInterference, exhaustive);
      for i := 0 to |us|
        invariant FewOn(t, phys, v, p, maxInterference, exhaustive, i)
        invariant candidates == MetOn(t, phys, v, p, i)
        invariant AllRecolorable(t, Snap(), v, p, candidates)
      {
        var q := Query(t, phys, v, us[i]);
        if |q| >= maxInterference && !exhaustive {
          TooManyToRecolor(t, Snap(), v, p, maxInterference, i);
          return false, {};
        }
        var good, bad := UnitRecolorable(p, v, us[i]);
        if !good {
          CannotRecolor(t, Snap(), v, p, maxInterference, exhaustive, i, bad);
          return false, {};
        }
        MetStep(t, phys, v, p, maxInterference, exhaustive, i);
        BothRecolorable(t, Snap(), v, p, candidates, q);
        candidates := candidates + q;
      }
      MetAll(t, phys, v, p);
      CanRecolorAll(t, Snap(), v, p, maxInterference, exhaustive);
      ok := true;
    }

    // The interferences of one unit, in any order.
    method UnitRecolorable(p: PReg, v: VReg, u: Unit) returns (good: bool, ghost bad: VReg)
      requires phys.Keys <= stage.Keys
      ensures good ==> AllRecolorable(t, Snap(), v, p, Query(t, phys, v, u))
      ensures !good ==> bad in Query(t, phys, v, u) && !Recolorable(t, Snap(), v, p, bad)
    {
      hide Recolorable;
      var rest := Query(t, phys, v, u);
      good, bad := true, v;
      while rest != {}
        invariant rest <= Query(t, phys, v, u)
        invariant AllRecolorable(t, Snap(), v, p, Query(t, phys, v, u) - rest)
        decreases rest
      {
        var w :| w in rest;
        if !Recolorable(t, Snap(), v, p, w) { return false, w; }
        rest := rest - {w};
      }
      assert Query(t, phys, v, u) - rest == Query(t, phys, v, u);
    }

    // enqueue: a range seen for the first time starts at RSAssign.
    method InitStage(v: VReg)
      requires v in stage
      modifies `stage
      ensures stage == old(stage)[v := Seen(old(stage)[v])]
      ensures StagesAdvance(old(stage), stage)
    {
      if stage[v] == RSNew { stage := stage[v := RSAssign]; }
    }

    // Record and take away the registers of the candidates, in any order.
    method PushCandidates(candidates: set<VReg>)
      requires candidates <= phys.Keys && candidates <= stage.Keys
      modifies `phys, `stack, `stage
      ensures phys == old(phys) - candidates
      ensures Logged(old(stack), stack, old(phys), candidates)
      ensures StagesSeen(old(stage), stage, candidates) && StagesAdvance(old(stage), stage)
    {
      var done: set<VReg> := {};
      assert Logged(old(stack), stack, old(phys), done);
      SeenNone(stage);
      hide Logged, StagesSeen;
      while done < candidates
        invariant done <= candidates
        invariant phys == old(phys) - done
        invariant Logged(old(stack), stack, old(phys), done)
        invariant StagesSeen(old(stage), stage, done) && stage.Keys == old(stage).Keys
        decreases candidates - done
      {
        var w :| w in candidates && w !in done;
        SeenOne(old(stage), stage, done, w);
        InitStage(w);
        LogOne(old(stack), stack, old(phys), done, w);
        stack := stack + [(w, phys[w])];
        Unassign(w);
        done := done + {w};
      }
      SeenAdvances(old(stage), stage, candidates);
    }

    // The two rollback loops: unassign everything recorded above n, then put
    // every range that is still live back where it was.
    method RollBack(n: nat)
      requires n <= |stack| && DistinctStack(stack)
      modifies `phys, `stack
      ensures stack == old(stack)[..n]
      ensures forall w :: w in phys <==> if Recorded(old(stack), n, |old(stack)|, w) then w in live else w in old(phys)
      ensures forall w :: w in phys && !Recorded(old(stack), n, |old(stack)|, w) ==> phys[w] == old(phys)[w]
      ensures forall i :: n <= i < |old(stack)| && old(stack)[i].0 in phys ==> phys[old(stack)[i].0] == old(stack)[i].1
    {
      hide Recorded;
      NothingRecorded(stack);
      var i := |stack|;
      while i > n
        invariant n <= i <= |stack| && stack == old(stack)
        invariant forall w :: w in phys <==> w in old(phys) && !Recorded(stack, i, |stack|, w)
        invariant forall w :: w in phys ==> phys[w] == old(phys)[w]
      {
        i := i - 1;
        forall w ensures Recorded(stack, i, |stack|, w) <==> stack[i].0 == w || Recorded(stack, i + 1, |stack|, w) {
          RecordedSplit(stack, i, i + 1, |stack|, w);
        }
        if stack[i].0 in phys { Unassign(stack[i].0); }
      }
      while i < |stack|
        invariant n <= i <= |stack| && stack == old(stack)
        invariant forall w :: w in phys <==>
                    if Recorded(stack, n, i, w) then w in live else w in old(phys) && !Recorded(stack, n, |stack|, w)
        invariant forall w :: w in phys && !Recorded(stack, n, i, w) ==> phys[w] == old(phys)[w]
        invariant forall j :: n <= j < i && stack[j].0 in phys ==> phys[stack[j].0] == stack[j].1
      {
        forall w ensures Recorded(stack, n, i + 1, w) <==> Recorded(stack, n, i, w) || stack[i].0 == w {
          RecordedSplit(stack, n, i, i + 1, w);
        }
        RecordedOnce(stack, n, i);
        if stack[i].0 in live { Assign(stack[i].0, stack[i].1); }
        i := i + 1;
      }
      stack := stack[..n];
    }

    // Undo a failed round: v gives up its register before the rollback.
    method UndoRound(v: VReg, save: set<VReg>, entry: nat, ghost s0: State)
      requires v in phys && DistinctStack(stack) && s0.stack <= stack && entry == |s0.stack| && save == s0.fixed
      modifies `phys, `stack, `fixed
      ensures RolledBack(s0, old(Snap()), Snap(), v)
    {
      ghost var s2 := Snap();
      fixed := save;
      Unassign(v);
      RollBack(entry);
      assert forall w :: Pushed(s0, s2, w) <==> Recorded(s2.stack, entry, |s2.stack|, w);
    }

    // Ranges handed back that are not candidates; those are restored instead.
    method DropCandidates(news: seq<VReg>, candidates: set<VReg>) returns (kept: seq<VReg>)
      requires NoDup(news)
      ensures NoDup(kept) && |kept| <= |news|
      ensures forall w :: w in kept <==> w in news && w !in candidates
    {
      kept := [];
      for i := 0 to |news|
        invariant NoDup(kept) && |kept| <= i
        invariant forall w :: w in kept <==> w in news[..i] && w !in candidates
      {
        assert news[..i + 1] == news[..i] + [news[i]];
        assert news[i] !in news[..i];
        if news[i] !in candidates { kept := kept + [news[i]]; }
      }
      assert news[..|news|] == news;
    }

    // Take the candidates away and try v in p.
    method BeginRound(v: VReg, p: PReg, candidates: set<VReg>)
      requires Valid() && v in fixed && v in live && v !in phys && Ordered(t, v, p)
      requires t.inClass(v, p) && !t.fixedInterference(v, p) && candidates == Conflicts(t, phys, v, p)
               && candidates !! fixed
      modifies `phys, `stack, `stage
      ensures RoundStart(t, old(Snap()), Snap(), v, p, candidates) && Valid()
      ensures candidates <= live && candidates !! phys.Keys && candidates !! fixed
      ensures Easy(t, old(phys), v, p, candidates) ==> Fits(t, phys, candidates)
    {
      hide StateOK, RoundStart, Logged, Conflicts, WellFormed, StageStep, Easy, Fits, Ordered, StagesSeen;
      ghost var s0 := Snap();
      StateFacts(t, s0);
      ConflictsKnown(t, phys, v, p);
      PushCandidates(candidates);
      Assign(v, p);
      RoundBegins(t, s0, Snap(), v, p, candidates);
      RoundQueue(t, s0, Snap(), v, p, candidates);
      if Easy(t, s0.phys, v, p, candidates) { FitsStays(t, s0, Snap(), v, p, candidates); }
    }

    // One iteration of the loop of tryLastChanceRecoloring: give p to v and
    // recolor everything that was in the way.
    method RecolorRound(v: VReg, p: PReg, candidates: set<VReg>, depth: nat) returns (ok: bool, news: seq<VReg>)
      requires Valid() && v in fixed && v in live && v !in phys && Ordered(t, v, p)
      requires t.inClass(v, p) && !t.fixedInterference(v, p) && candidates == Conflicts(t, phys, v, p)
               && candidates !! fixed
      modifies this
      ensures Frame(t, old(Snap()), Snap(), {}, news) && v in live && v !in phys
      ensures ok ==> FreeFor(t, phys, v, p)
      ensures !ok ==> stack == old(stack) && fixed == old(fixed)
      ensures forall w :: w in candidates ==> w !in news
      ensures !ok ==> forall w :: w in candidates && w in live ==>
                        w in phys && w in old(phys) && phys[w] == old(phys)[w]
      ensures Easy(t, old(phys), v, p, candidates) ==> ok
      ensures old(brokenHints) <= brokenHints
      decreases t.vregs - fixed, 3
    {
      hide Frame, StateOK, RoundStart, RolledBack, FreeFor, Conflicts, DistinctStack, WellFormed, NoDup, Easy, Fits,
          Ordered;
      ghost var s0 := Snap();
      var entry := |stack|;
      BeginRound(v, p, candidates);
      ghost var s1 := Snap();
      var save := fixed;
      ok, news := TryRecoloringCandidates(candidates, depth);
      ghost var s2 := Snap();
      RoundKeeps(t, s0, s1, s2, v, p, candidates, news);
      if ok {
        Unassign(v);
        RoundSuccess(t, s0, s1, s2, Snap(), v, p, candidates, news);
        return;
      }
      UndoRound(v, save, entry, s0);
      var kept := DropCandidates(news, candidates);
      RoundRollback(t, s0, s1, s2, Snap(), v, p, candidates, news, kept);
      news := kept;
    }

    // One register of the order: skipped when fixed ranges or interferences that
    // may not move are in the way.
    method TryRegister(v: VReg, p: PReg, depth: nat) returns (ok: bool, news: seq<VReg>)
      requires Valid() && v in fixed && v in live && v !in phys && t.inClass(v, p) && Ordered(t, v, p)
      modifies this
      ensures Frame(t, old(Snap()), Snap(), {}, news) && v in live && v !in phys
      ensures ok ==> FreeFor(t, phys, v, p)
      ensures !ok ==> stack == old(stack) && fixed == old(fixed)
      ensures MakesRoom(t, old(Snap()), v, p, maxInterference, exhaustive) ==> ok
      ensures old(phys).Keys <= old(stage).Keys
      ensures Skips(t, old(Snap()), v, p, maxInterference, exhaustive) ==>
                !ok && news == [] && Snap() == old(Snap())
      ensures old(brokenHints) <= brokenHints
      decreases t.vregs - fixed, 4
    {
      hide Frame, StateOK, Easy, MayRecolorAll, Conflicts, FreeFor, WellFormed, Ordered;
      ghost var s0 := Snap();
      StateFacts(t, s0);
      FrameRefl(t, s0, {});
      if CheckInterference(t, phys, v, p) == IKFixed { return false, []; }
      var candidates;
      ok, candidates := MayRecolorAllInterferences(p, v);
      if !ok { return false, []; }
      CandidatesLoose(t, s0, v, p, maxInterference, exhaustive);
      ok, news := RecolorRound(v, p, candidates, depth);
      FrameState(t, s0, Snap(), {}, news);
    }

    // The search is not even started.
    predicate CutOff(v: VReg, depth: nat) {
      !t.mayRecolor(v) || (depth >= maxDepth && !exhaustive)
    }

    // No register is passed over whose interferences fit elsewhere when it has its
    // turn; turns are the states in which they have them.
    method TryLastChanceRecoloring(v: VReg, order: seq<Candidate>, depth: nat)
      returns (r: Result, news: seq<VReg>, ghost turns: seq<State>)
      requires CanPlace(v, order) && v !in fixed
      modifies this
      ensures SelectPost(t, old(Snap()), Snap(), v, r, news) && !r.NoReg?
      ensures CutOff(v, depth) ==> r.Failed?
      ensures r.Failed? ==> fixed == if CutOff(v, depth) then old(fixed) else old(fixed) + {v}
      ensures old(brokenHints) <= brokenHints
      ensures !CutOff(v, depth) && RoomFound(t, old(Snap()), v, order, maxInterference, exhaustive) ==> r.Reg?
      ensures !CutOff(v, depth) && r.Failed? ==>
                Turns(t, old(Snap()), Snap(), v, order, turns, |order|, maxInterference, exhaustive)
      ensures r.Reg? ==> 0 < |turns| <= |order| && order[|turns| - 1].reg == r.p
      ensures r.Reg? ==>
                Turns(t, old(Snap()), turns[|turns| - 1], v, order, turns, |turns| - 1, maxInterference, exhaustive)
      ensures r.Reg? ==> exists i :: 0 <= i < |order| && order[i].reg == r.p
                           && NoRoomBefore(t, old(Snap()), v, order, i, maxInterference, exhaustive)
      decreases t.vregs - fixed, 0
    {
      hide Frame, StateOK, SelectPost, MakesRoom, AllDone, FreeFor, WellFormed, NoRoomBefore, SomeMakesRoom, Searching,
          Ordered, Skips, Turns, RoomFirst;
      ghost var s0 := Snap();
      StateFacts(t, s0);
      NoRoomYet(t, s0, v, order, maxInterference, exhaustive);
      news := [];
      FailedAtOnce(t, s0, v);
      turns := [];
      if !t.mayRecolor(v) { return Failed, [], turns; }
      if depth >= maxDepth && !exhaustive { return Failed, [], turns; }
      fixed := fixed + {v};
      SearchBegins(t, s0, v);
      turns := [Snap()];
      NobodyTried(t, s0, v, order, maxInterference, exhaustive);
      for i := 0 to |order|
        invariant Searching(t, s0, Snap(), v, news) && old(brokenHints) <= brokenHints
        invariant NoRoomBefore(t, s0, v, order, i, maxInterference, exhaustive)
        invariant Turns(t, s0, Snap(), v, order, turns, i, maxInterference, exhaustive)
      {
        assert order[i] in order;
        SearchState(t, s0, Snap(), v, news);
        NoRoomNext(t, s0, v, order, i, maxInterference, exhaustive);
        ghost var s2 := Snap();
        if AllDone(t, s0) { RoomKept(t, s0, s2, news, v, order[i].reg, maxInterference, exhaustive); }
        var ok, more := TryRegister(v, order[i].reg, depth);
        if ok {
          LastTurn(t, s0, s2, v, order, turns, i, maxInterference, exhaustive);
          SearchSucceeds(t, s0, s2, Snap(), v, order[i].reg, news, more);
          return Reg(order[i].reg), news + more, turns;
        }
        OneTried(t, s0, s2, Snap(), v, order, turns, i, maxInterference, exhaustive);
        turns := turns + [Snap()];
        SearchGoesOn(t, s0, s2, Snap(), v, news, more);
        news := news + more;
      }
      r := Failed;
      if AllDone(t, s0) { NoRoomAtAll(t, s0, v, order, maxInterference, exhaustive); }
      AllTried(t, s0, turns, v, order, maxInterference, exhaustive);
      SearchFails(t, s0, Snap(), v, news);
    }

    // Recolor every range of the queue, in any order.
    method TryRecoloringCandidates(queue: set<VReg>, depth: nat) returns (ok: bool, news: seq<VReg>)
      requires Valid() && queue <= live && queue !! phys.Keys && queue !! fixed
      modifies this
      ensures Frame(t, old(Snap()), Snap(), queue, news)
      ensures ok ==> forall w :: w in queue && w in live ==> w in phys
      ensures Fits(t, old(phys), queue) ==> ok
      ensures old(brokenHints) <= brokenHints
      decreases t.vregs - fixed, 2
    {
      hide Frame, StateOK, SelectPost, HasFree, QueueInv, WellFormed, Fits, FitsNow, Outcome;
      ghost var s0 := Snap();
      FitsBegins(t, s0.phys, queue);
      var done: set<VReg> := {};
      news := [];
      FrameRefl(t, s0, {});
      QueueBegins(s0, queue);
      while done < queue
        invariant Frame(t, s0, Snap(), done, news) && QueueInv(Snap(), queue, done) && done <= queue
        invariant old(brokenHints) <= brokenHints
        invariant Fits(t, s0.phys, queue) ==> FitsNow(t, phys, queue, done)
        decreases queue - done
      {
        var x :| x in queue && x !in done;
        ghost var s1 := Snap();
        FrameState(t, s0, s1, done, news);
        QueueWaits(s1, queue, done, x);
        assert t.vregs - s1.fixed <= t.vregs - s0.fixed;
        var r, more := SelectOrSplitImpl(x, depth + 1);
        ghost var s2 := Snap();
        OutcomeSelects(t, s1, s2, x, r, more);
        if Fits(t, s0.phys, queue) { FitsStep(t, s1, s2, queue, done, x, r, more); }
        QueueStep(t, s0, s1, s2, queue, done, x, r, news, more);
        news := news + more;
        done := done + {x};
        if r.Failed? || (r.NoReg? && x in live) {
          FrameWeaken(t, s0, s2, done, queue, news);
          return false, news;
        }
        if r.Reg? {
          Assign(x, r.p);
          fixed := fixed + {x};
        }
      }
      assert done == queue;
      QueueEnds(Snap(), queue);
      ok := true;
    }

    // selectOrSplitImpl, for ranges that splitting does not help.
    method SelectOrSplitImpl(v: VReg, depth: nat) returns (r: Result, news: seq<VReg>)
      requires Valid() && v in live && v !in phys && v !in fixed
      modifies this
      ensures Outcome(t, old(Snap()), Snap(), v, r, news)
      ensures HasFree(t, old(phys), v) ==> forall w :: w in phys ==> w in old(phys) && phys[w] == old(phys)[w]
      ensures old(phys).Keys <= old(stage).Keys && old(brokenHints) <= brokenHints
      ensures Evicts(t, old(Snap()), v) && r.Reg? ==>
                brokenHints == old(brokenHints) + if t.simpleHint(v) in {0, r.p} then {} else {v}
      ensures !CutOff(v, depth) && !MovesOn(t, old(Snap()), v) ==>
                RoomFound(t, old(Snap()), v, t.order(v, old(phys)), maxInterference, exhaustive) ==> r.Reg?
      decreases t.vregs - fixed, 1
    {
      hide EvictPost, SelectPost, StateOK, SomeEvictable, FreeFor, FirstFree, AssignChoice, AllDone, HasReserved,
          Ordered, StartBudget, CanTake, RoomFound, Outcome, Takes, EvictChoice, Evicts, MissesHint, MovedOn,
          MovesOn;
      ghost var s0 := Snap();
      StateFacts(t, s0);
      var order := t.order(v, phys);
      OrderPlaces(t, v, phys);
      var p;
      p, news := TryAssign(v, order);
      EvictedOrSame(t, s0, Snap(), v, p, news);
      EvictsOrNot(t, s0, v, order);
      if p != 0 {
        EvictsOnly(t, s0, Snap(), v, p, news);
        TakesOutcome(t, s0, Snap(), v, p, news);
        return Reg(p), news;
      }
      var st := stage[v];
      if st != RSSplit {
        p, news := TryEvict(v, order, 255);
        EvictedOrSame(t, s0, Snap(), v, p, news);
        if p != 0 {
          TakesOutcome(t, s0, Snap(), v, p, news);
          var hint := t.simpleHint(v);
          if hint != 0 && hint != p { brokenHints := brokenHints + {v}; }
          return Reg(p), news;
        }
      }
      NotTaken(t, s0, v);
      if Rank(st) < Rank(RSSplit) {
        stage := stage[v := RSSplit];
        MovesOutcome(t, s0, Snap(), v, [v]);
        return NoReg, [v];
      }
      if Rank(st) >= Rank(RSDone) || !t.spillable(v) {
        ghost var turns;
        r, news, turns := TryLastChanceRecoloring(v, order, depth);
        LastOutcome(t, s0, Snap(), v, r, news);
        return;
      }
      if t.deferredSpilling(v) && Rank(st) < Rank(RSMemory) {
        stage := stage[v := RSMemory];
        MovesOutcome(t, s0, Snap(), v, [v]);
        return NoReg, [v];
      }
      // Spilled: the live range is gone.
      live := live - {v};
      MovesOutcome(t, s0, Snap(), v, []);
      return NoReg, [];
    }

    // ---- the driving work list ----

    // seedLiveRegs: queue every used range that has no register.
    method SeedLiveRegs() returns (queue: set<VReg>)
      requires stage.Keys == t.vregs
      modifies `stage
      ensures queue == set v | v in t.vregs && v in live && v !in phys
      ensures StagesSeen(old(stage), stage, queue) && StagesAdvance(old(stage), stage)
    {
      hide StagesSeen;
      queue := {};
      SeenNone(stage);
      var seen: set<VReg> := {};
      while seen < t.vregs
        invariant seen <= t.vregs == stage.Keys
        invariant forall v :: v in queue <==> v in seen && v in live && v !in phys
        invariant StagesSeen(old(stage), stage, queue)
        decreases t.vregs - seen
      {
        var v :| v in t.vregs && v !in seen;
        seen := seen + {v};
        if v in live && v !in phys {
          SeenOne(old(stage), stage, queue, v);
          InitStage(v);
          queue := queue + {v};
        }
      }
      assert seen == t.vregs;
      SeenAdvances(old(stage), stage, queue);
    }

    method EnqueueAll(queue: set<VReg>, news: seq<VReg>) returns (longer: set<VReg>)
      requires forall w :: w in news ==> w in stage && w !in phys
      modifies `stage
      ensures forall w :: w in longer <==> w in queue || w in news
      ensures StagesSeen(old(stage), stage, Elems(news)) && StagesAdvance(old(stage), stage)
    {
      longer := queue;
      for i := 0 to |news|
        invariant forall w :: w in longer <==> w in queue || w in news[..i]
        invariant stage.Keys == old(stage).Keys
        invariant forall w :: w in stage ==> stage[w] == if w in news[..i] then Seen(old(stage)[w]) else old(stage)[w]
        invariant StagesAdvance(old(stage), stage)
      {
        assert news[..i + 1] == news[..i] + [news[i]];
        ghost var before := stage;
        InitStage(news[i]);
        AdvanceMore(old(stage), before, stage);
        longer := longer + {news[i]};
      }
      assert news[..|news|] == news;
      assert forall w :: w in Elems(news) <==> w in news;
    }

    ghost predicate Idle(queue: set<VReg>, errors: set<VReg>)
      reads this
    {
      Valid() && LoopInv(t, Snap(), queue, errors) && fixed == {} && stack == []
    }

    // One turn of the loop of allocatePhysRegs.
    method AllocateNext(q0: set<VReg>, e0: set<VReg>)
      returns (queue: set<VReg>, errors: set<VReg>, ghost turned: VReg)
      requires AllSpillable(t) && q0 != {} && Idle(q0, e0)
      modifies this
      ensures Idle(queue, errors) && live <= old(live)
      ensures Shrinks(t, old(Snap()), Snap(), q0, queue)
      ensures Turn(t, Point(old(Snap()), q0, e0), Point(Snap(), queue, errors), turned)
      ensures !CutOff(turned, 0) && turned in old(stage) && !MovesOn(t, old(Snap()), turned) ==>
                RoomFound(t, old(Snap()), turned, t.order(turned, old(phys)), maxInterference, exhaustive) ==>
                  turned in phys
    {
      hide StateOK, SelectPost, AllSpillable, LoopInv, WellFormed, Shrinks, Turn, Outcome, HasFree, MovesOn,
          RoomFound, StagesSeen, StagesAdvance, Requeued;
      ghost var s1 := Snap();
      queue, errors := q0, e0;
      var v :| v in queue;
      turned := v;
      QueueReady(t, s1, q0, e0, v);
      var r, news := SelectOrSplitImpl(v, 0);
      ghost var s2 := Snap();
      OutcomeSelects(t, s1, s2, v, r, news);
      SelectedState(t, s1, s2, v, r, news);
      match r {
        case Reg(p) => Assign(v, p);
        case Failed => errors := errors + {v};
        case NoReg =>
      }
      queue := EnqueueAll(queue - {v}, news);
      ghost var s4 := Snap();
      IsRequeued(s2, s4, q0, queue, v, r, news);
      // selectOrSplit keeps its fixed set and undo stack only for one call.
      fixed, stack := {}, [];
      LoopDone(t, s1, s2, s4, q0, queue, e0, v, r, news);
    }

    // allocatePhysRegs. Every used range ends up with a register of its class
    // that nothing it overlaps shares, or is reported in errors; trace is the
    // run that leads there, turn by turn.
    method AllocatePhysRegs() returns (errors: set<VReg>, ghost trace: seq<Point>)
      requires Valid() && AllSpillable(t) && fixed == {} && stack == []
      modifies this
      ensures Valid() && live <= old(live)
      ensures LoopInv(t, Snap(), {}, errors)
      ensures RunFrom(t, trace, Seeded(old(Snap())), Point(Snap(), {}, errors))
      ensures forall w :: w in errors ==> w in old(stage) && old(stage)[w] == RSDone && !HasReserved(t, old(phys), w)
      ensures forall w :: w in old(live) && HasReserved(t, old(phys), w) ==> w in live && w in phys
      ensures forall w :: w in old(live) && w !in live ==> MaySpill(t, Snap(), w)
    {
      hide StateOK, AllSpillable, CascadeSlack, StageSlack, InterferenceFree, WellFormed, Turn, RunFrom, HasReserved,
          MaySpill, Seeded;
      ghost var seeded := Snap();
      StateFacts(t, seeded);
      var queue := SeedLiveRegs();
      errors := {};
      StageKeepsOK(t, seeded, Snap());
      SeedPartition(Snap(), queue);
      SeedPoint(t, seeded, Snap(), queue);
      trace := [Point(Snap(), queue, {})];
      RunBegins(t, Point(Snap(), queue, {}));
      hide Partition;
      while queue != {}
        invariant Idle(queue, errors) && live <= old(live)
        invariant RunFrom(t, trace, Seeded(seeded), Point(Snap(), queue, errors))
        decreases Sum(CascadeSlack(t, Snap())), Sum(StageSlack(Snap())), |queue|
      {
        ghost var before, turned := Point(Snap(), queue, errors), 0;
        queue, errors, turned := AllocateNext(queue, errors);
        RunGoesOn(t, trace, Seeded(seeded), before, Point(Snap(), queue, errors), turned);
        trace := trace + [Point(Snap(), queue, errors)];
      }
      RunLaws(t, trace, Seeded(seeded), Point(Snap(), {}, errors));
      AllPlaced(t, seeded, Snap(), errors);
    }
  }

  // ---- runs of the driving loop ----

  datatype Point = Point(s: State, queue: set<VReg>, errors: set<VReg>)

  // The queue at the start: every used range without a register.
  function Seeded(s: State): Point {
    var queue := set v | v in s.stage && v in s.live && v !in s.phys;
    Point(s.(stage := map v | v in s.stage :: if v in queue then Seen(s.stage[v]) else s.stage[v]), queue, {})
  }

  // One turn with range v. It gets a register whenever it finds one, is split,
  // deferred or spilled while its stage allows that, and is reported only when
  // it is done and recoloring failed as well.
  ghost predicate Turn(t: Target, a: Point, b: Point, v: VReg) {
    && v in a.queue && v !in a.s.phys && v in a.s.stage && Known(a.s, v)
    && (if Takes(t, a.s, v) then v in b.s.phys && b.errors == a.errors
        else if MovesOn(t, a.s, v) then
          b == Point(MovedOn(t, a.s, v), a.queue - {v} + ({v} * MovedOn(t, a.s, v).live), a.errors)
        else a.s.stage[v] == RSDone
             && (if v in b.s.phys then b.errors == a.errors else b.errors == a.errors + {v} && v !in b.queue))
    && a.queue - {v} <= b.queue && b.queue <= a.queue + a.s.phys.Keys
    && (forall w :: w in b.queue && w !in a.queue - {v} ==> w in b.s.stage && b.s.stage[w] != RSNew)
    && Fates(t, a.s, b.s) && StagesAdvance(a.s.stage, b.s.stage)
  }

  ghost predicate Run(t: Target, trace: seq<Point>) {
    trace != [] && forall i :: 0 <= i < |trace| - 1 ==> Linked(t, trace, i)
  }

  // A run that leads from a to b.
  ghost predicate RunFrom(t: Target, trace: seq<Point>, a: Point, b: Point) {
    Run(t, trace) && trace[0] == a && trace[|trace| - 1] == b
  }

  ghost predicate Linked(t: Target, trace: seq<Point>, i: nat)
    requires i + 1 < |trace|
  {
    Follows(t, trace[i], trace[i + 1])
  }

  ghost predicate Follows(t: Target, a: Point, b: Point) {
    exists v :: Turn(t, a, b, v)
  }

  lemma RunBegins(t: Target, a: Point)
    ensures RunFrom(t, [a], a, a)
  {}

  lemma RunGoesOn(t: Target, trace: seq<Point>, first: Point, last: Point, b: Point, v: VReg)
    requires RunFrom(t, trace, first, last) && Turn(t, last, b, v)
    ensures RunFrom(t, trace + [b], first, b)
  {
    hide Turn;
    var more := trace + [b];
    forall i | 0 <= i < |more| - 1 ensures Linked(t, more, i) {
      if i + 1 < |trace| {
        assert Linked(t, trace, i);
        var w :| Turn(t, trace[i], trace[i + 1], w);
        assert Turn(t, more[i], more[i + 1], w);
      } else {
        assert Turn(t, more[i], more[i + 1], v);
      }
    }
  }

  lemma RunSplits(t: Target, trace: seq<Point>) returns (v: VReg)
    requires Run(t, trace) && |trace| > 1
    ensures Run(t, trace[..|trace| - 1]) && Turn(t, trace[|trace| - 2], trace[|trace| - 1], v)
  {
    hide Turn;
    var most := trace[..|trace| - 1];
    forall i | 0 <= i < |most| - 1 ensures Linked(t, most, i) {
      assert Linked(t, trace, i);
      var w :| Turn(t, trace[i], trace[i + 1], w);
      assert Turn(t, most[i], most[i + 1], w);
    }
    assert Linked(t, trace, |trace| - 2);
    v :| Turn(t, trace[|trace| - 2], trace[|trace| - 1], v);
  }

  // What has been reported was done from the start and had no register reserved.
  ghost predicate Reported(t: Target, s: State, errors: set<VReg>) {
    forall w :: w in errors ==> w in s.stage && s.stage[w] == RSDone && !HasReserved(t, s.phys, w)
  }

  lemma SeedPoint(t: Target, s0: State, s1: State, queue: set<VReg>)
    requires s0.stage.Keys == t.vregs && queue == set v | v in t.vregs && v in s0.live && v !in s0.phys
    requires s1 == s0.(stage := s1.stage) && StagesSeen(s0.stage, s1.stage, queue)
    ensures Point(s1, queue, {}) == Seeded(s0) && Seeded(s0).errors == {}
  {
    assert queue == Seeded(s0).queue;
  }

  // Over a whole run, from any point on, only done ranges without a reserved
  // register are reported, and only ranges that came to be spilled go away.
  lemma {:induction false} RunLaws(t: Target, trace: seq<Point>, a: Point, b: Point)
    requires RunFrom(t, trace, a, b) && a.errors == {}
    ensures Fates(t, a.s, b.s) && StagesAdvance(a.s.stage, b.s.stage) && Reported(t, a.s, b.errors)
    decreases |trace|
  {
    assert trace != [] && trace[0] == a && trace[|trace| - 1] == b && Run(t, trace);
    hide *;
    var n := |trace| - 1;
    if n == 0 {
      RunStart(t, a);
    } else {
      var c := trace[n - 1];
      var v := RunSplits(t, trace);
      IsRunFrom(t, trace[..n]);
      RunLaws(t, trace[..n], a, c);
      TurnParts(t, c, b, v);
      TurnReports(t, a.s, c, b, v);
      AdvanceMore(a.s.stage, c.s.stage, b.s.stage);
      AdvanceSteps(c.s.stage, b.s.stage);
      FatesCompose(t, a.s, c.s, b.s);
    }
  }

  ghost predicate AllSeen(a: Point) {
    forall w :: w in a.queue ==> w in a.s.stage && a.s.stage[w] != RSNew
  }

  // No range waits in the queue at its first stage.
  lemma {:induction false} RunSeen(t: Target, trace: seq<Point>, a: Point, b: Point)
    requires RunFrom(t, trace, a, b) && AllSeen(a)
    ensures AllSeen(b)
    decreases |trace|
  {
    assert trace != [] && trace[0] == a && trace[|trace| - 1] == b && Run(t, trace);
    hide *;
    var n := |trace| - 1;
    if n > 0 {
      var v := RunSplits(t, trace);
      IsRunFrom(t, trace[..n]);
      RunSeen(t, trace[..n], a, trace[n - 1]);
      TurnSeen(t, trace[n - 1], b, v);
    }
  }

  lemma TurnSeen(t: Target, a: Point, b: Point, v: VReg)
    requires Turn(t, a, b, v) && AllSeen(a)
    ensures AllSeen(b)
  {
    hide Takes, MovesOn, MovedOn, Fates, Known;
  }

  lemma SeededSeen(s: State)
    requires s.live <= s.stage.Keys
    ensures AllSeen(Seeded(s)) && forall v :: v in Seeded(s).queue <==> v in s.live && v !in s.phys
  {}

  lemma IsRunFrom(t: Target, trace: seq<Point>)
    requires trace != [] && Run(t, trace)
    ensures RunFrom(t, trace, trace[0], trace[|trace| - 1])
  {}

  lemma RunStart(t: Target, a: Point)
    requires a.errors == {}
    ensures Fates(t, a.s, a.s) && StagesAdvance(a.s.stage, a.s.stage) && Reported(t, a.s, a.errors)
  {
    hide HasReserved, Ordered;
  }

  lemma AdvanceSteps(a: map<VReg, Stage>, b: map<VReg, Stage>)
    requires StagesAdvance(a, b)
    ensures a.Keys == b.Keys && forall w :: w in a ==> w in b && StageStep(a[w], b[w])
  {}

  lemma TurnParts(t: Target, a: Point, b: Point, v: VReg)
    requires Turn(t, a, b, v)
    ensures Fates(t, a.s, b.s) && StagesAdvance(a.s.stage, b.s.stage)
  {
    hide Takes, MovesOn, MovedOn, Fates, StagesAdvance;
  }

  lemma TurnReports(t: Target, s0: State, a: Point, b: Point, v: VReg)
    requires Turn(t, a, b, v) && Reported(t, s0, a.errors)
    requires Fates(t, s0, a.s) && StagesAdvance(s0.stage, a.s.stage)
    ensures Reported(t, s0, b.errors)
  {
    FatesOrders(t, s0, a.s);
    if v in b.errors && v !in a.errors { TurnReportsDone(t, a, b, v); }
    TurnErrors(t, a, b, v);
    hide Turn, Fates, FromOrders, Reserved, HasFree;
    if v in b.errors && v !in a.errors {
      assert StageStep(s0.stage[v], a.s.stage[v]);
      if p :| Reserved(t, s0.phys, v, p) {
        ReservedStays(t, s0, a.s, v, p);
        ReservedIsFree(t, a.s.phys, v);
      }
    }
  }

  lemma TurnErrors(t: Target, a: Point, b: Point, v: VReg)
    requires Turn(t, a, b, v)
    ensures b.errors <= a.errors + {v} && v in a.s.stage
  {
    hide Takes, MovesOn, MovedOn, Fates, Known;
  }

  // Whoever is reported is done and found no free register.
  lemma TurnReportsDone(t: Target, a: Point, b: Point, v: VReg)
    requires Turn(t, a, b, v) && v in b.errors && v !in a.errors
    ensures v !in a.s.phys && v in a.s.stage && a.s.stage[v] == RSDone && !HasFree(t, a.s.phys, v)
  {
    hide HasFree, SomeEvictable, MovesOn, MovedOn, Fates;
  }

  lemma FatesOrders(t: Target, s0: State, s1: State)
    requires Fates(t, s0, s1)
    ensures FromOrders(t, s0, s1)
  {}

  // Ranges with a register reserved are assigned once the queue is empty.
  lemma AllPlaced(t: Target, s0: State, s1: State, errors: set<VReg>)
    requires Fates(t, Seeded(s0).s, s1) && Reported(t, Seeded(s0).s, errors) && Partition(s1, {}, errors)
    ensures forall w :: w in s0.live && HasReserved(t, s0.phys, w) ==> w in s1.live && w in s1.phys
    ensures forall w :: w in errors ==> w in s0.stage && s0.stage[w] == RSDone && !HasReserved(t, s0.phys, w)
    ensures forall w :: w in s0.live && w !in s1.live ==> MaySpill(t, s1, w)
  {
    hide HasReserved, MaySpill, FromOrders;
  }

  // The fixed set and the undo stack are dropped after each turn.
  function Calm(s: State, q: set<VReg>, e0: set<VReg>, v: VReg, r: Result): Point {
    Point(s.(fixed := {}, stack := []), q, if r.Failed? then e0 + {v} else e0)
  }

  // What was handed back is in the queue again, and its stages say it was seen.
  ghost predicate Requeued(s2: State, s4: State, q0: set<VReg>, q1: set<VReg>, v: VReg, r: Result, news: seq<VReg>) {
    && s4 == Settle(s2, v, r).(stage := s4.stage) && StagesAdvance(s2.stage, s4.stage)
    && StagesSeen(s2.stage, s4.stage, Elems(news))
    && (forall w :: w in q1 <==> (w in q0 && w != v) || w in news)
  }

  lemma QueueReady(t: Target, s: State, q: set<VReg>, e: set<VReg>, v: VReg)
    requires LoopInv(t, s, q, e) && v in q
    ensures v in s.live && v !in s.phys
  {}

  lemma IsRequeued(s2: State, s4: State, q0: set<VReg>, q1: set<VReg>, v: VReg, r: Result, news: seq<VReg>)
    requires s4 == Settle(s2, v, r).(stage := s4.stage) && StagesAdvance(s2.stage, s4.stage)
    requires StagesSeen(s2.stage, s4.stage, Elems(news)) && forall w :: w in q1 <==> w in q0 - {v} || w in news
    ensures Requeued(s2, s4, q0, q1, v, r, news)
  {
    hide StagesSeen, StagesAdvance;
  }

  lemma RequeuedParts(s2: State, s4: State, q0: set<VReg>, q1: set<VReg>, v: VReg, r: Result, news: seq<VReg>)
    requires Requeued(s2, s4, q0, q1, v, r, news)
    ensures s4 == Settle(s2, v, r).(stage := s4.stage) && s4.stage.Keys == s2.stage.Keys
    ensures forall w :: w in s4.stage ==> StageStep(s2.stage[w], s4.stage[w])
    ensures forall w :: w in q1 <==> (w in q0 && w != v) || w in news
  {}

  // One turn of the loop, read off what one call of selectOrSplitImpl did.
  lemma LoopDone(t: Target, s1: State, s2: State, s4: State, q0: set<VReg>, q1: set<VReg>, e0: set<VReg>,
                 v: VReg, r: Result, news: seq<VReg>)
    requires WellFormed(t) && StateOK(t, s1) && AllSpillable(t) && v in q0 && LoopInv(t, s1, q0, e0)
    requires s1.fixed == {} && s1.stack == []
    requires Outcome(t, s1, s2, v, r, news) && Requeued(s2, s4, q0, q1, v, r, news)
    ensures Turn(t, Point(s1, q0, e0), Calm(s4, q1, e0, v, r), v)
    ensures StateOK(t, Calm(s4, q1, e0, v, r).s) && Shrinks(t, s1, Calm(s4, q1, e0, v, r).s, q0, q1)
    ensures LoopInv(t, Calm(s4, q1, e0, v, r).s, q1, Calm(s4, q1, e0, v, r).errors)
  {
    OutcomeSelects(t, s1, s2, v, r, news);
    RequeuedParts(s2, s4, q0, q1, v, r, news);
    hide SelectPost, Outcome, Requeued, StagesAdvance, WellFormed, StateOK, Partition, InterferenceFree, AllSpillable,
        StageStep, Shrinks, Turn;
    LoopStep(t, s1, s2, Settle(s2, v, r), s4, q0, q1, e0, v, r, news);
    LoopShrinks(t, s1, s2, Settle(s2, v, r), s4, q0, q1, v, r, news);
    LoopTurn(t, s1, s2, s4, q0, q1, e0, v, r, news);
  }

  // A turn, read off what one call of selectOrSplitImpl did.
  lemma LoopTurn(t: Target, s1: State, s2: State, s4: State, q0: set<VReg>, q1: set<VReg>, e0: set<VReg>,
                 v: VReg, r: Result, news: seq<VReg>)
    requires WellFormed(t) && StateOK(t, s1) && AllSpillable(t) && v in q0 && Partition(s1, q0, e0)
    requires s1.fixed == {} && s1.stack == []
    requires Outcome(t, s1, s2, v, r, news) && Requeued(s2, s4, q0, q1, v, r, news)
    ensures Turn(t, Point(s1, q0, e0), Calm(s4, q1, e0, v, r), v)
  {
    hide SelectPost, Takes, MovesOn, MovedOn, Fates, StagesAdvance, StagesSeen, Known, WellFormed, StateOK, Partition,
        AllSpillable;
    var calm := Calm(s4, q1, e0, v, r).s;
    TurnKnows(t, s1, q0, e0, v);
    SelectedState(t, s1, s2, v, r, news);
    QueueSeen(s2, s4, q0, q1, v, r, news);
    SelectParts(t, s1, s2, v, r, news);
    QueueKnown(s1, s2, q0, q1, v, news);
    TurnFates(t, s1, s2, calm, v, r, news);
    if r.NoReg? { MovesOnTurn(t, s1, s2, calm, q0, q1, v, news); }
    hide NewsOK, KeysOK, CascadesOK, Progress, StageStep;
  }

  lemma TurnKnows(t: Target, s: State, q: set<VReg>, e: set<VReg>, v: VReg)
    requires StateOK(t, s) && AllSpillable(t) && v in q && Partition(s, q, e)
    ensures v !in s.phys && v in s.stage && (!MovesOn(t, s, v) ==> s.stage[v] == RSDone)
  {}

  // Whatever joins the queue is past its first stage.
  lemma QueueSeen(s2: State, s4: State, q0: set<VReg>, q1: set<VReg>, v: VReg, r: Result, news: seq<VReg>)
    requires Requeued(s2, s4, q0, q1, v, r, news) && forall w :: w in news ==> w in s2.stage
    ensures forall w :: w in q1 && w !in q0 - {v} ==> w in s4.stage && s4.stage[w] != RSNew
  {
    assert forall w :: w in news ==> w in Elems(news);
    hide StageStep;
  }

  lemma QueueKnown(s1: State, s2: State, q0: set<VReg>, q1: set<VReg>, v: VReg, news: seq<VReg>)
    requires NewsOK(s1, s2, {v}, news) && v in q0 && forall w :: w in q1 <==> (w in q0 && w != v) || w in news
    ensures q0 - {v} <= q1 && q1 <= q0 + s1.phys.Keys
  {}

  lemma TurnFates(t: Target, s1: State, s2: State, s4: State, v: VReg, r: Result, news: seq<VReg>)
    requires SelectPost(t, s1, s2, v, r, news) && StateOK(t, s1)
    requires s4.phys == Settle(s2, v, r).phys && s4.live == s2.live && StagesAdvance(s2.stage, s4.stage)
    ensures Fates(t, s1, s4) && StagesAdvance(s1.stage, s4.stage)
  {
    hide StateOK, Ordered, StageStep, Fates;
    FrameParts(t, s1, s2, {v}, news);
    StateFacts(t, s1);
    AdvanceMore(s1.stage, s2.stage, s4.stage);
    AdvanceSteps(s2.stage, s4.stage);
    hide *;
    hide Settle;
    FatesSettled(t, s1, s2, s4, v, r);
  }

  lemma FatesSettled(t: Target, s1: State, s2: State, s4: State, v: VReg, r: Result)
    requires Fates(t, s1, s2) && (r.Reg? ==> Ordered(t, v, r.p)) && s4.phys == Settle(s2, v, r).phys
    requires s4.live == s2.live && forall w :: w in s2.stage ==> w in s4.stage && StageStep(s2.stage[w], s4.stage[w])
    ensures Fates(t, s1, s4)
  {
    hide Ordered, HasReserved, MaySpill, StageStep;
    forall w | w in s1.live && w !in s4.live ensures MaySpill(t, s4, w) && !HasReserved(t, s1.phys, w) {
      MaySpillStage(t, s2, w);
      MaySpillStays(t, s2, s4, w);
    }
  }

  lemma MaySpillStage(t: Target, s: State, w: VReg)
    requires MaySpill(t, s, w)
    ensures w in s.stage
  {}

  // v goes back to the queue, unless it was spilled.
  lemma MovesOnTurn(t: Target, s1: State, s2: State, s4: State, q0: set<VReg>, q1: set<VReg>, v: VReg, news: seq<VReg>)
    requires SelectPost(t, s1, s2, v, NoReg, news) && v in s1.stage && s2 == MovedOn(t, s1, v)
    requires s1.fixed == {} && s1.stack == [] && s4 == s2.(stage := s4.stage, fixed := {}, stack := [])
    requires StagesSeen(s2.stage, s4.stage, Elems(news))
    requires v in q0 && forall w :: w in q1 <==> (w in q0 && w != v) || w in news
    ensures s4 == MovedOn(t, s1, v) && q1 == q0 - {v} + ({v} * s2.live)
  {
    hide Frame;
    assert forall w :: w in Elems(news) <==> w in news;
    assert s4.stage == s2.stage;
  }

  // The lexicographic measure of the driving loop went down.
  ghost predicate Shrinks(t: Target, s0: State, s1: State, q0: set<VReg>, q1: set<VReg>) {
    var c, g := Sum(CascadeSlack(t, s1)), Sum(StageSlack(s1));
    var c0, g0 := Sum(CascadeSlack(t, s0)), Sum(StageSlack(s0));
    c <= c0 && g <= g0 && (c < c0 || g < g0 || |q1| < |q0|)
  }

  // ---- the invariant of the driving loop ----

  // Every used range is in exactly one of the queue, the assignment and the
  // reported errors.
  ghost predicate Partition(s: State, queue: set<VReg>, errors: set<VReg>) {
    && queue <= s.live && errors <= s.live
    && queue !! s.phys.Keys && errors !! s.phys.Keys && queue !! errors
    && (forall w :: w in s.live ==> w in queue || w in s.phys || w in errors)
  }

  ghost predicate LoopInv(t: Target, s: State, queue: set<VReg>, errors: set<VReg>) {
    Partition(s, queue, errors) && InterferenceFree(t, s.phys)
  }

  lemma SeedPartition(s: State, queue: set<VReg>)
    requires forall w :: w in queue <==> w in s.live && w !in s.phys
    ensures Partition(s, queue, {})
  {}

  lemma SelectedState(t: Target, s1: State, s2: State, v: VReg, r: Result, news: seq<VReg>)
    requires SelectPost(t, s1, s2, v, r, news)
    ensures v !in s2.phys && (r.Reg? ==> v !in news) && s2.live <= s1.live
    ensures forall w :: w in news ==> w in s2.stage && w !in s2.phys
  {}

  // The state after the register found for v, if any, is entered.
  function Settle(s: State, v: VReg, r: Result): State {
    if r.Reg? then s.(phys := s.phys[v := r.p]) else s
  }

  lemma SettleStateOK(t: Target, s1: State, s2: State, v: VReg, r: Result, news: seq<VReg>)
    requires WellFormed(t) && SelectPost(t, s1, s2, v, r, news) && s1.stack == []
    ensures StateOK(t, Settle(s2, v, r).(fixed := {}, stack := []))
  {
    if r.Reg? { AssignKeepsFree(t, s2.phys, v, r.p); }
  }

  lemma SettlePartition(t: Target, s1: State, s2: State, q0: set<VReg>, q1: set<VReg>, e0: set<VReg>,
                        v: VReg, r: Result, news: seq<VReg>)
    requires Partition(s1, q0, e0) && v in q0 && KeysOK(s1, s2, {v}, news) && NewsOK(s1, s2, {v}, news)
    requires v !in s2.phys
    requires r.Reg? || r.Failed? ==> v !in news && v in s2.live
    requires r.NoReg? ==> v in news || v !in s2.live
    requires forall w :: w in q1 <==> (w in q0 && w != v) || w in news
    ensures Partition(Settle(s2, v, r), q1, if r.Failed? then e0 + {v} else e0)
  {}

  lemma SelectParts(t: Target, s1: State, s2: State, v: VReg, r: Result, news: seq<VReg>)
    requires SelectPost(t, s1, s2, v, r, news)
    ensures KeysOK(s1, s2, {v}, news) && NewsOK(s1, s2, {v}, news) && v !in s2.phys
    ensures r.Reg? || r.Failed? ==> v !in news && v in s2.live
    ensures r.NoReg? ==> v in news || v !in s2.live
    ensures CascadesOK(t, s2) && Progress(t, s1, s2, news) && s1.stage.Keys <= s2.stage.Keys
    ensures r.NoReg? && news != [] ==> v in s1.stage && v in s2.stage && Rank(s1.stage[v]) < Rank(s2.stage[v])
    ensures s2.stage.Keys == t.vregs
  {}

  lemma NothingRecorded(stack: seq<(VReg, PReg)>)
    ensures forall n: nat, w :: !Recorded(stack, n, n, w)
  {
  }

  // Somebody was evicted, or v moved to a later stage, or the queue got shorter.
  lemma LoopProgress(t: Target, s1: State, s2: State, q0: set<VReg>, q1: set<VReg>,
                     v: VReg, r: Result, news: seq<VReg>)
    requires AllSpillable(t) && StateOK(t, s1) && v in q0 && SelectPost(t, s1, s2, v, r, news)
    requires forall w :: w in q1 <==> (w in q0 && w != v) || w in news
    ensures Sum(CascadeSlack(t, s2)) <= Sum(CascadeSlack(t, s1)) && Sum(StageSlack(s2)) <= Sum(StageSlack(s1))
    ensures Sum(CascadeSlack(t, s2)) < Sum(CascadeSlack(t, s1)) || Sum(StageSlack(s2)) < Sum(StageSlack(s1))
              || |q1| < |q0|
  {
    hide *;
    StateFacts(t, s1);
    SelectParts(t, s1, s2, v, r, news);
    CascadeSlackShrinks(t, s1, s2, news);
    StageSlackShrinks(s1, s2);
    if news == [] {
      assert q1 == q0 - {v};
    } else if !r.NoReg? {
      assert news[0] in news && news[0] != v;
    }
  }

  lemma LoopStep(t: Target, s1: State, s2: State, s3: State, s4: State, q0: set<VReg>, q1: set<VReg>, e0: set<VReg>,
                 v: VReg, r: Result, news: seq<VReg>)
    requires WellFormed(t) && StateOK(t, s1) && s1.stack == [] && LoopInv(t, s1, q0, e0) && v in q0
    requires SelectPost(t, s1, s2, v, r, news) && s3 == Settle(s2, v, r)
    requires s4 == s3.(stage := s4.stage) && s4.stage.Keys == s3.stage.Keys
    requires forall w :: w in s4.stage ==> StageStep(s3.stage[w], s4.stage[w])
    requires forall w :: w in q1 <==> (w in q0 && w != v) || w in news
    ensures StateOK(t, s4.(fixed := {}, stack := []))
    ensures LoopInv(t, s4.(fixed := {}, stack := []), q1, if r.Failed? then e0 + {v} else e0)
  {
    hide SelectPost, StateOK, Partition, AllSpillable, KeysOK, NewsOK, Progress, CascadesOK, InterferenceFree,
        WellFormed;
    var calm := s4.(fixed := {}, stack := []);
    SettleStateOK(t, s1, s2, v, r, news);
    StageKeepsOK(t, s3.(fixed := {}, stack := []), calm);
    OKMeansFree(t, calm);
    SelectParts(t, s1, s2, v, r, news);
    SettlePartition(t, s1, s2, q0, q1, e0, v, r, news);
    SamePartition(s3, calm, q1, if r.Failed? then e0 + {v} else e0);
  }

  lemma LoopShrinks(t: Target, s1: State, s2: State, s3: State, s4: State, q0: set<VReg>, q1: set<VReg>,
                    v: VReg, r: Result, news: seq<VReg>)
    requires AllSpillable(t) && StateOK(t, s1) && v in q0
    requires SelectPost(t, s1, s2, v, r, news) && s3 == Settle(s2, v, r)
    requires s4 == s3.(stage := s4.stage) && s4.stage.Keys == s3.stage.Keys
    requires forall w :: w in s4.stage ==> StageStep(s3.stage[w], s4.stage[w])
    requires forall w :: w in q1 <==> (w in q0 && w != v) || w in news
    ensures Shrinks(t, s1, s4.(fixed := {}, stack := []), q0, q1)
  {
    hide SelectPost, StateOK, AllSpillable;
    LoopProgress(t, s1, s2, q0, q1, v, r, news);
    SettledMeasure(t, s2, s3, s4.(fixed := {}, stack := []));
  }

  lemma SettledMeasure(t: Target, s2: State, s3: State, s4: State)
    requires s3.cascade == s2.cascade == s4.cascade && s3.stage == s2.stage && s4.stage.Keys == s3.stage.Keys
    requires forall w :: w in s4.stage ==> StageStep(s3.stage[w], s4.stage[w])
    ensures Sum(CascadeSlack(t, s4)) == Sum(CascadeSlack(t, s2)) && Sum(StageSlack(s4)) <= Sum(StageSlack(s2))
  {
    assert CascadeSlack(t, s4) == CascadeSlack(t, s2);
    assert StageSlack(s3) == StageSlack(s2);
    StageSlackShrinks(s3, s4);
  }

  lemma SamePartition(s3: State, s4: State, q: set<VReg>, e: set<VReg>)
    requires Partition(s3, q, e) && s4.phys == s3.phys && s4.live == s3.live
    ensures Partition(s4, q, e)
  {}

  lemma OKMeansFree(t: Target, s: State)
    requires StateOK(t, s)
    ensures InterferenceFree(t, s.phys)
  {}

  lemma StageKeepsOK(t: Target, s0: State, s1: State)
    requires StateOK(t, s0) && s1 == s0.(stage := s1.stage) && s1.stage.Keys == s0.stage.Keys
    ensures StateOK(t, s1)
  {}

  // ---- the cases of SelectPost ----

  // Rounds that failed leave everything a swap depends on as it was, once all ranges are done.
  lemma RoomKept(t: Target, s0: State, s2: State, news: seq<VReg>, v: VReg, p: PReg, max: nat, exhaustive: bool)
    requires AllDone(t, s0) && Searching(t, s0, s2, v, news)
    requires s0.phys.Keys <= s0.stage.Keys && s2.phys.Keys <= s2.stage.Keys
    ensures MakesRoom(t, s0, v, p, max, exhaustive) ==> MakesRoom(t, s2, v, p, max, exhaustive)
  {
    SearchKeeps(t, s0, s2, v, news);
    hide *;
    hide MakesRoom;
    if MakesRoom(t, s0, v, p, max, exhaustive) {
      RoomParts(t, s0, v, p, max, exhaustive);
      RecolorAllKept(t, s0, s2, v, p, max, exhaustive);
      PartsRoom(t, s2, v, p, max, exhaustive);
    }
  }

  lemma SearchKeeps(t: Target, s0: State, s2: State, v: VReg, news: seq<VReg>)
    requires AllDone(t, s0) && Searching(t, s0, s2, v, news)
    ensures s2.phys == s0.phys && s2.stage == s0.stage && s2.fixed == s0.fixed + {v} && v !in s0.phys
  {
    FixedStateOK(t, s0, v);
    hide Frame, StateOK, AllDone;
    DoneUnchanged(t, s0.(fixed := s0.fixed + {v}), s2, news);
  }

  lemma RoomParts(t: Target, s: State, v: VReg, p: PReg, max: nat, exhaustive: bool)
    requires s.phys.Keys <= s.stage.Keys && MakesRoom(t, s, v, p, max, exhaustive)
    ensures !t.fixedInterference(v, p) && MayRecolorAll(t, s, v, p, max, exhaustive)
    ensures Easy(t, s.phys, v, p, Conflicts(t, s.phys, v, p))
  {
    hide MayRecolorAll, Easy, Conflicts;
  }

  lemma PartsRoom(t: Target, s: State, v: VReg, p: PReg, max: nat, exhaustive: bool)
    requires s.phys.Keys <= s.stage.Keys && !t.fixedInterference(v, p) && MayRecolorAll(t, s, v, p, max, exhaustive)
    requires Easy(t, s.phys, v, p, Conflicts(t, s.phys, v, p))
    ensures MakesRoom(t, s, v, p, max, exhaustive)
  {
    hide MayRecolorAll, Easy, Conflicts;
  }

  lemma FixedStateOK(t: Target, s: State, v: VReg)
    requires StateOK(t, s) && v in s.live
    ensures StateOK(t, s.(fixed := s.fixed + {v})) && (AllDone(t, s) ==> AllDone(t, s.(fixed := s.fixed + {v})))
  {
    hide InterferenceFree, Numbered;
  }

  // The search for v so far, from s0 on: v is fixed, nothing was found yet.
  ghost predicate Searching(t: Target, s0: State, s: State, v: VReg, news: seq<VReg>) {
    && StateOK(t, s0) && v in s0.live && v !in s0.phys && v in s.live && v !in s.phys
    && Frame(t, s0.(fixed := s0.fixed + {v}), s, {}, news)
    && s.stack == s0.stack && s.fixed == s0.fixed + {v}
  }

  lemma SearchBegins(t: Target, s0: State, v: VReg)
    requires StateOK(t, s0) && v in s0.live && v !in s0.phys
    ensures Searching(t, s0, s0.(fixed := s0.fixed + {v}), v, [])
  {
    hide Frame, StateOK;
    FixFrame(t, s0, v);
  }

  lemma SearchState(t: Target, s0: State, s: State, v: VReg, news: seq<VReg>)
    requires Searching(t, s0, s, v, news)
    ensures StateOK(t, s) && v in s.fixed && v in s.live && v !in s.phys && s.fixed == s0.fixed + {v}
    ensures s.stack == s0.stack && s.fixed <= t.vregs && s.phys.Keys <= s.stage.Keys
  {
    hide Frame, StateOK;
    FrameState(t, s0.(fixed := s0.fixed + {v}), s, {}, news);
  }

  lemma SearchGoesOn(t: Target, s0: State, s: State, s2: State, v: VReg, news: seq<VReg>, more: seq<VReg>)
    requires Searching(t, s0, s, v, news) && Frame(t, s, s2, {}, more) && v in s2.live && v !in s2.phys
    requires s2.stack == s.stack && s2.fixed == s.fixed
    ensures Searching(t, s0, s2, v, news + more)
  {
    FixedStateOK(t, s0, v);
    hide Frame, StateOK;
    FrameThen(t, s0.(fixed := s0.fixed + {v}), s, s2, news, more);
  }

  lemma SearchSucceeds(t: Target, s0: State, s: State, s2: State, v: VReg, p: PReg, news: seq<VReg>, more: seq<VReg>)
    requires Searching(t, s0, s, v, news) && Frame(t, s, s2, {}, more) && v in s2.live && v !in s2.phys
    requires p != 0 && FreeFor(t, s2.phys, v, p) && Ordered(t, v, p)
    ensures SelectPost(t, s0, s2, v, Reg(p), news + more)
  {
    hide Frame, StateOK, FreeFor, SelectPost, Ordered;
    var s1 := s0.(fixed := s0.fixed + {v});
    FixFrame(t, s0, v);
    FrameState(t, s0, s1, {v}, []);
    FrameThen(t, s1, s, s2, news, more);
    LastChancePost(t, s0, s1, s2, v, Reg(p), news + more);
  }

  lemma SearchFails(t: Target, s0: State, s: State, v: VReg, news: seq<VReg>)
    requires Searching(t, s0, s, v, news)
    ensures SelectPost(t, s0, s, v, Failed, news) && s.fixed == s0.fixed + {v}
  {
    hide Frame, StateOK, SelectPost;
    FixFrame(t, s0, v);
    LastChancePost(t, s0, s0.(fixed := s0.fixed + {v}), s, v, Failed, news);
  }

  lemma RecolorAllKept(t: Target, s0: State, s2: State, v: VReg, p: PReg, max: nat, exhaustive: bool)
    requires s0.phys.Keys <= s0.stage.Keys && v !in s0.phys
    requires s2.phys == s0.phys && s2.stage == s0.stage && s2.fixed == s0.fixed + {v}
    requires MayRecolorAll(t, s0, v, p, max, exhaustive)
    ensures MayRecolorAll(t, s2, v, p, max, exhaustive)
  {
    ConflictsKnown(t, s0.phys, v, p);
    hide Conflicts, Query;
  }

  lemma CandidatesLoose(t: Target, s: State, v: VReg, p: PReg, max: nat, exhaustive: bool)
    requires s.phys.Keys <= s.stage.Keys && MayRecolorAll(t, s, v, p, max, exhaustive)
    ensures Conflicts(t, s.phys, v, p) !! s.fixed
  {
    hide Query;
  }

  lemma DoneUnchanged(t: Target, s1: State, s2: State, news: seq<VReg>)
    requires StateOK(t, s1) && AllDone(t, s1) && Frame(t, s1, s2, {}, news) && s2.stack == s1.stack
    ensures s2.phys == s1.phys && s2.stage == s1.stage
  {
    hide *;
    FrameParts(t, s1, s2, {}, news);
    StateFacts(t, s1);
    DoneSettles(t, s1, s2, news);
    NothingPushed(s1, s2);
    SameAssignment(s1, s2);
  }

  lemma DoneSettles(t: Target, s1: State, s2: State, news: seq<VReg>)
    requires AllDone(t, s1) && Progress(t, s1, s2, news) && s1.stage.Keys == s2.stage.Keys
    ensures news == [] && s2.live == s1.live && s2.stage == s1.stage
  {
    hide AllSpillable;
    AllDoneStays(t, s1, s2, news);
  }

  lemma NothingPushed(s1: State, s2: State)
    requires s2.stack == s1.stack
    ensures forall w :: !Pushed(s1, s2, w)
  {}

  lemma SameAssignment(s1: State, s2: State)
    requires KeysOK(s1, s2, {}, []) && ValuesOK(s1, s2, {}) && s2.live == s1.live && s1.phys.Keys <= s1.live
    requires forall w :: !Pushed(s1, s2, w)
    ensures s2.phys == s1.phys
  {
    hide Pushed;
    assert s2.phys.Keys == s1.phys.Keys;
  }

  lemma FailedAtOnce(t: Target, s: State, v: VReg)
    requires StateOK(t, s) && v in s.live && v !in s.phys
    ensures SelectPost(t, s, s, v, Failed, [])
  {}

  lemma EvictedOrSame(t: Target, s0: State, s1: State, v: VReg, p: PReg, news: seq<VReg>)
    requires EvictPost(t, s0, s1, v, p, news) && v in s0.live && v !in s0.phys
    ensures p == 0 ==> s1 == s0
    ensures p != 0 ==> SelectPost(t, s0, s1, v, Reg(p), news)
  {
    FrameWeaken(t, s0, s1, {}, {v}, news);
    assert v !in news && v !in s1.phys && v in s1.live;
    hide Frame;
  }

  // An eviction gives nobody a register.
  lemma EvictsOnly(t: Target, s0: State, s1: State, v: VReg, p: PReg, news: seq<VReg>)
    requires EvictPost(t, s0, s1, v, p, news)
    ensures forall w :: w in s1.phys ==> w in s0.phys && s1.phys[w] == s0.phys[w]
  {
    FrameParts(t, s0, s1, {}, news);
    hide Frame, StateOK;
    NothingPushed(s0, s1);
  }

  lemma DeferredPost(t: Target, s: State, v: VReg, later: Stage)
    requires StateOK(t, s) && v in s.live && v !in s.phys && Rank(s.stage[v]) < Rank(later) && later != RSDone
    ensures SelectPost(t, s, s.(stage := s.stage[v := later]), v, NoReg, [v])
  {
    DeferredFrame(t, s, v, later);
    hide Frame, StateOK;
  }

  lemma DeferredFrame(t: Target, s: State, v: VReg, later: Stage)
    requires StateOK(t, s) && v in s.live && v !in s.phys && Rank(s.stage[v]) < Rank(later) && later != RSDone
    ensures v in s.stage && Frame(t, s, s.(stage := s.stage[v := later]), {v}, [v])
  {
    hide InterferenceFree, HasReserved, Ordered, MaySpill;
  }

  lemma SpilledPost(t: Target, s: State, v: VReg)
    requires StateOK(t, s) && v in s.live && v !in s.phys && MaySpill(t, s, v) && !HasReserved(t, s.phys, v)
    ensures SelectPost(t, s, s.(live := s.live - {v}), v, NoReg, [])
  {
    SpilledFrame(t, s, v);
    hide Frame, StateOK;
  }

  lemma SpilledFrame(t: Target, s: State, v: VReg)
    requires StateOK(t, s) && v in s.live && v !in s.phys && MaySpill(t, s, v) && !HasReserved(t, s.phys, v)
    ensures Frame(t, s, s.(live := s.live - {v}), {v}, [])
  {
    hide InterferenceFree, HasReserved, Ordered;
  }

  lemma LastChancePost(t: Target, s0: State, s1: State, s2: State, v: VReg, r: Result, news: seq<VReg>)
    requires StateOK(t, s0) && Frame(t, s0, s1, {v}, []) && Frame(t, s1, s2, {}, news) && v !in s1.phys && v !in s0.phys
    requires v in s2.live && v !in s2.phys && v in s1.fixed && s1.fixed == s0.fixed + {v} && s1.stack == s0.stack
    requires r.Reg? ==> r.p != 0 && FreeFor(t, s2.phys, v, r.p) && Ordered(t, v, r.p)
    requires r.Failed? ==> s2.stack == s1.stack && s2.fixed == s1.fixed
    requires !r.NoReg?
    ensures SelectPost(t, s0, s2, v, r, news)
  {
    FixedCompose(t, s0, s1, s2, v, news);
  }

  // ---- the queue of a recoloring round ----

  ghost predicate QueueInv(s: State, queue: set<VReg>, done: set<VReg>) {
    && done <= queue
    && (forall w :: w in done && w in s.phys ==> w in s.fixed)
    && (forall w :: w in done && w in s.live ==> w in s.phys)
    && (forall w :: w in queue && w !in done ==> w in s.live && w !in s.phys && w !in s.fixed)
  }

  lemma QueueStep(t: Target, s0: State, s1: State, s2: State, queue: set<VReg>, done: set<VReg>, x: VReg,
                  r: Result, news: seq<VReg>, more: seq<VReg>)
    requires WellFormed(t) && StateOK(t, s0) && Frame(t, s0, s1, done, news) && QueueInv(s1, queue, done)
    requires queue !! s0.phys.Keys && x in queue && x !in done && SelectPost(t, s1, s2, x, r, more)
    ensures Frame(t, s0, s2, done + {x}, news + more)
    ensures r.NoReg? && x !in s2.live ==> QueueInv(s2, queue, done + {x})
    ensures x !in s2.phys
    ensures r.Reg? ==> Frame(t, s0, Place(s2, x, r.p), done + {x}, news + more)
                       && QueueInv(Place(s2, x, r.p), queue, done + {x})
  {
    hide StateOK, Frame, SelectPost;
    SelectFacts(t, s1, s2, x, r, more);
    FrameCompose(t, s0, s1, s2, done, {x}, news, more);
    QueueRest(t, s1, s2, queue, done, x, r, more);
    if r.Reg? {
      NotHandedBack(t, s0, s1, done, news, x);
      FramePlace(t, s0, s2, done + {x}, news + more, x, r.p);
    }
  }

  lemma SelectFacts(t: Target, s1: State, s2: State, x: VReg, r: Result, more: seq<VReg>)
    requires SelectPost(t, s1, s2, x, r, more)
    ensures Frame(t, s1, s2, {x}, more) && x !in s2.phys
    ensures r.Reg? ==> x in s2.live && x !in more && FreeFor(t, s2.phys, x, r.p) && Ordered(t, x, r.p)
  {
    hide Ordered;
  }

  // How the queue still fits after some of its ranges were given registers.
  ghost predicate FitsNow(t: Target, phys: Assignment, queue: set<VReg>, done: set<VReg>) {
    queue == {} || (exists w :: queue == {w} && (w in done || HasFree(t, phys, w))) || Roomy(t, phys, queue, done)
  }

  lemma FitsBegins(t: Target, phys: Assignment, queue: set<VReg>)
    ensures Fits(t, phys, queue) ==> FitsNow(t, phys, queue, {})
  {
    hide HasFree, Roomy;
  }

  lemma FitsStep(t: Target, s1: State, s2: State, queue: set<VReg>, done: set<VReg>, x: VReg, r: Result,
        more: seq<VReg>)
    requires WellFormed(t) && FitsNow(t, s1.phys, queue, done) && x in queue && x !in done
    requires SelectPost(t, s1, s2, x, r, more) && (HasFree(t, s1.phys, x) ==> r.Reg?)
    requires HasFree(t, s1.phys, x) ==> forall w :: w in s2.phys ==> w in s1.phys && s2.phys[w] == s1.phys[w]
    ensures r.Reg? && FitsNow(t, Place(s2, x, r.p).phys, queue, done + {x})
  {
    hide SelectPost, HasFree, WellFormed;
    if Roomy(t, s1.phys, queue, done) {
      assert HasRoom(t, s1.phys, x, queue);
      RoomIsFree(t, s1.phys, x, queue);
      SelectFacts(t, s1, s2, x, r, more);
      hide Roomy;
      RoomyStays(t, s1.phys, Place(s2, x, r.p).phys, x, r.p, queue, done);
    }
  }

  lemma NotHandedBack(t: Target, s0: State, s1: State, done: set<VReg>, news: seq<VReg>, x: VReg)
    requires Frame(t, s0, s1, done, news) && x !in done && x !in s0.phys
    ensures x !in news
  {}

  lemma QueueBegins(s: State, queue: set<VReg>)
    requires queue <= s.live && queue !! s.phys.Keys && queue !! s.fixed
    ensures QueueInv(s, queue, {})
  {}

  lemma QueueWaits(s: State, queue: set<VReg>, done: set<VReg>, x: VReg)
    requires QueueInv(s, queue, done) && x in queue && x !in done
    ensures x in s.live && x !in s.phys && x !in s.fixed
  {}

  lemma QueueEnds(s: State, queue: set<VReg>)
    requires QueueInv(s, queue, queue)
    ensures forall w :: w in queue && w in s.live ==> w in s.phys
  {}

  lemma QueueRest(t: Target, s1: State, s2: State, queue: set<VReg>, done: set<VReg>, x: VReg, r: Result,
        more: seq<VReg>)
    requires QueueInv(s1, queue, done) && x in queue && x !in done && SelectPost(t, s1, s2, x, r, more)
    ensures forall w :: w in done && w in s2.phys ==> w in s2.fixed
    ensures forall w :: w in done && w in s2.live ==> w in s2.phys
    ensures forall w :: w in queue && w !in done && w != x ==> w in s2.live && w !in s2.phys && w !in s2.fixed
  {}

  lemma FrameState(t: Target, s0: State, s1: State, touched: set<VReg>, news: seq<VReg>)
    requires Frame(t, s0, s1, touched, news)
    ensures StateOK(t, s1) && s0.fixed <= s1.fixed
    ensures s1.phys.Keys <= s1.live <= t.vregs && s1.fixed <= t.vregs && s1.stage.Keys == t.vregs
  {}

  lemma RecordedSplit(stack: seq<(VReg, PReg)>, a: nat, b: nat, c: nat, w: VReg)
    requires a <= b <= c <= |stack|
    ensures Recorded(stack, a, c, w) <==> Recorded(stack, a, b, w) || Recorded(stack, b, c, w)
    ensures b == a + 1 ==> (Recorded(stack, a, b, w) <==> stack[a].0 == w)
    ensures c == b + 1 ==> (Recorded(stack, b, c, w) <==> stack[b].0 == w)
  {}

  lemma RecordedOnce(stack: seq<(VReg, PReg)>, n: nat, i: nat)
    requires DistinctStack(stack) && n <= i < |stack|
    ensures Recorded(stack, n, |stack|, stack[i].0) && !Recorded(stack, n, i, stack[i].0)
  {}

  lemma StateFacts(t: Target, s: State)
    requires StateOK(t, s)
    ensures s.phys.Keys <= s.live <= t.vregs && s.fixed <= t.vregs && s.stage.Keys == t.vregs
              && s.cascade.Keys == t.vregs
    ensures DistinctStack(s.stack)
  {}

  lemma FixFrame(t: Target, s: State, v: VReg)
    requires StateOK(t, s) && v in s.live && v !in s.phys
    ensures Frame(t, s, s.(fixed := s.fixed + {v}), {v}, [])
    ensures Frame(t, s.(fixed := s.fixed + {v}), s.(fixed := s.fixed + {v}), {}, [])
  {}

  lemma FixedCompose(t: Target, s0: State, s1: State, s2: State, v: VReg, news: seq<VReg>)
    requires StateOK(t, s0) && Frame(t, s0, s1, {v}, []) && Frame(t, s1, s2, {}, news)
    requires v !in s1.phys
    ensures Frame(t, s0, s2, {v}, news)
  {
    hide Frame, StateOK;
    FrameCompose(t, s0, s1, s2, {v}, {}, [], news);
    assert {v} + {} == {v} && [] + news == news;
  }

  lemma FrameThen(t: Target, s0: State, s1: State, s2: State, n1: seq<VReg>, n2: seq<VReg>)
    requires StateOK(t, s0) && Frame(t, s0, s1, {}, n1) && Frame(t, s1, s2, {}, n2)
    ensures Frame(t, s0, s2, {}, n1 + n2)
  {
    hide Frame, StateOK;
    var none: set<VReg> := {};
    FrameCompose(t, s0, s1, s2, none, none, n1, n2);
    assert none + none == none;
  }
}
