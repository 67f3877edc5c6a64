// The window search of local live range splitting.
module LocalSplit {
  import opened Collections

  // Weights are compared with hysteresis.
  function Damped(x: real): real { x * 2007.0 / 2048.0 }

  // Split before use number `before` and after use number `after`.
  datatype Window = Window(before: nat, after: nat)

  datatype Best = Best(window: Option<Window>, diff: real)

  // A local range of numGaps + 1 instructions; est is the estimated spill
  // weight of the new range, huge the weight that nothing can evict.
  datatype Problem = Problem(numGaps: nat, liveIn: bool, liveOut: bool, progressRequired: bool,
                             est: (nat, nat) -> real, huge: real)

  ghost predicate GapsOK(p: Problem, gaps: seq<real>) {
    |gaps| == p.numGaps && forall i :: 0 <= i < |gaps| ==> 0.0 <= gaps[i]
  }

  ghost predicate InBounds(p: Problem, w: Window) { w.before < w.after <= p.numGaps }

  function Max(x: real, y: real): real { if x < y then y else x }

  // The largest of gaps[b..a].
  function MaxGap(gaps: seq<real>, b: nat, a: nat): (m: real)
    requires b < a <= |gaps|
    ensures forall i :: b <= i < a ==> gaps[i] <= m
    ensures exists i :: b <= i < a && gaps[i] == m
    decreases a
  {
    if a == b + 1 then gaps[b] else Max(MaxGap(gaps, b, a - 1), gaps[a - 1])
  }

  predicate LiveBefore(p: Problem, w: Window) { w.before != 0 || p.liveIn }

  predicate LiveAfter(p: Problem, w: Window) { w.after != p.numGaps || p.liveOut }

  function NewGaps(p: Problem, w: Window): int {
    (if LiveBefore(p, w) then 1 else 0) + w.after - w.before + (if LiveAfter(p, w) then 1 else 0)
  }

  predicate Whole(p: Problem, w: Window) { !LiveBefore(p, w) && !LiveAfter(p, w) }

  predicate Legal(p: Problem, w: Window) { p.progressRequired ==> NewGaps(p, w) < p.numGaps }

  // The new range would evict everything in the gaps it closes.
  predicate Fits(p: Problem, gaps: seq<real>, w: Window)
    requires w.before < w.after <= |gaps|
  {
    var m := MaxGap(gaps, w.before, w.after);
    Legal(p, w) && m < p.huge && Damped(p.est(w.before, w.after)) >= m
  }

  function Gain(p: Problem, gaps: seq<real>, w: Window): real
    requires w.before < w.after <= |gaps|
  {
    p.est(w.before, w.after) - MaxGap(gaps, w.before, w.after)
  }

  function Consider(p: Problem, gaps: seq<real>, w: Window, best: Best): Best
    requires w.before < w.after <= |gaps|
  {
    if !Whole(p, w) && Fits(p, gaps, w) && Gain(p, gaps, w) > best.diff then Best(Some(w), Damped(Gain(p, gaps, w)))
    else best
  }

  // A window that fits is extended, one that does not is shrunk; an empty one
  // moves on to the next gap.
  function Next(p: Problem, gaps: seq<real>, w: Window): (n: Option<Window>)
    requires InBounds(p, w) && |gaps| == p.numGaps
    ensures n.Some? ==> InBounds(p, n.value) && w.before + w.after < n.value.before + n.value.after
  {
    if Whole(p, w) then None
    else if !Fits(p, gaps, w) && w.before + 1 < w.after then Some(Window(w.before + 1, w.after))
    else if w.after >= p.numGaps then None
    else if Fits(p, gaps, w) then Some(Window(w.before, w.after + 1))
    else Some(Window(w.before + 1, w.after + 1))
  }

  // The windows examined for one register, in order, up to the present one.
  ghost predicate Sweep(p: Problem, gaps: seq<real>, ws: seq<Window>) {
    && |gaps| == p.numGaps && |ws| > 0 && ws[0] == Window(0, 1)
    && (forall k :: 0 <= k < |ws| ==> InBounds(p, ws[k]))
    && (forall k :: 0 <= k < |ws| - 1 ==> Next(p, gaps, ws[k]) == Some(ws[k + 1]))
  }

  function BestOf(p: Problem, gaps: seq<real>, ws: seq<Window>, best: Best): Best
    requires forall k :: 0 <= k < |ws| ==> ws[k].before < ws[k].after <= |gaps|
  {
    if ws == [] then best
    else Consider(p, gaps, ws[|ws| - 1], BestOf(p, gaps, ws[..|ws| - 1], best))
  }

  // Each move takes the window's ends further, so there are fewer than 2 numGaps of them.
  lemma {:induction false} MovesBounded(p: Problem, gaps: seq<real>, ws: seq<Window>)
    requires Sweep(p, gaps, ws)
    ensures |ws| <= ws[|ws| - 1].before + ws[|ws| - 1].after < 2 * p.numGaps
  {
    if |ws| > 1 {
      MovesBounded(p, gaps, ws[..|ws| - 1]);
      assert Next(p, gaps, ws[|ws| - 2]) == Some(ws[|ws| - 1]);
    }
  }

  // Dropping a gap below the maximum leaves the maximum.
  lemma {:induction false} ShrinkKeepsMax(gaps: seq<real>, b: nat, a: nat)
    requires b + 1 < a <= |gaps| && gaps[b] < MaxGap(gaps, b, a)
    ensures MaxGap(gaps, b + 1, a) == MaxGap(gaps, b, a)
  {
    var m, n := MaxGap(gaps, b, a), MaxGap(gaps, b + 1, a);
    var i :| b <= i < a && gaps[i] == m;
    var j :| b + 1 <= j < a && gaps[j] == n;
    assert gaps[i] <= n && gaps[j] <= m;
  }

  lemma ExtendMax(gaps: seq<real>, b: nat, a: nat)
    requires b <= a < |gaps|
    ensures MaxGap(gaps, b, a + 1) == if b < a then Max(MaxGap(gaps, b, a), gaps[a]) else gaps[a]
  {
  }

  method Recompute(gaps: seq<real>, b: nat, a: nat) returns (m: real)
    requires b < a <= |gaps|
    ensures m == MaxGap(gaps, b, a)
  {
    m := gaps[b];
    var i := b + 1;
    while i != a
      invariant b < i <= a && m == MaxGap(gaps, b, i)
    {
      m := Max(m, gaps[i]);
      i := i + 1;
    }
  }

  lemma SweepStart(p: Problem, gaps: seq<real>, best0: Best)
    requires GapsOK(p, gaps) && p.numGaps > 0
    ensures Sweep(p, gaps, [Window(0, 1)]) && BestOf(p, gaps, [], best0) == best0 && MaxGap(gaps, 0, 1) == gaps[0]
  {
  }

  lemma BestOfLast(p: Problem, gaps: seq<real>, ws: seq<Window>, best: Best)
    requires ws != [] && forall k :: 0 <= k < |ws| ==> ws[k].before < ws[k].after <= |gaps|
    ensures BestOf(p, gaps, ws, best) == Consider(p, gaps, ws[|ws| - 1], BestOf(p, gaps, ws[..|ws| - 1], best))
  {
  }

  lemma SweepMore(p: Problem, gaps: seq<real>, ws: seq<Window>, w: Window)
    requires Sweep(p, gaps, ws) && Next(p, gaps, ws[|ws| - 1]) == Some(w)
    ensures Sweep(p, gaps, ws + [w]) && (ws + [w])[..|ws|] == ws
  {
    hide Fits, Whole;
  }

  // Should the window be extended or shrunk, and is it the best so far?
  method Judge(p: Problem, gaps: seq<real>, w: Window, maxGap: real, best0: Best)
        returns (whole: bool, shrink: bool, best: Best)
    requires w.before < w.after <= |gaps| && maxGap == MaxGap(gaps, w.before, w.after)
    ensures whole <==> Whole(p, w)
    ensures shrink <==> whole || !Fits(p, gaps, w)
    ensures best == Consider(p, gaps, w, best0)
  {
    hide MaxGap, Damped;
    best, shrink := best0, true;
    var liveBefore := w.before != 0 || p.liveIn;
    var liveAfter := w.after != p.numGaps || p.liveOut;
    whole := !liveBefore && !liveAfter;
    if whole { return; }
    var newGaps := (if liveBefore then 1 else 0) + w.after - w.before + (if liveAfter then 1 else 0);
    var legal := !p.progressRequired || newGaps < p.numGaps;
    if legal && maxGap < p.huge {
      var estWeight := p.est(w.before, w.after);
      if Damped(estWeight) >= maxGap {
        shrink := false;
        var diff := estWeight - maxGap;
        if diff > best.diff { best := Best(Some(w), Damped(diff)); }
      }
    }
  }

  // All windows from w on to the end of the sweep.
  ghost function WindowsFrom(p: Problem, gaps: seq<real>, w: Window): (ws: seq<Window>)
    requires InBounds(p, w) && |gaps| == p.numGaps
    ensures forall k :: 0 <= k < |ws| ==> InBounds(p, ws[k])
    decreases 2 * p.numGaps - w.before - w.after
  {
    if Next(p, gaps, w) == None then [w] else [w] + WindowsFrom(p, gaps, Next(p, gaps, w).value)
  }

  lemma {:induction false} SweptIsWindows(p: Problem, gaps: seq<real>, ws: seq<Window>, k: nat)
    requires SweptToEnd(p, gaps, ws) && k < |ws|
    ensures InBounds(p, ws[k]) && ws[k..] == WindowsFrom(p, gaps, ws[k])
    decreases |ws| - k
  {
    hide Fits, Whole;
    if k < |ws| - 1 {
      SweptIsWindows(p, gaps, ws, k + 1);
      assert Next(p, gaps, ws[k]) == Some(ws[k + 1]);
    }
    assert ws[k..] == [ws[k]] + ws[k + 1..];
  }

  // The sweep is determined by the gaps.
  lemma SweptWindows(p: Problem, gaps: seq<real>, ws: seq<Window>)
    requires SweptToEnd(p, gaps, ws)
    ensures InBounds(p, Window(0, 1)) && ws == WindowsFrom(p, gaps, Window(0, 1))
  {
    hide Next;
    SweptIsWindows(p, gaps, ws, 0);
    assert ws[0..] == ws;
  }

  // One register: slide the window over the gaps.
  method SweepRegister(p: Problem, gaps: seq<real>, best0: Best) returns (best: Best, ghost ws: seq<Window>)
    requires GapsOK(p, gaps) && p.numGaps > 0
    ensures SweptToEnd(p, gaps, ws)
    ensures best == BestOf(p, gaps, ws, best0)
    ensures best == BestOf(p, gaps, WindowsFrom(p, gaps, Window(0, 1)), best0)
  {
    hide Sweep, MaxGap, BestOf, Fits, Whole, Consider, WindowsFrom;
    best := best0;
    var splitBefore: nat, splitAfter: nat := 0, 1;
    var maxGap := gaps[0];
    ws := [Window(0, 1)];
    SweepStart(p, gaps, best0);
    while true
      invariant splitBefore < splitAfter <= p.numGaps && maxGap == MaxGap(gaps, splitBefore, splitAfter)
      invariant |ws| > 0 && Sweep(p, gaps, ws) && (forall k :: 0 <= k < |ws| ==> InBounds(p, ws[k]))
                  && ws[|ws| - 1] == Window(splitBefore, splitAfter)
      invariant best == BestOf(p, gaps, ws[..|ws| - 1], best0)
      decreases 2 * p.numGaps - splitBefore - splitAfter
    {
      BestOfLast(p, gaps, ws, best0);
      var whole, shrink, next := Judge(p, gaps, Window(splitBefore, splitAfter), maxGap, best);
      best := next;
      // A window over the whole range would be no split at all.
      if whole { break; }
      if shrink {
        splitBefore := splitBefore + 1;
        if splitBefore < splitAfter {
          // The maximum only changes when the gap dropped was as large.
          if gaps[splitBefore - 1] >= maxGap {
            maxGap := Recompute(gaps, splitBefore, splitAfter);
          } else {
            ShrinkKeepsMax(gaps, splitBefore - 1, splitAfter);
          }
          SweepMore(p, gaps, ws, Window(splitBefore, splitAfter));
          ws := ws + [Window(splitBefore, splitAfter)];
          continue;
        }
        maxGap := 0.0;
      }
      if splitAfter >= p.numGaps { break; }
      ExtendMax(gaps, splitBefore, splitAfter);
      maxGap := Max(maxGap, gaps[splitAfter]);
      splitAfter := splitAfter + 1;
      SweepMore(p, gaps, ws, Window(splitBefore, splitAfter));
      ws := ws + [Window(splitBefore, splitAfter)];
    }
    SweptWindows(p, gaps, ws);
  }

  // ---- what the chosen window is worth ----

  // From number `from` on, no window that fits gains more than d.
  ghost predicate NoneGains(p: Problem, gaps: seq<real>, ws: seq<Window>, from: int, d: real) {
    forall j :: from <= j < |ws| && 0 <= j && ws[j].before < ws[j].after <= |gaps| ==>
      !Whole(p, ws[j]) && Fits(p, gaps, ws[j]) ==> Gain(p, gaps, ws[j]) <= d
  }

  // Window k was chosen: it fits, gains something, and later ones gain no more
  // than the chosen gain less the hysteresis.
  ghost predicate Chosen(p: Problem, gaps: seq<real>, ws: seq<Window>, k: nat, best: Best) {
    && k < |ws| && ws[k].before < ws[k].after <= |gaps|
    && best == Best(Some(ws[k]), Damped(Gain(p, gaps, ws[k]))) && !Whole(p, ws[k]) && Fits(p, gaps, ws[k])
    && NoneGains(p, gaps, ws, k + 1, best.diff)
  }

  ghost predicate SomeChosen(p: Problem, gaps: seq<real>, ws: seq<Window>, best: Best) {
    exists k: nat :: Chosen(p, gaps, ws, k, best)
  }

  // Either the best so far stands against all windows of the sweep, or one of them replaced it.
  lemma {:induction false} BestIsOneOf(p: Problem, gaps: seq<real>, ws: seq<Window>, best: Best)
    requires forall k :: 0 <= k < |ws| ==> ws[k].before < ws[k].after <= |gaps|
    ensures var r := BestOf(p, gaps, ws, best);
            (r == best && NoneGains(p, gaps, ws, 0, best.diff)) || SomeChosen(p, gaps, ws, r)
  {
    if ws == [] {
      assert NoneGains(p, gaps, ws, 0, best.diff);
    } else {
      var rest := ws[..|ws| - 1];
      var r := BestOf(p, gaps, ws, best);
      BestIsOneOf(p, gaps, rest, best);
      var before := BestOf(p, gaps, rest, best);
      assert r == Consider(p, gaps, ws[|ws| - 1], before);
      hide SomeChosen, NoneGains, Consider, BestOf;
      if SomeChosen(p, gaps, rest, before) {
        StillChosen(p, gaps, ws, before);
      } else {
        StillNone(p, gaps, ws, best);
      }
    }
  }

  lemma StillChosen(p: Problem, gaps: seq<real>, ws: seq<Window>, before: Best)
    requires ws != [] && forall k :: 0 <= k < |ws| ==> ws[k].before < ws[k].after <= |gaps|
    requires SomeChosen(p, gaps, ws[..|ws| - 1], before)
    ensures SomeChosen(p, gaps, ws, Consider(p, gaps, ws[|ws| - 1], before))
  {
    hide Fits, Gain, MaxGap, Damped, Whole;
    var k: nat :| Chosen(p, gaps, ws[..|ws| - 1], k, before);
    var r := Consider(p, gaps, ws[|ws| - 1], before);
    if Chosen(p, gaps, ws, k, r) {
    } else {
      assert Chosen(p, gaps, ws, |ws| - 1, r);
    }
  }

  lemma StillNone(p: Problem, gaps: seq<real>, ws: seq<Window>, best: Best)
    requires ws != [] && forall k :: 0 <= k < |ws| ==> ws[k].before < ws[k].after <= |gaps|
    requires NoneGains(p, gaps, ws[..|ws| - 1], 0, best.diff)
    ensures var r := Consider(p, gaps, ws[|ws| - 1], best);
            (r == best && NoneGains(p, gaps, ws, 0, best.diff)) || SomeChosen(p, gaps, ws, r)
  {
    hide Fits, Gain, MaxGap, Damped, Whole;
    assert forall j :: 0 <= j < |ws| - 1 ==> ws[..|ws| - 1][j] == ws[j];
    var r := Consider(p, gaps, ws[|ws| - 1], best);
    if NoneGains(p, gaps, ws, 0, best.diff) {
    } else {
      assert Chosen(p, gaps, ws, |ws| - 1, r);
    }
  }

  // ---- gaps that contain a register mask ----

  // A mask on one of the two uses counts, except on the last use of all.
  ghost predicate MaskInGap(uses: seq<int>, masks: seq<int>, g: nat)
    requires g + 1 < |uses|
  {
    exists m :: m in masks && uses[g] <= m <= uses[g + 1] && !(g + 2 == |uses| && m == uses[g + 1])
  }

  ghost predicate Ascending(s: seq<int>) {
    forall i, j :: 0 <= i < j < |s| ==> s[i] < s[j]
  }

  // One pass over the gaps and over the masks of the block, by instruction number.
  method FindRegMaskGaps(uses: seq<int>, masks: seq<int>) returns (gaps: seq<nat>)
    requires Ascending(uses) && Ascending(masks) && |uses| > 1
    ensures forall g: nat :: g in gaps <==> g + 1 < |uses| && MaskInGap(uses, masks, g)
  {
    hide MaskInGap;
    var numGaps := |uses| - 1;
    gaps := [];
    var ri := 0;
    while ri < |masks| && masks[ri] < uses[0]
      invariant 0 <= ri <= |masks| && forall j :: 0 <= j < ri ==> masks[j] < uses[0]
    {
      ri := ri + 1;
    }
    var i: nat := 0;
    while i != numGaps && ri != |masks|
      invariant i <= numGaps && ri <= |masks|
      invariant forall j :: 0 <= j < ri ==> masks[j] < uses[i]
      invariant ri < |masks| ==> uses[i] <= masks[ri]
      invariant forall g: nat :: g in gaps <==> g < i && MaskInGap(uses, masks, g)
      decreases numGaps - i
    {
      GapHasMask(uses, masks, i, ri);
      if uses[i + 1] < masks[ri] {
        i := i + 1;
        continue;
      }
      // A clobber by the very last use is after the range's end.
      if uses[i + 1] == masks[ri] && i + 1 == numGaps {
        i := i + 1;
        break;
      }
      gaps := gaps + [i];
      // A mask at the end of this gap is looked at again for the next one.
      while ri != |masks| && masks[ri] < uses[i + 1]
        invariant ri <= |masks|
        invariant forall j :: 0 <= j < ri ==> masks[j] < uses[i + 1]
      {
        ri := ri + 1;
      }
      i := i + 1;
    }
    if i != numGaps { NoMaskLeft(uses, masks, i); }
  }

  // The first mask not before the gap decides.
  lemma GapHasMask(uses: seq<int>, masks: seq<int>, g: nat, ri: nat)
    requires Ascending(masks) && g + 1 < |uses| && ri < |masks| && uses[g] <= masks[ri]
    requires forall j :: 0 <= j < ri ==> masks[j] < uses[g]
    ensures MaskInGap(uses, masks, g) <==> masks[ri] <= uses[g + 1] && !(masks[ri] == uses[g + 1] && g + 2 == |uses|)
  {
    if masks[ri] <= uses[g + 1] && !(masks[ri] == uses[g + 1] && g + 2 == |uses|) {
      assert masks[ri] in masks;
    }
  }

  lemma NoMaskLeft(uses: seq<int>, masks: seq<int>, from: nat)
    requires Ascending(uses) && from + 1 < |uses| && forall j :: 0 <= j < |masks| ==> masks[j] < uses[from]
    ensures forall g: nat :: from <= g && g + 1 < |uses| ==> !MaskInGap(uses, masks, g)
  {
    forall g: nat, m | from <= g && g + 1 < |uses| && m in masks ensures m < uses[g] {
      assert uses[from] <= uses[g];
    }
  }

  // ---- the whole search ----

  // A register of the allocation order: what it would take to evict in each
  // gap, and whether the masks clobber it.
  datatype Register = Register(weights: seq<real>, clobbered: bool)

  ghost predicate OrderOK(p: Problem, order: seq<Register>) {
    p.huge >= 0.0 && forall r :: 0 <= r < |order| ==> GapsOK(p, order[r].weights)
  }

  // Nothing can be evicted from a gap with a mask that clobbers the register.
  function GapWeights(p: Problem, r: Register, masked: seq<nat>): seq<real> {
    if r.clobbered then seq(|r.weights|, i requires 0 <= i < |r.weights| => if i in masked then p.huge
        else r.weights[i])
    else r.weights
  }

  function AllGapWeights(p: Problem, order: seq<Register>, masked: seq<nat>): seq<seq<real>> {
    seq(|order|, i requires 0 <= i < |order| => GapWeights(p, order[i], masked))
  }

  // Every register was swept to its end.
  ghost predicate AllSwept(p: Problem, order: seq<seq<real>>, sweeps: seq<seq<Window>>) {
    |sweeps| <= |order| && forall r :: 0 <= r < |sweeps| ==> SweptToEnd(p, order[r], sweeps[r])
  }

  ghost predicate SweptToEnd(p: Problem, gaps: seq<real>, ws: seq<Window>) {
    Sweep(p, gaps, ws) && Next(p, gaps, ws[|ws| - 1]) == None
  }

  lemma SweptWithin(p: Problem, order: seq<seq<real>>, sweeps: seq<seq<Window>>, r: nat)
    requires AllSwept(p, order, sweeps) && r < |sweeps|
    ensures forall k :: 0 <= k < |sweeps[r]| ==> sweeps[r][k].before < sweeps[r][k].after <= |order[r]|
  {
    assert SweptToEnd(p, order[r], sweeps[r]);
  }

  // The best window after one register after the other.
  ghost function Searched(p: Problem, order: seq<seq<real>>, sweeps: seq<seq<Window>>): Best
    requires AllSwept(p, order, sweeps)
  {
    if sweeps == [] then Best(None, 0.0)
    else
      var n := |sweeps| - 1;
      SweptWithin(p, order, sweeps, n);
      BestOf(p, order[n], sweeps[n], Searched(p, order, sweeps[..n]))
  }

  lemma SearchedMore(p: Problem, order: seq<seq<real>>, sweeps: seq<seq<Window>>, ws: seq<Window>)
    requires |sweeps| < |order| && AllSwept(p, order, sweeps) && AllSwept(p, order, sweeps + [ws])
    ensures forall k :: 0 <= k < |ws| ==> ws[k].before < ws[k].after <= |order[|sweeps|]|
    ensures Searched(p, order, sweeps + [ws]) == BestOf(p, order[|sweeps|], ws, Searched(p, order, sweeps))
  {
    hide SweptToEnd, BestOf;
    SweptWithin(p, order, sweeps + [ws], |sweeps|);
    assert (sweeps + [ws])[|sweeps|] == ws;
    assert (sweeps + [ws])[..|sweeps|] == sweeps;
  }

  ghost predicate NoneGainsFrom(p: Problem, order: seq<seq<real>>, sweeps: seq<seq<Window>>, r: nat, d: real) {
    |sweeps| <= |order| && forall s :: r <= s < |sweeps| ==> NoneGains(p, order[s], sweeps[s], 0, d)
  }

  // The window was chosen for some register, and nothing looked at later gains more than is kept.
  ghost predicate ChosenFor(p: Problem, order: seq<seq<real>>, sweeps: seq<seq<Window>>, r: nat, best: Best) {
    && r < |sweeps| <= |order| && SomeChosen(p, order[r], sweeps[r], best)
    && NoneGainsFrom(p, order, sweeps, r + 1, best.diff)
  }

  // Nothing is chosen only if no window that fits gains anything.
  ghost predicate Justified(p: Problem, order: seq<seq<real>>, sweeps: seq<seq<Window>>, best: Best) {
    if best.window.None? then best.diff == 0.0 && NoneGainsFrom(p, order, sweeps, 0, 0.0)
    else exists r: nat :: ChosenFor(p, order, sweeps, r, best)
  }

  lemma JustifiedMore(p: Problem, order: seq<seq<real>>, sweeps: seq<seq<Window>>, best: Best, ws: seq<Window>,
        next: Best)
    requires |sweeps| < |order| && Justified(p, order, sweeps, best)
    requires forall k :: 0 <= k < |ws| ==> ws[k].before < ws[k].after <= |order[|sweeps|]|
    requires next == BestOf(p, order[|sweeps|], ws, best)
    ensures Justified(p, order, sweeps + [ws], next)
  {
    var n := |sweeps|;
    BestIsOneOf(p, order[n], ws, best);
    hide NoneGains, BestOf, SomeChosen, Fits, Gain, Whole, MaxGap, Consider, NoneGainsFrom;
    if SomeChosen(p, order[n], ws, next) {
      NewlyChosen(p, order, sweeps, ws, next);
    } else if best.window.Some? {
      var r: nat :| ChosenFor(p, order, sweeps, r, best);
      StillChosenFor(p, order, sweeps, ws, r, best);
    } else {
      NoneGainsMore(p, order, sweeps, ws, 0, 0.0);
    }
  }

  lemma NoneGainsMore(p: Problem, order: seq<seq<real>>, sweeps: seq<seq<Window>>, ws: seq<Window>, r: nat, d: real)
    requires |sweeps| < |order| && NoneGainsFrom(p, order, sweeps, r, d) && NoneGains(p, order[|sweeps|], ws, 0, d)
    ensures NoneGainsFrom(p, order, sweeps + [ws], r, d)
  {
    hide NoneGains;
  }

  lemma NewlyChosen(p: Problem, order: seq<seq<real>>, sweeps: seq<seq<Window>>, ws: seq<Window>, next: Best)
    requires |sweeps| < |order| && SomeChosen(p, order[|sweeps|], ws, next)
    ensures ChosenFor(p, order, sweeps + [ws], |sweeps|, next) && next.window.Some?
  {
    var k: nat :| Chosen(p, order[|sweeps|], ws, k, next);
    hide NoneGains, Fits, Gain, Whole, Chosen, SomeChosen;
    assert (sweeps + [ws])[|sweeps|] == ws;
  }

  lemma StillChosenFor(p: Problem, order: seq<seq<real>>, sweeps: seq<seq<Window>>, ws: seq<Window>, r: nat, best: Best)
    requires |sweeps| < |order| && ChosenFor(p, order, sweeps, r, best)
             && NoneGains(p, order[|sweeps|], ws, 0, best.diff)
    ensures ChosenFor(p, order, sweeps + [ws], r, best)
  {
    hide NoneGains, SomeChosen;
    NoneGainsMore(p, order, sweeps, ws, r + 1, best.diff);
    assert (sweeps + [ws])[r] == sweeps[r];
  }

  method MaskGaps(p: Problem, r: Register, masked: seq<nat>) returns (gaps: seq<real>)
    requires forall g :: g in masked ==> g < |r.weights|
    ensures gaps == GapWeights(p, r, masked)
  {
    gaps := r.weights;
    if r.clobbered {
      var i := 0;
      while i != |masked|
        invariant 0 <= i <= |masked| && |gaps| == |r.weights|
        invariant forall g :: 0 <= g < |gaps| ==> gaps[g] == if g in masked[..i] then p.huge else r.weights[g]
      {
        assert masked[i] in masked;
        gaps := gaps[masked[i] := p.huge];
        i := i + 1;
      }
      assert masked[..i] == masked;
    }
  }

  // The window to split out, and whether the new range must make progress when
  // it is split again.
  method TryLocalSplit(p: Problem, order: seq<Register>, uses: seq<int>, masks: seq<int>)
    returns (window: Option<Window>, nonProgress: bool, ghost masked: seq<nat>, ghost sweeps: seq<seq<Window>>,
        ghost best: Best)
    requires OrderOK(p, order) && Ascending(uses) && Ascending(masks) && |uses| == p.numGaps + 1
    ensures p.numGaps < 2 ==> window == None
    ensures p.numGaps >= 2 ==>
      && (forall g: nat :: g in masked <==> g < p.numGaps && MaskInGap(uses, masks, g))
      && var gaps := AllGapWeights(p, order, masked);
         && |sweeps| == |order| && AllSwept(p, gaps, sweeps) && Justified(p, gaps, sweeps, best)
         && best == Searched(p, gaps, sweeps) && window == best.window
    ensures window.None? ==> !nonProgress
    ensures window.Some? ==> Sound(p, window.value) && (nonProgress <==> NewGaps(p, window.value) >= p.numGaps)
  {
    window, nonProgress, masked, sweeps, best := None, false, [], [], Best(None, 0.0);
    if p.numGaps < 2 { return; }
    hide Justified, Sweep, SweptToEnd, Next, BestOf, AllSwept, Sound, MaskInGap;
    var regMaskGaps := FindRegMaskGaps(uses, masks);
    masked := regMaskGaps;
    var found := Best(None, 0.0);
    var i := 0;
    ghost var all := AllGapWeights(p, order, masked);
    Unsearched(p, all);
    while i < |order|
      invariant 0 <= i <= |order| && |sweeps| == i
      invariant AllSwept(p, all, sweeps) && Justified(p, all, sweeps, found) && found == Searched(p, all, sweeps)
    {
      ghost var ws, was := *, found;
      var gaps := MaskGaps(p, order[i], regMaskGaps);
      found, ws := SweepRegister(p, gaps, found);
      WithinGaps(p, gaps, ws);
      JustifiedMore(p, all, sweeps, was, ws, found);
      AllSweptMore(p, all, sweeps, ws);
      SearchedMore(p, all, sweeps, ws);
      sweeps := sweeps + [ws];
      i := i + 1;
    }
    best, window := found, found.window;
    if window.Some? {
      ChosenIsSound(p, all, sweeps, found);
      nonProgress := NewGaps(p, window.value) >= p.numGaps;
    }
  }

  // In bounds, not the whole range, and with fewer gaps whenever progress is
  // required.
  ghost predicate Sound(p: Problem, w: Window) {
    && InBounds(p, w) && !Whole(p, w)
    && (p.progressRequired ==> NewGaps(p, w) < p.numGaps)
  }

  lemma WithinGaps(p: Problem, gaps: seq<real>, ws: seq<Window>)
    requires SweptToEnd(p, gaps, ws)
    ensures forall k :: 0 <= k < |ws| ==> ws[k].before < ws[k].after <= |gaps|
  {
  }

  lemma AllSweptMore(p: Problem, order: seq<seq<real>>, sweeps: seq<seq<Window>>, ws: seq<Window>)
    requires |sweeps| < |order| && AllSwept(p, order, sweeps) && SweptToEnd(p, order[|sweeps|], ws)
    ensures AllSwept(p, order, sweeps + [ws])
  {
    hide SweptToEnd;
  }

  lemma Unsearched(p: Problem, order: seq<seq<real>>)
    ensures Justified(p, order, [], Best(None, 0.0)) && AllSwept(p, order, [])
  {
  }

  lemma ChosenIsSound(p: Problem, order: seq<seq<real>>, sweeps: seq<seq<Window>>, best: Best)
    requires AllSwept(p, order, sweeps) && Justified(p, order, sweeps, best) && best.window.Some?
    ensures Sound(p, best.window.value)
  {
    var r: nat :| ChosenFor(p, order, sweeps, r, best);
    var k: nat :| Chosen(p, order[r], sweeps[r], k, best);
    hide NoneGains, NoneGainsFrom, MaxGap, Next;
  }
}
