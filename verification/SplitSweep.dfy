// Which windows the sweep over the gaps of one register comes across.
module SplitSweep {
  import opened Collections
  import opened LocalSplit

  // A window fits if it is legal and no gap it closes is hopeless, or too heavy
  // for 2007/2048 of the weight the new range is going to have.
  lemma FitsExactly(p: Problem, gaps: seq<real>, w: Window)
    requires w.before < w.after <= |gaps|
    ensures Fits(p, gaps, w) <==>
            && (p.progressRequired ==> NewGaps(p, w) < p.numGaps)
            && forall i :: w.before <= i < w.after ==>
                 gaps[i] < p.huge && 2048.0 * gaps[i] <= 2007.0 * p.est(w.before, w.after)
  {
    var i :| w.before <= i < w.after && gaps[i] == MaxGap(gaps, w.before, w.after);
  }

  // The sweep ends at the last gap, and meets every right end on its way.
  lemma {:induction false} EveryEndMet(p: Problem, gaps: seq<real>, ws: seq<Window>, a: nat) returns (k: nat)
    requires Sweep(p, gaps, ws) && 1 <= a <= ws[|ws| - 1].after
    ensures k < |ws| && ws[k].after == a
  {
    hide Fits, Whole;
    var n := |ws| - 1;
    if ws[n].after == a {
      k := n;
    } else {
      assert Next(p, gaps, ws[n - 1]) == Some(ws[n]);
      k := EveryEndMet(p, gaps, ws[..n], a);
    }
  }

  lemma SweepEnds(p: Problem, gaps: seq<real>, ws: seq<Window>)
    requires SweptToEnd(p, gaps, ws)
    ensures ws[|ws| - 1].after == p.numGaps
  {
    hide Fits;
  }

  // Every window that starts where w does and ends no later fits.
  ghost predicate GrowsTo(p: Problem, gaps: seq<real>, w: Window) {
    && InBounds(p, w) && |gaps| == p.numGaps
    && forall a :: w.before < a <= w.after ==> Fits(p, gaps, Window(w.before, a))
  }

  // A sweep that has not passed w meets a window that fits and contains w.
  lemma {:induction false} FindsFrom(p: Problem, gaps: seq<real>, ws: seq<Window>, w: Window, k: nat) returns (j: nat)
    requires SweptToEnd(p, gaps, ws) && GrowsTo(p, gaps, w) && k < |ws|
    requires ws[k].before <= w.before && ws[k].after <= w.after
    ensures j < |ws| && ws[j].before <= w.before && ws[j].after == w.after
    ensures Whole(p, ws[j]) || Fits(p, gaps, ws[j])
    decreases |ws| - k
  {
    hide Fits;
    if ws[k].after == w.after && (Whole(p, ws[k]) || Fits(p, gaps, ws[k])) {
      j := k;
    } else {
      assert ws[k].before == w.before ==> ws[k] == Window(w.before, ws[k].after) && Fits(p, gaps, ws[k]);
      assert k + 1 < |ws|;
      assert Next(p, gaps, ws[k]) == Some(ws[k + 1]);
      j := FindsFrom(p, gaps, ws, w, k + 1);
    }
  }

  // Wherever a window can be grown gap by gap without ceasing to fit, the sweep
  // meets one that is at least as wide, ends at the same gap and fits, or is the
  // whole range.
  lemma SweepFinds(p: Problem, gaps: seq<real>, ws: seq<Window>, w: Window) returns (j: nat)
    requires SweptToEnd(p, gaps, ws) && GrowsTo(p, gaps, w)
    ensures j < |ws| && ws[j].before <= w.before && ws[j].after == w.after
    ensures Whole(p, ws[j]) || Fits(p, gaps, ws[j])
  {
    hide Fits, Whole, Next;
    j := FindsFrom(p, gaps, ws, w, 0);
  }
}
