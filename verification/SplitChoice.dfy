// How good the window chosen by local splitting is among all those looked at.
module SplitChoice {
  import opened Collections
  import opened LocalSplit

  // A window looked at, with the gap weights of its register.
  datatype Offer = Offer(gaps: seq<real>, w: Window)

  ghost predicate Within(os: seq<Offer>) {
    forall k :: 0 <= k < |os| ==> os[k].w.before < os[k].w.after <= |os[k].gaps|
  }

  predicate Qualifies(p: Problem, o: Offer)
    requires o.w.before < o.w.after <= |o.gaps|
  {
    !Whole(p, o.w) && Fits(p, o.gaps, o.w)
  }

  function Worth(p: Problem, o: Offer): real
    requires o.w.before < o.w.after <= |o.gaps|
  {
    Gain(p, o.gaps, o.w)
  }

  ghost function BestOffer(p: Problem, os: seq<Offer>): Best
    requires Within(os)
  {
    if os == [] then Best(None, 0.0)
    else Consider(p, os[|os| - 1].gaps, os[|os| - 1].w, BestOffer(p, os[..|os| - 1]))
  }

  // The offers that were the best for a while, in order: each replaced the one before.
  ghost function Leaders(p: Problem, os: seq<Offer>): (r: seq<nat>)
    requires Within(os)
    ensures forall i :: 0 <= i < |r| ==> r[i] < |os|
  {
    if os == [] then []
    else
      var n := |os| - 1;
      var before := Leaders(p, os[..n]);
      if Qualifies(p, os[n]) && Worth(p, os[n]) > BestOffer(p, os[..n]).diff then before + [n] else before
  }

  // The number of the window chosen.
  ghost function Choice(p: Problem, os: seq<Offer>): nat
    requires Within(os) && Leaders(p, os) != []
  {
    Leaders(p, os)[|Leaders(p, os)| - 1]
  }

  // The hysteresis applied n times.
  function Dampened(n: nat, x: real): real {
    if n == 0 then x else Damped(Dampened(n - 1, x))
  }

  lemma {:induction false} DampenedLess(n: nat, x: real)
    requires x >= 0.0
    ensures 0.0 <= Dampened(n, x) <= x
  {
    if n > 0 { DampenedLess(n - 1, x); }
  }

  // What is kept as best is the last leader, at its damped worth.
  lemma {:induction false} ChoiceIsKept(p: Problem, os: seq<Offer>)
    requires Within(os)
    ensures if Leaders(p, os) == [] then BestOffer(p, os) == Best(None, 0.0)
            else var o := os[Choice(p, os)];
                 && Qualifies(p, o) && Worth(p, o) > 0.0
                 && BestOffer(p, os) == Best(Some(o.w), Damped(Worth(p, o)))
  {
    hide Whole, Fits, Gain;
    if os != [] {
      ChoiceIsKept(p, os[..|os| - 1]);
    }
  }

  // The worth of the window chosen is at least that of every window that fits,
  // damped once for every time the choice was replaced.
  lemma {:induction false} LossBound(p: Problem, os: seq<Offer>, j: nat)
    requires Within(os) && j < |os| && Qualifies(p, os[j]) && Worth(p, os[j]) > 0.0
    ensures Leaders(p, os) != []
    ensures Dampened(|Leaders(p, os)| - 1, Worth(p, os[j])) <= Worth(p, os[Choice(p, os)])
  {
    hide Qualifies, Worth;
    var n, x := |os| - 1, Worth(p, os[j]);
    var init := os[..n];
    ChoiceIsKept(p, init);
    var before := Leaders(p, init);
    LeadersStep(p, os);
    if before != [] { DampenedLess(|before|, x); DampenedLess(|before| - 1, x); }
    if j < n {
      LossBound(p, init, j);
      assert init[Choice(p, init)] == os[Choice(p, init)];
    }
  }

  // One offer more: it leads, or the leaders stay.
  lemma LeadersStep(p: Problem, os: seq<Offer>)
    requires Within(os) && os != []
    ensures var n := |os| - 1;
            var before := Leaders(p, os[..n]);
            Leaders(p, os)
              == (if Qualifies(p, os[n]) && Worth(p, os[n]) > BestOffer(p, os[..n]).diff then before + [n] else before)
  {
  }

  // Every window that fits gains nothing, or no more than one of the leaders.
  lemma {:induction false} LeaderAbove(p: Problem, os: seq<Offer>, j: nat) returns (i: nat)
    requires Within(os) && j < |os| && Qualifies(p, os[j]) && Worth(p, os[j]) > 0.0
    ensures i < |Leaders(p, os)| && Worth(p, os[j]) <= Worth(p, os[Leaders(p, os)[i]])
  {
    hide Qualifies, Worth;
    var n := |os| - 1;
    var init := os[..n];
    ChoiceIsKept(p, init);
    var before := Leaders(p, init);
    LeadersStep(p, os);
    if j < n {
      i := LeaderAbove(p, init, j);
      assert init[before[i]] == os[before[i]];
    } else if |Leaders(p, os)| > |before| {
      i := |before|;
    } else {
      i := |before| - 1;
      assert init[before[i]] == os[before[i]];
    }
  }

  // No window that fits gains more than x.
  ghost predicate NoneAbove(p: Problem, os: seq<Offer>, x: real)
    requires Within(os)
  {
    forall j :: 0 <= j < |os| && Qualifies(p, os[j]) ==> Worth(p, os[j]) <= x
  }

  // No window replaced on the way gained more than x.
  ghost predicate NoReplacedAbove(p: Problem, os: seq<Offer>, x: real)
    requires Within(os)
  {
    forall i :: 0 <= i < |Leaders(p, os)| - 1 ==> Worth(p, os[Leaders(p, os)[i]]) <= x
  }

  // The window chosen has the largest gain of all that fit exactly when no
  // window it replaced on the way gained more.
  lemma LargestExactly(p: Problem, os: seq<Offer>)
    requires Within(os) && Leaders(p, os) != []
    ensures NoneAbove(p, os, Worth(p, os[Choice(p, os)])) <==> NoReplacedAbove(p, os, Worth(p, os[Choice(p, os)]))
  {
    var best := Worth(p, os[Choice(p, os)]);
    ChoiceIsKept(p, os);
    LeadersQualify(p, os);
    hide Qualifies, Worth, Leaders, Within;
    if NoReplacedAbove(p, os, best) {
      forall j | 0 <= j < |os| && Qualifies(p, os[j]) ensures Worth(p, os[j]) <= best {
        if Worth(p, os[j]) > 0.0 {
          var i := LeaderAbove(p, os, j);
        }
      }
    }
  }

  lemma {:induction false} LeadersQualify(p: Problem, os: seq<Offer>)
    requires Within(os)
    ensures forall i :: 0 <= i < |Leaders(p, os)| ==> Qualifies(p, os[Leaders(p, os)[i]])
  {
    hide Qualifies, Worth;
    if os != [] { LeadersQualify(p, os[..|os| - 1]); }
  }

  // ---- the whole search ----

  function OffersOf(gaps: seq<real>, ws: seq<Window>): seq<Offer> {
    seq(|ws|, k requires 0 <= k < |ws| => Offer(gaps, ws[k]))
  }

  // All windows looked at, register by register.
  ghost function Offers(p: Problem, order: seq<seq<real>>, sweeps: seq<seq<Window>>): (os: seq<Offer>)
    requires AllSwept(p, order, sweeps)
    ensures Within(os)
  {
    if sweeps == [] then []
    else
      var n := |sweeps| - 1;
      SweptWithin(p, order, sweeps, n);
      Offers(p, order, sweeps[..n]) + OffersOf(order[n], sweeps[n])
  }

  lemma {:induction false} BestOfOffers(p: Problem, os: seq<Offer>, gaps: seq<real>, ws: seq<Window>)
    requires Within(os) && forall k :: 0 <= k < |ws| ==> ws[k].before < ws[k].after <= |gaps|
    ensures Within(os + OffersOf(gaps, ws))
    ensures BestOf(p, gaps, ws, BestOffer(p, os)) == BestOffer(p, os + OffersOf(gaps, ws))
  {
    hide Consider;
    var all := os + OffersOf(gaps, ws);
    if ws == [] {
      assert all == os;
    } else {
      var n := |ws| - 1;
      BestOfOffers(p, os, gaps, ws[..n]);
      assert all[..|all| - 1] == os + OffersOf(gaps, ws[..n]);
      assert all[|all| - 1] == Offer(gaps, ws[n]);
    }
  }

  // The search is one pass over all of them.
  lemma {:induction false} SearchedIsBestOffer(p: Problem, order: seq<seq<real>>, sweeps: seq<seq<Window>>)
    requires AllSwept(p, order, sweeps)
    ensures Searched(p, order, sweeps) == BestOffer(p, Offers(p, order, sweeps))
  {
    hide BestOf, SweptToEnd;
    if sweeps != [] {
      var n := |sweeps| - 1;
      SearchedIsBestOffer(p, order, sweeps[..n]);
      SweptWithin(p, order, sweeps, n);
      BestOfOffers(p, Offers(p, order, sweeps[..n]), order[n], sweeps[n]);
    }
  }

  lemma {:induction false} IsOffered(p: Problem, order: seq<seq<real>>, sweeps: seq<seq<Window>>, r: nat, k: nat)
        returns (j: nat)
    requires AllSwept(p, order, sweeps) && r < |sweeps| && k < |sweeps[r]|
    ensures j < |Offers(p, order, sweeps)| && Offers(p, order, sweeps)[j] == Offer(order[r], sweeps[r][k])
  {
    hide SweptToEnd;
    var n := |sweeps| - 1;
    if r < n {
      j := IsOffered(p, order, sweeps[..n], r, k);
    } else {
      j := |Offers(p, order, sweeps[..n])| + k;
    }
  }

  // What the search over all registers gives up: no window that fits gains so
  // much that its gain, damped once more than the choice was replaced, exceeds
  // what is kept.
  lemma SearchLoss(p: Problem, order: seq<seq<real>>, sweeps: seq<seq<Window>>, r: nat, k: nat)
    requires AllSwept(p, order, sweeps) && r < |sweeps| && k < |sweeps[r]|
    requires sweeps[r][k].before < sweeps[r][k].after <= |order[r]|
    requires !Whole(p, sweeps[r][k]) && Fits(p, order[r], sweeps[r][k]) && Gain(p, order[r], sweeps[r][k]) > 0.0
    ensures Searched(p, order, sweeps).window.Some?
    ensures Dampened(|Leaders(p, Offers(p, order, sweeps))|, Gain(p, order[r], sweeps[r][k]))
            <= Searched(p, order, sweeps).diff
  {
    var os := Offers(p, order, sweeps);
    SearchedIsBestOffer(p, order, sweeps);
    var j := IsOffered(p, order, sweeps, r, k);
    assert Qualifies(p, os[j]) && Worth(p, os[j]) == Gain(p, order[r], sweeps[r][k]);
    hide Qualifies, Worth, Offers, Searched, Fits, Gain;
    LossBound(p, os, j);
    ChoiceIsKept(p, os);
  }

  // ---- the loss is real ----

  // Two windows that fit: the second gains less, and yet is chosen.
  lemma ChosenNotLargest() returns (p: Problem, gaps: seq<real>, ws: seq<Window>)
    ensures GapsOK(p, gaps) && SweptToEnd(p, gaps, ws) && |ws| == 2
    ensures Chosen(p, gaps, ws, 1, BestOf(p, gaps, ws, Best(None, 0.0)))
    ensures Fits(p, gaps, ws[0]) && Gain(p, gaps, ws[0]) > Gain(p, gaps, ws[1])
  {
    var est := (b: nat, a: nat) => 100.0 - a as real;
    p := Problem(2, true, true, false, est, 1000.0);
    gaps := [0.0, 0.0];
    ws := [Window(0, 1), Window(0, 2)];
    assert ws[..1] == [Window(0, 1)];
    assert MaxGap(gaps, 0, 1) == 0.0 && MaxGap(gaps, 0, 2) == 0.0;
    assert Sweep(p, gaps, ws);
    var first := Best(Some(Window(0, 1)), Damped(99.0));
    assert BestOf(p, gaps, ws[..1], Best(None, 0.0)) == first;
    assert Chosen(p, gaps, ws, 1, BestOf(p, gaps, ws, Best(None, 0.0)));
    assert Gain(p, gaps, ws[0]) > Gain(p, gaps, ws[1]);
  }
}
