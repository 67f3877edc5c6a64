// A dominator tree given by immediate dominators and levels.
module Dominators {
  type Block = nat

  datatype Tree = Tree(size: nat, idom: Block -> Block, level: Block -> nat)

  // One root at level 0; every other block is one level below its immediate dominator.
  ghost predicate TreeOK(t: Tree) {
    && (forall b: Block :: b < t.size && t.level(b) > 0 ==> t.idom(b) < t.size && t.level(t.idom(b)) == t.level(b) - 1)
    && (forall a: Block, b: Block :: a < t.size && b < t.size && t.level(a) == 0 && t.level(b) == 0 ==> a == b)
  }

  predicate Dominates(t: Tree, a: Block, b: Block)
    requires b < t.size
    requires TreeOK(t)
    decreases t.level(b)
  {
    a == b || (t.level(b) > 0 && Dominates(t, a, t.idom(b)))
  }

  lemma {:induction false} DominatorIsAbove(t: Tree, a: Block, b: Block)
    requires TreeOK(t) && b < t.size && Dominates(t, a, b)
    ensures a < t.size && t.level(a) <= t.level(b) && (a != b ==> t.level(a) < t.level(b))
    decreases t.level(b)
  {
    if a != b { DominatorIsAbove(t, a, t.idom(b)); }
  }

  lemma {:induction false} DominatesTransitive(t: Tree, a: Block, b: Block, c: Block)
    requires TreeOK(t) && b < t.size && c < t.size && Dominates(t, a, b) && Dominates(t, b, c)
    ensures Dominates(t, a, c)
    decreases t.level(c)
  {
    if b != c { DominatesTransitive(t, a, b, t.idom(c)); }
  }

  lemma DominatesAntisymmetric(t: Tree, a: Block, b: Block)
    requires TreeOK(t) && a < t.size && b < t.size && Dominates(t, a, b) && Dominates(t, b, a)
    ensures a == b
  {
    DominatorIsAbove(t, a, b);
    DominatorIsAbove(t, b, a);
  }

  // Dominators of one block form a chain.
  lemma {:induction false} DominatorsChain(t: Tree, a: Block, b: Block, c: Block)
    requires TreeOK(t) && c < t.size && a < t.size && b < t.size && Dominates(t, a, c) && Dominates(t, b, c)
    ensures Dominates(t, a, b) || Dominates(t, b, a)
    decreases t.level(c)
  {
    if a != c && b != c { DominatorsChain(t, a, b, t.idom(c)); }
  }

  ghost predicate Common(t: Tree, x: Block, y: Block, d: Block)
    requires TreeOK(t) && x < t.size && y < t.size
  {
    Dominates(t, d, x) && Dominates(t, d, y)
  }

  // Every common dominator of x and y dominates a.
  ghost predicate BelowCommon(t: Tree, x: Block, y: Block, a: Block)
    requires TreeOK(t) && x < t.size && y < t.size && a < t.size
  {
    forall d: Block :: Common(t, x, y, d) ==> Dominates(t, d, a)
  }

  lemma ClimbUp(t: Tree, a: Block, x: Block)
    requires TreeOK(t) && a < t.size && x < t.size && t.level(a) > 0 && Dominates(t, a, x)
    ensures t.idom(a) < t.size && t.level(t.idom(a)) < t.level(a) && Dominates(t, t.idom(a), x)
  {
    assert Dominates(t, t.idom(a), t.idom(a));
    assert Dominates(t, t.idom(a), a);
    DominatesTransitive(t, t.idom(a), a, x);
  }

  // The deeper of two different blocks can be given up: no common dominator is it.
  lemma ClimbKeepsCommon(t: Tree, x: Block, y: Block, a: Block, b: Block)
    requires TreeOK(t) && x < t.size && y < t.size && a < t.size && b < t.size
    requires a != b && t.level(b) <= t.level(a) && BelowCommon(t, x, y, a) && BelowCommon(t, x, y, b)
    ensures t.level(a) > 0 && t.idom(a) < t.size && BelowCommon(t, x, y, t.idom(a))
  {
    forall d: Block | Common(t, x, y, d) ensures Dominates(t, d, t.idom(a)) {
      assert Dominates(t, d, a) && Dominates(t, d, b);
      if d == a { DominatorIsAbove(t, a, b); }
    }
  }

  // The common dominator of x and y that is nearest to them.
  function Near(t: Tree, x: Block, y: Block): (near: Block)
    requires TreeOK(t) && x < t.size && y < t.size
    ensures near < t.size
    decreases t.level(x) + t.level(y)
  {
    if x == y then x
    else if t.level(x) < t.level(y) then Near(t, x, t.idom(y))
    else Near(t, t.idom(x), y)
  }

  // One step up the tree.
  lemma StepUp(t: Tree, x: Block, y: Block, d: Block)
    requires TreeOK(t) && x < t.size && y < t.size && x != y && t.level(y) <= t.level(x)
    ensures t.level(x) > 0 && t.idom(x) < t.size && t.level(t.idom(x)) < t.level(x)
    ensures Dominates(t, d, t.idom(x)) ==> Dominates(t, d, x)
    ensures Dominates(t, d, x) && d != x ==> Dominates(t, d, t.idom(x))
    ensures !Dominates(t, x, y)
  {
    if Dominates(t, x, y) { DominatorIsAbove(t, x, y); }
  }

  lemma {:induction false} NearIsCommon(t: Tree, x: Block, y: Block)
    requires TreeOK(t) && x < t.size && y < t.size
    ensures Dominates(t, Near(t, x, y), x) && Dominates(t, Near(t, x, y), y)
    decreases t.level(x) + t.level(y)
  {
    if x == y {
      BelowItself(t, x, y);
    } else {
      var near := Near(t, x, y);
      hide TreeOK, Dominates;
      if t.level(x) < t.level(y) {
        StepUp(t, y, x, near);
        NearIsCommon(t, x, t.idom(y));
      } else {
        StepUp(t, x, y, near);
        NearIsCommon(t, t.idom(x), y);
      }
    }
  }

  // Nothing else is a common dominator that every other one dominates.
  lemma NearUnique(t: Tree, x: Block, y: Block, near: Block)
    requires TreeOK(t) && x < t.size && y < t.size && near < t.size
    requires Dominates(t, near, x) && Dominates(t, near, y) && BelowCommon(t, x, y, near)
    ensures near == Near(t, x, y)
  {
    hide TreeOK, Dominates;
    var n := Near(t, x, y);
    NearIsCommon(t, x, y);
    assert Common(t, x, y, n);
    NearBelow(t, x, y, near);
    DominatesAntisymmetric(t, n, near);
  }

  lemma {:induction false} NearBelow(t: Tree, x: Block, y: Block, d: Block)
    requires TreeOK(t) && x < t.size && y < t.size && Dominates(t, d, x) && Dominates(t, d, y)
    ensures Dominates(t, d, Near(t, x, y))
    decreases t.level(x) + t.level(y)
  {
    if x != y {
      hide TreeOK, Dominates;
      if t.level(x) < t.level(y) {
        StepUp(t, y, x, d);
        NearBelow(t, x, t.idom(y), d);
      } else {
        StepUp(t, x, y, d);
        NearBelow(t, t.idom(x), y, d);
      }
    }
  }

  // findNearestCommonDominator: climb from the deeper of the two.
  method NearestCommonDominator(t: Tree, x: Block, y: Block) returns (near: Block)
    requires TreeOK(t) && x < t.size && y < t.size
    ensures near < t.size && Dominates(t, near, x) && Dominates(t, near, y)
    ensures BelowCommon(t, x, y, near) && near == Near(t, x, y)
  {
    hide TreeOK, Dominates, BelowCommon, Near;
    var a: Block, b: Block := x, y;
    ghost var p: Block, q: Block := x, y;
    BelowItself(t, x, y);
    while a != b
      invariant a < t.size && b < t.size
      invariant (p == x && q == y) || (p == y && q == x)
      invariant Dominates(t, a, p) && Dominates(t, b, q)
      invariant BelowCommon(t, x, y, a) && BelowCommon(t, x, y, b)
      decreases t.level(a) + t.level(b)
    {
      if t.level(a) < t.level(b) {
        a, b := b, a;
        p, q := q, p;
      }
      ClimbKeepsCommon(t, x, y, a, b);
      ClimbUp(t, a, p);
      a := t.idom(a);
    }
    near := a;
    NearUnique(t, x, y, near);
  }

  lemma BelowItself(t: Tree, x: Block, y: Block)
    requires TreeOK(t) && x < t.size && y < t.size
    ensures Dominates(t, x, x) && Dominates(t, y, y) && BelowCommon(t, x, y, x) && BelowCommon(t, x, y, y)
  {}
}
