// The cache: a fixed number of entries handed out round-robin, found again
// through a sparse index that may be stale.
module InterferenceCache {
  import opened Collections
  import opened Segments
  import opened BlockInterference
  import opened CacheEntry

  // CacheEntries
  const CACHE_ENTRIES: nat := 32

  ghost function SumRefs(refs: seq<nat>): nat {
    if refs == [] then 0 else SumRefs(refs[..|refs| - 1]) + refs[|refs| - 1]
  }

  // If every entry is referenced there are at least as many references as entries.
  lemma {:induction false} AllReferenced(refs: seq<nat>)
    requires forall i :: 0 <= i < |refs| ==> refs[i] > 0
    ensures SumRefs(refs) >= |refs|
  {
    if refs != [] { AllReferenced(refs[..|refs| - 1]); }
  }

  lemma {:induction false} SumRefsUpdate(refs: seq<nat>, i: nat, n: nat)
    requires i < |refs|
    ensures SumRefs(refs[i := n]) == SumRefs(refs) - refs[i] + n
    ensures refs[i] <= SumRefs(refs)
  {
    var m := |refs| - 1;
    if i < m {
      assert refs[i := n][..m] == refs[..m][i := n];
      SumRefsUpdate(refs[..m], i, n);
    } else {
      assert refs[i := n][..m] == refs[..m];
    }
  }

  // How far entry k is from entry first, going round.
  function Turns(first: nat, k: nat): nat
    requires first < CACHE_ENTRIES && k < CACHE_ENTRIES
  {
    if k >= first then k - first else k + CACHE_ENTRIES - first
  }

  class Cache {
    var entries: seq<Entry>
    var physRegEntries: array<nat>
    var roundRobin: nat

    ghost predicate Shape()
      reads this
    {
      && |entries| == CACHE_ENTRIES
      && (forall i, j :: 0 <= i < j < |entries| ==> entries[i] != entries[j])
      && roundRobin < CACHE_ENTRIES
    }

    // The sparse index of a register that some entry represents points to it.
    ghost predicate Valid()
      reads this, physRegEntries, entries
    {
      && Shape()
      && (forall i :: 0 <= i < |entries| ==> entries[i].Valid())
      && (forall i :: 0 <= i < |entries| && entries[i].physReg != 0 ==>
            entries[i].physReg < physRegEntries.Length && physRegEntries[entries[i].physReg] == i)
    }

    // Before the first function: no entry represents anything.
    constructor (fn: Function)
      requires FunctionOK(fn)
      ensures Valid() && fresh(physRegEntries) && physRegEntries.Length == 0 && |entries| == CACHE_ENTRIES
      ensures forall e :: e in entries ==> fresh(e) && e.Valid() && e.physReg == 0 && e.refs == 0
    {
      entries, roundRobin := [], 0;
      physRegEntries := new nat[0];
      new;
      for i := 0 to CACHE_ENTRIES
        invariant |entries| == i && roundRobin == 0 && fresh(physRegEntries) && physRegEntries.Length == 0
        invariant forall k :: 0 <= k < i ==>
                    fresh(entries[k]) && entries[k].Valid() && entries[k].physReg == 0 && entries[k].refs == 0
        invariant forall k, j :: 0 <= k < j < i ==> entries[k] != entries[j]
      {
        var e := new Entry(fn);
        entries := entries + [e];
      }
    }

    // References held by cursors, entry by entry.
    ghost function Refs(): (r: seq<nat>)
      reads this, entries
      ensures |r| == |entries| && forall i :: 0 <= i < |entries| ==> r[i] == entries[i].refs
    {
      seq(|entries|, i requires 0 <= i < |entries| reads this, entries => entries[i].refs)
    }

    // Each register is represented by at most one entry.
    lemma AtMostOneEntry(i: nat, j: nat)
      requires Valid() && i < |entries| && j < |entries|
      requires entries[i].physReg == entries[j].physReg != 0
      ensures i == j
    {}

    // init: prepare for a new function; no cursor is live.
    method Init(fn: Function, numRegs: nat)
      requires FunctionOK(fn) && Shape()
               && (forall i :: 0 <= i < |entries| ==> entries[i].Valid() && entries[i].refs == 0)
      modifies this`physRegEntries, entries
      ensures Valid() && physRegEntries.Length == numRegs
      ensures forall i :: 0 <= i < |entries| ==> entries[i].physReg == 0 && entries[i].f == fn && entries[i].refs == 0
    {
      hide Entry.Valid, FunctionOK;
      if physRegEntries.Length != numRegs { physRegEntries := new nat[numRegs](i => 0); }
      for k := 0 to |entries|
        invariant Shape() && physRegEntries.Length == numRegs
        invariant forall i :: 0 <= i < |entries| ==> entries[i].Valid() && entries[i].refs == 0
        invariant forall i :: 0 <= i < k ==> entries[i].physReg == 0 && entries[i].f == fn
      {
        entries[k].Clear(fn);
      }
    }

    // get: an up to date entry for p, or None when there are none left to recycle.
    method Get(p: PReg, tags: Unit -> nat) returns (found: Option<Entry>)
      requires Valid() && 0 < p < physRegEntries.Length
      modifies this`roundRobin, physRegEntries, entries
      ensures Valid()
      ensures Refs() == old(Refs())
      ensures forall i :: 0 <= i < |entries| && entries[i].refs > 0 ==> entries[i].physReg == old(entries[i].physReg)
      ensures found.Some? ==> found.value in entries && found.value.UpToDate(p, tags)
      ensures found.None? <==> old((forall i :: 0 <= i < |entries| ==> entries[i].physReg != p && entries[i].refs > 0))
      ensures found.None? ==> forall i :: 0 <= i < |entries| ==> entries[i].tag == old(entries[i].tag)
      ensures forall i :: 0 <= i < |entries| && old(entries[i].physReg) == p ==>
                found == Some(entries[i]) && roundRobin == old(roundRobin)
      ensures forall i :: 0 <= i < |entries| && old(entries[i].UpToDate(p, tags)) ==>
                entries[i].tag == old(entries[i].tag) && entries[i].blocks == old(entries[i].blocks)
    {
      hide Entry.Valid, FunctionOK;
      var e := physRegEntries[p];
      if e < CACHE_ENTRIES && entries[e].physReg == p {
        var current := entries[e].IsCurrent(tags);
        if !current { entries[e].Revalidate(tags); }
        return Some(entries[e]);
      }
      // No entry represents p: the one that did would be found above.
      assert forall i :: 0 <= i < |entries| ==> entries[i].physReg != p;
      found := Recycle(p, tags);
    }

    // The next unreferenced entry, reset to represent p.
    method Recycle(p: PReg, tags: Unit -> nat) returns (found: Option<Entry>)
      requires Valid() && 0 < p < physRegEntries.Length && forall i :: 0 <= i < |entries| ==> entries[i].physReg != p
      modifies this`roundRobin, physRegEntries, entries
      ensures Valid() && Refs() == old(Refs())
      ensures forall i :: 0 <= i < |entries| && entries[i].refs > 0 ==> entries[i].physReg == old(entries[i].physReg)
      ensures found.Some? ==> found.value in entries && found.value.UpToDate(p, tags)
      ensures found.None? <==> old((forall i :: 0 <= i < |entries| ==> entries[i].refs > 0))
      ensures found.None? ==> forall i :: 0 <= i < |entries| ==> entries[i].tag == old(entries[i].tag)
    {
      hide Entry.Valid, FunctionOK, Entry.UpToDate;
      var free := PickRoundRobin();
      if free == CACHE_ENTRIES { return None; }
      entries[free].Reset(p, tags);
      physRegEntries[p] := free;
      found := Some(entries[free]);
    }

    // The next entry in turn that no cursor refers to, or CACHE_ENTRIES.
    method PickRoundRobin() returns (e: nat)
      requires Shape()
      modifies this`roundRobin
      ensures Shape() && e <= CACHE_ENTRIES
      ensures e < CACHE_ENTRIES ==> entries[e].refs == 0
      ensures roundRobin == (old(roundRobin) + 1) % CACHE_ENTRIES
      ensures forall k :: 0 <= k < |entries| && entries[k].refs == 0 ==>
                e < CACHE_ENTRIES && Turns(old(roundRobin), e) <= Turns(old(roundRobin), k)
      ensures e == CACHE_ENTRIES ==> forall k :: 0 <= k < |entries| ==> entries[k].refs > 0
    {
      var first := roundRobin;
      e := roundRobin;
      roundRobin := if roundRobin + 1 == CACHE_ENTRIES then 0 else roundRobin + 1;
      for i := 0 to CACHE_ENTRIES
        invariant e == if first + i < CACHE_ENTRIES then first + i else first + i - CACHE_ENTRIES
        invariant forall k :: 0 <= k < |entries| && (first <= k < first + i || k < first + i - CACHE_ENTRIES) ==>
                    entries[k].refs > 0
      {
        if entries[e].refs == 0 { return; }
        e := if e + 1 == CACHE_ENTRIES then 0 else e + 1;
      }
      e := CACHE_ENTRIES;
    }

    // addRef on an entry.
    method Count(e: Entry, delta: int)
      requires Valid() && e in entries && e.refs + delta >= 0
      modifies e`refs
      ensures Valid() && e.refs == old(e.refs) + delta
      ensures SumRefs(Refs()) == old(SumRefs(Refs())) + delta
    {
      hide Entry.Valid, FunctionOK;
      ghost var start := Refs();
      ghost var k :| 0 <= k < |entries| && entries[k] == e;
      e.AddRef(delta);
      SumRefsUpdate(start, k, start[k] + delta);
      assert Refs() == start[k := start[k] + delta];
    }

    // Cursor::setPhysReg: give up the old entry before asking for a new one.
    // With at most as many live cursors as entries this always succeeds.
    method SetPhysReg(held: Option<Entry>, p: PReg, tags: Unit -> nat) returns (now: Entry)
      requires Valid() && 0 < p < physRegEntries.Length
      requires held.Some? ==> held.value in entries && held.value.refs > 0
      requires SumRefs(Refs()) < CACHE_ENTRIES || (held.Some? && SumRefs(Refs()) == CACHE_ENTRIES)
      modifies this`roundRobin, physRegEntries, entries
      ensures Valid() && now in entries && now.UpToDate(p, tags) && now.refs > 0
      ensures SumRefs(Refs()) == old(SumRefs(Refs())) + (if held.Some? then 0 else 1)
    {
      hide Entry.Valid, FunctionOK, SumRefs;
      if held.Some? {
        Count(held.value, -1);
      }
      ghost var released := Refs();
      var found := Get(p, tags);
      if found.None? {
        AllReferenced(released);
        assert false;
      }
      now := found.value;
      Count(now, 1);
    }
  }
}
