// The values the greedy allocator works on: which physical register each
// virtual register holds, what interferes with what, the stage and cascade
// number of every live range, and the undo stack of last-chance recoloring.

module GreedyState {
  import opened Collections

  type VReg = nat
  type Unit = nat
  // 0 is NoRegister, as in MCRegister.
  type PReg = nat

  datatype Stage = RSNew | RSAssign | RSSplit | RSSplit2 | RSSpill | RSMemory | RSDone

  function Rank(s: Stage): nat {
    match s
    case RSNew => 0
    case RSAssign => 1
    case RSSplit => 2
    case RSSplit2 => 3
    case RSSpill => 4
    case RSMemory => 5
    case RSDone => 6
  }

  // A candidate of an allocation order; hints come first.
  datatype Candidate = Candidate(reg: PReg, hint: bool)

  type Assignment = map<VReg, PReg>

  // Facts about the function being compiled and its target that allocation
  // never changes. Orders, hints and preferences may depend on the current
  // assignment.
  datatype Target = Target(
    vregs: set<VReg>,
    overlap: (VReg, VReg) -> bool,
    units: PReg -> seq<Unit>,
    fixedInterference: (VReg, PReg) -> bool,
    inClass: (VReg, PReg) -> bool,
    order: (VReg, Assignment) -> seq<Candidate>,
    orderLimit: (VReg, nat, Assignment) -> Option<nat>,
    allocatable: (nat, PReg, Assignment) -> bool,
    simpleHint: VReg -> PReg,
    regCost: PReg -> nat,
    classOf: VReg -> nat,
    numAllocatable: VReg -> nat,
    weight: VReg -> real,
    spillable: VReg -> bool,
    local: VReg -> bool,
    tiedDef: VReg -> bool,
    prefersPhys: (VReg, Assignment) -> bool,
    mayRecolor: VReg -> bool,
    localReassign: bool,
    deferredSpilling: VReg -> bool)

  // Two live ranges interfere symmetrically, and the order of a range names
  // real registers of its class.
  ghost predicate WellFormed(t: Target) {
    && (forall v, w :: t.overlap(v, w) == t.overlap(w, v))
    && (forall v, m, i :: 0 <= i < |t.order(v, m)| ==> t.order(v, m)[i].reg != 0 && t.inClass(v, t.order(v, m)[i].reg))
    && (forall v :: t.weight(v) >= 0.0)
  }

  datatype State = State(
    phys: Assignment,
    fixed: set<VReg>,
    stack: seq<(VReg, PReg)>,
    stage: map<VReg, Stage>,
    cascade: map<VReg, nat>,
    next: nat,
    live: set<VReg>)

  // ---- interference ----

  predicate Aliases(t: Target, p: PReg, q: PReg) {
    exists u :: u in t.units(p) && u in t.units(q)
  }

  // Virtual registers that hold a register containing unit u and overlap v.
  function Query(t: Target, phys: Assignment, v: VReg, u: Unit): set<VReg> {
    set w | w in phys && t.overlap(v, w) && u in t.units(phys[w])
  }

  function Conflicts(t: Target, phys: Assignment, v: VReg, p: PReg): set<VReg> {
    set w | w in phys && t.overlap(v, w) && Aliases(t, p, phys[w])
  }

  lemma ConflictsKnown(t: Target, phys: Assignment, v: VReg, p: PReg)
    ensures Conflicts(t, phys, v, p) <= phys.Keys
  {
  }

  // p is in v's class and nothing interferes with v there.
  predicate FreeFor(t: Target, phys: Assignment, v: VReg, p: PReg) {
    t.inClass(v, p) && !t.fixedInterference(v, p) && Conflicts(t, phys, v, p) == {}
  }

  ghost predicate InterferenceFree(t: Target, phys: Assignment) {
    && (forall v :: v in phys ==> t.inClass(v, phys[v]) && !t.fixedInterference(v, phys[v]))
    && (forall v, w :: v in phys && w in phys && v != w && t.overlap(v, w) ==> !Aliases(t, phys[v], phys[w]))
  }

  datatype InterferenceKind = IKFree | IKVirtReg | IKFixed

  function CheckInterference(t: Target, phys: Assignment, v: VReg, p: PReg): InterferenceKind {
    if t.fixedInterference(v, p) then IKFixed
    else if Conflicts(t, phys, v, p) != {} then IKVirtReg
    else IKFree
  }

  lemma AssignKeepsFree(t: Target, phys: Assignment, v: VReg, p: PReg)
    requires WellFormed(t) && InterferenceFree(t, phys) && v !in phys && FreeFor(t, phys, v, p)
    ensures InterferenceFree(t, phys[v := p])
  {
    forall w | w in phys && t.overlap(v, w) ensures !Aliases(t, p, phys[w]) && !Aliases(t, phys[w], p) {
      assert w !in Conflicts(t, phys, v, p);
    }
  }

  // ---- counting helpers ----

  function Elems(s: seq<VReg>): set<VReg> {
    set i | 0 <= i < |s| :: s[i]
  }

  ghost predicate NoDup(s: seq<VReg>) {
    forall i, j :: 0 <= i < j < |s| ==> s[i] != s[j]
  }

  ghost predicate DistinctStack(stack: seq<(VReg, PReg)>) {
    forall i, j :: 0 <= i < j < |stack| ==> stack[i].0 != stack[j].0
  }
}
