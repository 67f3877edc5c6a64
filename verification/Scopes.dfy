// The tree of scopes: entering and leaving, defining functions, and finding
// the function that a call means.
module Scopes {
  import opened Collections
  import opened Decimal
  import opened Mangling

  // A function of the module: how many were created before it, and the symbol
  // it was created under.
  datatype Fn = Fn(no: nat, symbol: string, isStatic: bool)

  // Nodes are referred to by their allocation number; the root has no name.
  datatype Node = Node(
    name: string,
    parent: Option<nat>,
    children: map<string, nat>,
    function_: Option<Fn>,
    nameNo: nat,
    isFuncRoot: bool)

  function Anonymous(n: nat): string { "anon." + Digits(n) }

  ghost predicate IsAnonymous(name: string) { exists n: nat :: name == Anonymous(n) }

  ghost predicate ChildOK(nodes: seq<Node>, i: nat, name: string)
    requires i < |nodes| && name in nodes[i].children
  {
    var j := nodes[i].children[name];
    i < j < |nodes| && nodes[j].name == name && nodes[j].parent == Some(i)
  }

  ghost predicate ParentOK(nodes: seq<Node>, j: nat)
    requires j < |nodes|
  {
    && nodes[j].name != "" && nodes[j].parent.Some? && nodes[j].parent.value < j
    && var p := nodes[nodes[j].parent.value]; nodes[j].name in p.children && p.children[nodes[j].name] == j
  }

  // Numbers of anonymous scopes still to come are unused.
  ghost predicate NumbersOK(nodes: seq<Node>, i: nat)
    requires i < |nodes|
  {
    forall n: nat :: nodes[i].nameNo <= n ==> Anonymous(n) !in nodes[i].children
  }

  ghost predicate TreeOK(nodes: seq<Node>) {
    && |nodes| > 0 && nodes[0].name == "" && nodes[0].parent == None
    && (forall i: nat, c :: i < |nodes| && c in nodes[i].children ==> ChildOK(nodes, i, c))
    && (forall j: nat :: 0 < j < |nodes| ==> ParentOK(nodes, j))
    && (forall i: nat :: i < |nodes| ==> NumbersOK(nodes, i))
  }

  function Parent(nodes: seq<Node>, i: nat): (p: nat)
    requires TreeOK(nodes) && 0 < i < |nodes|
    ensures p < i && nodes[i].parent == Some(p)
  {
    assert ParentOK(nodes, i);
    nodes[i].parent.value
  }

  // ---- lookup ----

  // BlockScopeNode::get_function
  function Own(nodes: seq<Node>, i: nat, key: string): Option<Fn>
    requires i < |nodes|
  {
    if key in nodes[i].children && nodes[i].children[key] < |nodes| then nodes[nodes[i].children[key]].function_
        else None
  }

  // The scopes around i, from the inside out.
  function Chain(nodes: seq<Node>, i: nat): (c: seq<nat>)
    requires i < |nodes|
    ensures c != [] && c[0] == i && forall k :: 0 <= k < |c| ==> c[k] < |nodes|
  {
    var p := nodes[i].parent;
    if p.Some? && p.value < i then [i] + Chain(nodes, p.value) else [i]
  }

  function Resolve(nodes: seq<Node>, i: nat, key: string): Option<Fn>
    requires i < |nodes|
  {
    var p := nodes[i].parent;
    if Own(nodes, i, key).Some? then Own(nodes, i, key)
    else if p.Some? && p.value < i then Resolve(nodes, p.value, key)
    else None
  }

  // The scope number k around i is the nearest that holds a function for the key.
  ghost predicate Nearest(nodes: seq<Node>, i: nat, key: string, k: nat)
    requires i < |nodes|
  {
    var c := Chain(nodes, i);
    k < |c| && Own(nodes, c[k], key).Some? && forall j :: 0 <= j < k ==> Own(nodes, c[j], key) == None
  }

  lemma {:induction false} ResolveIsNearest(nodes: seq<Node>, i: nat, key: string)
    requires i < |nodes|
    ensures Resolve(nodes, i, key).Some? ==>
              exists k: nat :: Nearest(nodes, i, key, k)
                  && Resolve(nodes, i, key) == Own(nodes, Chain(nodes, i)[k], key)
    ensures Resolve(nodes, i, key) == None ==> forall k :: 0 <= k < |Chain(nodes, i)| ==>
              Own(nodes, Chain(nodes, i)[k], key) == None
  {
    var p := nodes[i].parent;
    if Own(nodes, i, key).Some? {
      assert Nearest(nodes, i, key, 0);
    } else if p.Some? && p.value < i {
      ResolveIsNearest(nodes, p.value, key);
      var c, d := Chain(nodes, i), Chain(nodes, p.value);
      assert forall k :: 0 < k < |c| ==> c[k] == d[k - 1];
      if Resolve(nodes, i, key).Some? {
        var k: nat :| Nearest(nodes, p.value, key, k) && Resolve(nodes, p.value, key) == Own(nodes, d[k], key);
        assert c[k + 1] == d[k];
        assert Nearest(nodes, i, key, k + 1);
      }
    }
  }

  // ---- effects on lookup ----

  function NewNode(name: string, parent: nat): Node {
    Node(name, Some(parent), map[], None, 0, false)
  }

  // insert_member_value
  function WithChild(nodes: seq<Node>, i: nat, name: string): seq<Node>
    requires i < |nodes|
  {
    if name in nodes[i].children then nodes
    else nodes[i := nodes[i].(children := nodes[i].children[name := |nodes|])] + [NewNode(name, i)]
  }

  lemma WithChildOK(nodes: seq<Node>, i: nat, name: string)
    requires TreeOK(nodes) && i < |nodes| && name != ""
    requires !IsAnonymous(name) || exists n: nat :: name == Anonymous(n) && n < nodes[i].nameNo
    ensures TreeOK(WithChild(nodes, i, name))
  {
    var ns := WithChild(nodes, i, name);
    if name !in nodes[i].children {
      forall k: nat, c | k < |ns| && c in ns[k].children ensures ChildOK(ns, k, c) {
        if k < |nodes| && c in nodes[k].children { assert ChildOK(nodes, k, c); }
      }
      forall j: nat | 0 < j < |ns| ensures ParentOK(ns, j) {
        if j < |nodes| { assert ParentOK(nodes, j); }
      }
      forall k: nat | k < |ns| ensures NumbersOK(ns, k) {
        if k < |nodes| { assert NumbersOK(nodes, k); }
        NumberUnique();
      }
    }
  }

  lemma NumberUnique()
    ensures forall m: nat, n: nat :: Anonymous(m) == Anonymous(n) ==> m == n
  {
    forall m: nat, n: nat | Anonymous(m) == Anonymous(n) ensures m == n {
      assert Anonymous(m)[5..] == Digits(m) && Anonymous(n)[5..] == Digits(n);
      ValueOfDigits(m);
      ValueOfDigits(n);
    }
  }

  // Node j only got new children.
  ghost predicate NodeKept(nodes: seq<Node>, ns: seq<Node>, j: nat)
    requires j < |nodes| <= |ns|
  {
    && ns[j].name == nodes[j].name && ns[j].parent == nodes[j].parent && ns[j].function_ == nodes[j].function_
    && (forall c :: c in nodes[j].children ==> c in ns[j].children && ns[j].children[c] == nodes[j].children[c])
    && (forall c :: c in ns[j].children && c !in nodes[j].children ==> ns[j].children[c] >= |nodes|)
  }

  // New scopes and variables, none of them a function.
  ghost predicate Extends(nodes: seq<Node>, ns: seq<Node>) {
    && |nodes| <= |ns| && (forall j: nat :: j < |nodes| ==> NodeKept(nodes, ns, j))
    && (forall m :: |nodes| <= m < |ns| ==> ns[m].function_ == None)
  }

  lemma ExtendsMore(a: seq<Node>, b: seq<Node>, c: seq<Node>)
    requires Extends(a, b) && Extends(b, c)
    ensures Extends(a, c)
  {
    forall j: nat | j < |a| ensures NodeKept(a, c, j) {
      assert NodeKept(a, b, j) && NodeKept(b, c, j);
    }
    forall m: nat | |a| <= m < |c| ensures c[m].function_ == None {
      if m < |b| { assert b[m].function_ == None && NodeKept(b, c, m); }
    }
  }

  lemma WithChildExtends(nodes: seq<Node>, i: nat, name: string)
    requires i < |nodes|
    ensures Extends(nodes, WithChild(nodes, i, name))
  {
    var ns := WithChild(nodes, i, name);
    forall j: nat | j < |nodes| ensures NodeKept(nodes, ns, j) {
    }
    if name !in nodes[i].children {
      assert ns[|nodes|] == NewNode(name, i);
    }
  }

  // They change no lookup.
  lemma {:induction false} ExtendsResolves(nodes: seq<Node>, ns: seq<Node>, j: nat, key: string)
    requires TreeOK(nodes) && Extends(nodes, ns) && j < |nodes|
    ensures Resolve(ns, j, key) == Resolve(nodes, j, key) && Own(ns, j, key) == Own(nodes, j, key)
    decreases j
  {
    assert key in nodes[j].children ==> ChildOK(nodes, j, key) && NodeKept(nodes, ns, nodes[j].children[key]);
    assert NodeKept(nodes, ns, j);
    assert Own(ns, j, key) == Own(nodes, j, key);
    var p := nodes[j].parent;
    if p.Some? && p.value < j { ExtendsResolves(nodes, ns, p.value, key); }
  }

  function WithFunction(nodes: seq<Node>, i: nat, f: Fn): seq<Node>
    requires i < |nodes|
  {
    nodes[i := nodes[i].(function_ := Some(f))]
  }

  lemma WithFunctionOK(nodes: seq<Node>, i: nat, f: Fn)
    requires TreeOK(nodes) && i < |nodes|
    ensures TreeOK(WithFunction(nodes, i, f))
  {
    var ns := WithFunction(nodes, i, f);
    forall k: nat, c | k < |ns| && c in ns[k].children ensures ChildOK(ns, k, c) {
      assert ChildOK(nodes, k, c);
    }
    forall j: nat | 0 < j < |ns| ensures ParentOK(ns, j) {
      assert ParentOK(nodes, j);
    }
    forall k: nat | k < |ns| ensures NumbersOK(ns, k) {
      assert NumbersOK(nodes, k);
    }
  }

  // A definition is seen under its own key alone.
  lemma {:induction false} OtherKeysResolve(nodes: seq<Node>, i: nat, f: Fn, j: nat, key: string)
    requires TreeOK(nodes) && i < |nodes| && j < |nodes| && key != nodes[i].name
    ensures Resolve(WithFunction(nodes, i, f), j, key) == Resolve(nodes, j, key)
    decreases j
  {
    var ns := WithFunction(nodes, i, f);
    assert key in nodes[j].children ==> ChildOK(nodes, j, key);
    var p := nodes[j].parent;
    assert Own(ns, j, key) == Own(nodes, j, key);
    if p.Some? && p.value < j { OtherKeysResolve(nodes, i, f, p.value, key); }
  }

  // ---- names ----

  // The names of the scopes around and including i, from the outside in, without the root.
  function Outer(nodes: seq<Node>, i: nat): seq<string>
    requires i < |nodes|
  {
    var p := nodes[i].parent;
    if nodes[i].name == "" then []
    else (if p.Some? && p.value < i then Outer(nodes, p.value) else []) + [nodes[i].name]
  }

  // The symbol of the function whose scope is i.
  function SymbolAt(nodes: seq<Node>, i: nat): string
    requires TreeOK(nodes) && 0 < i < |nodes|
  {
    Symbol(Outer(nodes, Parent(nodes, i)), nodes[i].name)
  }

  lemma {:induction false} OuterStays(nodes: seq<Node>, ns: seq<Node>, i: nat)
    requires |nodes| <= |ns| && i < |nodes|
    requires forall j: nat :: j < |nodes| ==> ns[j].name == nodes[j].name && ns[j].parent == nodes[j].parent
    ensures Outer(ns, i) == Outer(nodes, i)
  {
    var p := nodes[i].parent;
    if p.Some? && p.value < i { OuterStays(nodes, ns, p.value); }
  }

  // ---- functions ----

  // A function node holds a function created under its own symbol.
  ghost predicate FnOK(nodes: seq<Node>, created: nat, i: nat)
    requires TreeOK(nodes) && i < |nodes|
  {
    nodes[i].function_.Some? ==>
      i > 0 && nodes[i].function_.value.no < created && nodes[i].function_.value.symbol == SymbolAt(nodes, i)
  }

  // ... and no function is held twice.
  ghost predicate FnsOK(nodes: seq<Node>, created: nat)
    requires TreeOK(nodes)
  {
    && (forall i: nat :: i < |nodes| ==> FnOK(nodes, created, i))
    && (forall i: nat, j: nat :: i < j < |nodes| && nodes[i].function_.Some? && nodes[j].function_.Some? ==>
          nodes[i].function_.value.no != nodes[j].function_.value.no)
  }

  lemma KeptNodes(nodes: seq<Node>, ns: seq<Node>)
    requires Extends(nodes, ns)
    ensures |nodes| <= |ns|
    ensures forall j: nat :: j < |nodes| ==>
              ns[j].name == nodes[j].name && ns[j].parent == nodes[j].parent && ns[j].function_ == nodes[j].function_
    ensures forall j: nat :: |nodes| <= j < |ns| ==> ns[j].function_ == None
  {
    forall j: nat | j < |nodes|
      ensures ns[j].name == nodes[j].name && ns[j].parent == nodes[j].parent && ns[j].function_ == nodes[j].function_
    {
      assert NodeKept(nodes, ns, j);
    }
  }

  lemma ExtendsFns(nodes: seq<Node>, ns: seq<Node>, created: nat)
    requires TreeOK(nodes) && FnsOK(nodes, created) && Extends(nodes, ns) && TreeOK(ns)
    ensures FnsOK(ns, created)
  {
    KeptNodes(nodes, ns);
    hide Extends;
    forall i: nat | i < |ns| ensures FnOK(ns, created, i) {
      if i < |nodes| {
        assert FnOK(nodes, created, i);
        if nodes[i].function_.Some? { OuterStays(nodes, ns, Parent(nodes, i)); }
      }
    }
  }

  lemma CreatedFns(nodes: seq<Node>, created: nat, i: nat, isStatic: bool)
    requires TreeOK(nodes) && FnsOK(nodes, created) && 0 < i < |nodes|
    ensures var ns := WithFunction(nodes, i, Fn(created, SymbolAt(nodes, i), isStatic));
            TreeOK(ns) && FnsOK(ns, created + 1)
  {
    var f := Fn(created, SymbolAt(nodes, i), isStatic);
    var ns := WithFunction(nodes, i, f);
    WithFunctionOK(nodes, i, f);
    var next := created + 1;
    forall j: nat | j < |ns| ensures FnOK(ns, next, j) {
      assert FnOK(nodes, created, j);
      if ns[j].function_.Some? { OuterStays(nodes, ns, Parent(nodes, j)); }
    }
    assert forall j: nat :: j < |nodes| && nodes[j].function_.Some? ==> FnOK(nodes, created, j);
  }

  // What a call means is held by some scope.
  lemma {:induction false} ResolvedIsHeld(nodes: seq<Node>, j: nat, key: string) returns (m: nat)
    requires j < |nodes| && Resolve(nodes, j, key).Some?
    ensures m < |nodes| && nodes[m].function_ == Resolve(nodes, j, key)
    decreases j
  {
    if Own(nodes, j, key).Some? {
      m := nodes[j].children[key];
    } else {
      m := ResolvedIsHeld(nodes, nodes[j].parent.value, key);
    }
  }

  // A function that another one replaces in its scope is never called again.
  lemma ReplacedIsLost(nodes: seq<Node>, created: nat, i: nat, f: Fn, j: nat, key: string)
    requires TreeOK(nodes) && FnsOK(nodes, created) && i < |nodes| && j < |nodes|
    requires nodes[i].function_.Some? && f.no == created
    ensures Resolve(WithFunction(nodes, i, f), j, key) != nodes[i].function_
  {
    var ns := WithFunction(nodes, i, f);
    assert FnOK(nodes, created, i);
    if Resolve(ns, j, key).Some? {
      var m := ResolvedIsHeld(ns, j, key);
      assert m != i ==> ns[m] == nodes[m];
    }
  }

  // ---- theorems about calls ----

  // In the scope of its definition, a call of a defined function finds it.
  lemma DefinedIsFound(nodes: seq<Node>, i: nat)
    requires TreeOK(nodes) && 0 < i < |nodes| && nodes[i].function_.Some?
    ensures Resolve(nodes, Parent(nodes, i), nodes[i].name) == nodes[i].function_
  {
    assert ParentOK(nodes, i);
  }

  // Scope j is i or lies inside it, and from j out to i none holds a function for the key.
  ghost predicate Unshadowed(nodes: seq<Node>, j: nat, i: nat, key: string)
    requires i < |nodes| && j < |nodes|
    decreases j
  {
    Own(nodes, j, key) == None
    && (j == i || (nodes[j].parent.Some? && nodes[j].parent.value < j
        && Unshadowed(nodes, nodes[j].parent.value, i, key)))
  }

  ghost predicate Inside(nodes: seq<Node>, j: nat, i: nat)
    requires j < |nodes|
    decreases j
  {
    j == i || (nodes[j].parent.Some? && i <= nodes[j].parent.value < j && Inside(nodes, nodes[j].parent.value, i))
  }

  // A call from scope j, somewhere inside the body of function i, under i's key:
  // it means i's function exactly when that one is known and no function of the
  // same key between the call and the body hides it.
  lemma {:induction false} OwnBodyCallExactly(nodes: seq<Node>, created: nat, i: nat, j: nat)
    requires TreeOK(nodes) && FnsOK(nodes, created) && 0 < i < |nodes| && j < |nodes| && Inside(nodes, j, i)
    requires nodes[i].function_.Some?
    ensures Resolve(nodes, j, nodes[i].name) == nodes[i].function_ <==> Unshadowed(nodes, j, i, nodes[i].name)
    decreases j
  {
    var key := nodes[i].name;
    if Own(nodes, j, key).Some? {
      assert ChildOK(nodes, j, key);
    } else if j == i {
      assert ParentOK(nodes, i);
      DefinedIsFound(nodes, i);
    } else {
      OwnBodyCallExactly(nodes, created, i, nodes[j].parent.value);
    }
  }

  // While its function is unknown, an unhidden call of it from the body means
  // what the same call means outside the scope of the definition.
  lemma {:induction false} UnknownBodyCall(nodes: seq<Node>, i: nat, j: nat)
    requires TreeOK(nodes) && 0 < i < |nodes| && j < |nodes| && nodes[i].function_ == None
    requires Unshadowed(nodes, j, i, nodes[i].name)
    ensures var s := Parent(nodes, i);
            Resolve(nodes, j, nodes[i].name)
              == (if s > 0 then Resolve(nodes, Parent(nodes, s), nodes[i].name) else None)
    decreases j
  {
    if j == i {
      assert ParentOK(nodes, i);
      var s := Parent(nodes, i);
      assert Own(nodes, s, nodes[i].name) == None;
      assert Resolve(nodes, i, nodes[i].name) == Resolve(nodes, s, nodes[i].name);
    } else {
      UnknownBodyCall(nodes, i, nodes[j].parent.value);
    }
  }

  // ---- whole bodies ----

  // The body of the function with this key has been begun in the given scope.
  ghost predicate Begun(before: seq<Node>, scope: nat, key: string, hasReturnType: bool, nodes: seq<Node>, i: nat)
    requires scope < |before|
  {
    && 0 < i < |nodes| && nodes[i].name == key
    && (nodes[i].function_.Some? <==> hasReturnType || Own(before, scope, key).Some?)
  }

  // What happens to the tree while a body is read: new scopes and variables, or
  // a function created for some scope.
  datatype Step = Grow | Create(at: nat, f: Fn)

  ghost predicate StepOK(nodes: seq<Node>, step: Step, ns: seq<Node>) {
    match step
    case Grow => Extends(nodes, ns)
    case Create(at, f) => at < |nodes| && ns == WithFunction(nodes, at, f)
  }

  ghost predicate StepsOK(run: seq<seq<Node>>, steps: seq<Step>) {
    |run| == |steps| + 1 && forall k :: 0 <= k < |steps| ==> StepOK(run[k], steps[k], run[k + 1])
  }

  ghost predicate CreatedFor(steps: seq<Step>, i: nat) {
    exists k :: 0 <= k < |steps| && steps[k].Create? && steps[k].at == i
  }

  lemma {:induction false} RunKeeps(run: seq<seq<Node>>, steps: seq<Step>, i: nat)
    requires StepsOK(run, steps) && i < |run[0]|
    ensures var last := run[|steps|];
            && i < |last| && last[i].name == run[0][i].name
            && (last[i].function_.Some? <==> run[0][i].function_.Some? || CreatedFor(steps, i))
  {
    if steps != [] {
      var n := |steps| - 1;
      var init := steps[..n];
      assert StepsOK(run[..n + 1], init);
      RunKeeps(run[..n + 1], init, i);
      assert StepOK(run[n], steps[n], run[n + 1]);
      if steps[n].Grow? { assert NodeKept(run[n], run[n + 1], i); }
      if CreatedFor(init, i) {
        var k :| 0 <= k < |init| && init[k].Create? && init[k].at == i;
        assert steps[k] == init[k];
      }
      if CreatedFor(steps, i) && !(steps[n].Create? && steps[n].at == i) {
        var k :| 0 <= k < |steps| && steps[k].Create? && steps[k].at == i;
        assert init[k] == steps[k];
      }
    }
  }

  // At any point of its body a function is found by a call of itself exactly
  // when it has a declared return type, its key was defined in that scope
  // before, or a function was declared directly in the body; and no function
  // of the same key hides it.
  lemma RecursiveCallExactly(before: seq<Node>, scope: nat, key: string, hasReturnType: bool,
                             run: seq<seq<Node>>, steps: seq<Step>, created: nat, i: nat, j: nat)
    requires scope < |before| && StepsOK(run, steps) && Begun(before, scope, key, hasReturnType, run[0], i)
    requires var now := run[|steps|]; TreeOK(now) && FnsOK(now, created) && j < |now| && i < |now| && Inside(now, j, i)
    ensures var now := run[|steps|];
            (now[i].function_.Some? && Resolve(now, j, key) == now[i].function_)
            <==> (hasReturnType || Own(before, scope, key).Some? || CreatedFor(steps, i)) && Unshadowed(now, j, i, key)
  {
    RunKeeps(run, steps, i);
    var now := run[|steps|];
    if now[i].function_.Some? { OwnBodyCallExactly(now, created, i, j); }
  }

  // ---- symbols of the tree ----

  // The name of a scope that functions can be nested in.
  ghost predicate IsScopeName(name: string) {
    exists s: Scope :: ScopeOK(s) && ScopeName(s) == name
  }

  // Everything lies in the root, in functions or in numbered blocks.
  ghost predicate ScopesOK(nodes: seq<Node>) {
    forall j: nat :: 0 < j < |nodes| && nodes[j].parent.Some? && 0 < nodes[j].parent.value < |nodes| ==>
      IsScopeName(nodes[nodes[j].parent.value].name)
  }

  ghost predicate IsKey(name: string) {
    exists id, names :: IdentifierOK(id) && NamesOK(names) && name == Mangle(id, names)
  }

  lemma {:induction false} OuterIsPath(nodes: seq<Node>, i: nat) returns (path: seq<Scope>)
    requires TreeOK(nodes) && ScopesOK(nodes) && i < |nodes| && (i > 0 ==> IsScopeName(nodes[i].name))
    ensures ScopeNames(path) == Outer(nodes, i) && forall k :: 0 <= k < |path| ==> ScopeOK(path[k])
    decreases i
  {
    if i == 0 {
      path := [];
    } else {
      assert ParentOK(nodes, i);
      var rest := OuterIsPath(nodes, Parent(nodes, i));
      var s: Scope :| ScopeOK(s) && ScopeName(s) == nodes[i].name;
      path := rest + [s];
      hide ScopeName, ScopeOK;
      assert ScopeNames(path) == ScopeNames(rest) + [ScopeName(s)];
    }
  }

  // The names on the way from the root tell scopes apart.
  lemma {:induction false} OuterInjective(nodes: seq<Node>, i: nat, j: nat)
    requires TreeOK(nodes) && i < |nodes| && j < |nodes| && Outer(nodes, i) == Outer(nodes, j)
    ensures i == j
    decreases i
  {
    if i > 0 { assert ParentOK(nodes, i); }
    if j > 0 { assert ParentOK(nodes, j); }
    if i > 0 && j > 0 {
      var a, b := Outer(nodes, Parent(nodes, i)), Outer(nodes, Parent(nodes, j));
      assert Outer(nodes, i) == a + [nodes[i].name] && Outer(nodes, j) == b + [nodes[j].name];
      assert (a + [nodes[i].name])[..|a|] == a && (b + [nodes[j].name])[..|b|] == b;
      OuterInjective(nodes, Parent(nodes, i), Parent(nodes, j));
    }
  }

  // Two scopes of functions never share a symbol.
  lemma SymbolsDiffer(nodes: seq<Node>, i: nat, j: nat)
    requires TreeOK(nodes) && ScopesOK(nodes) && 0 < i < |nodes| && 0 < j < |nodes| && i != j
    requires IsKey(nodes[i].name) && IsKey(nodes[j].name)
    ensures SymbolAt(nodes, i) != SymbolAt(nodes, j)
  {
    var id, xs :| IdentifierOK(id) && NamesOK(xs) && nodes[i].name == Mangle(id, xs);
    var other, ys :| IdentifierOK(other) && NamesOK(ys) && nodes[j].name == Mangle(other, ys);
    assert ParentOK(nodes, i) && ParentOK(nodes, j);
    var p := OuterIsPath(nodes, Parent(nodes, i));
    var q := OuterIsPath(nodes, Parent(nodes, j));
    SymbolExactly(p, id, xs, q, other, ys);
    if SymbolAt(nodes, i) == SymbolAt(nodes, j) {
      OuterInjective(nodes, Parent(nodes, i), Parent(nodes, j));
    }
  }

  // So in a valid tree different function nodes hold functions of different symbols.
  lemma FunctionSymbolsDiffer(nodes: seq<Node>, created: nat, i: nat, j: nat)
    requires TreeOK(nodes) && FnsOK(nodes, created) && ScopesOK(nodes) && i < |nodes| && j < |nodes| && i != j
    requires nodes[i].function_.Some? && IsKey(nodes[i].name) && nodes[j].function_.Some? && IsKey(nodes[j].name)
    ensures nodes[i].function_.value.symbol != nodes[j].function_.value.symbol
  {
    assert FnOK(nodes, created, i) && FnOK(nodes, created, j);
    SymbolsDiffer(nodes, i, j);
  }

  // New children keep that, in the root or a proper scope.
  lemma WithChildScopes(nodes: seq<Node>, i: nat, name: string)
    requires ScopesOK(nodes) && TreeOK(nodes) && i < |nodes| && (i > 0 ==> IsScopeName(nodes[i].name))
    ensures ScopesOK(WithChild(nodes, i, name))
  {
    var ns := WithChild(nodes, i, name);
    forall j: nat | 0 < j < |ns| && ns[j].parent.Some? && 0 < ns[j].parent.value < |ns|
      ensures IsScopeName(ns[ns[j].parent.value].name)
    {
      if j < |nodes| { assert ParentOK(nodes, j); }
    }
  }

  lemma KeyNotAnonymous(id: string, names: seq<string>)
    ensures Mangle(id, names) != "" && !IsAnonymous(Mangle(id, names))
  {
    assert Mangle(id, names)[0] == Digits(|id|)[0];
    forall n: nat ensures Mangle(id, names) != Anonymous(n) {
      assert Anonymous(n)[0] == 'a';
    }
  }

  datatype FuncParam = FuncParam(functionName: string, argTypes: seq<Type>, argNames: seq<string>, isStatic: bool)

  function WithChildren(nodes: seq<Node>, i: nat, names: seq<string>): (r: seq<Node>)
    requires i < |nodes|
    ensures |r| >= |nodes|
  {
    if names == [] then nodes else WithChild(WithChildren(nodes, i, names[..|names| - 1]), i, names[|names| - 1])
  }

  lemma ChildKnown(nodes: seq<Node>, i: nat, name: string)
    requires TreeOK(nodes) && i < |nodes| && name in nodes[i].children
    ensures var j := nodes[i].children[name]; i < j < |nodes| && nodes[j].name == name && Parent(nodes, j) == i
  {
    assert ChildOK(nodes, i, name);
  }

  function CountUp(nodes: seq<Node>, i: nat): seq<Node>
    requires i < |nodes|
  {
    nodes[i := nodes[i].(nameNo := nodes[i].nameNo + 1)]
  }

  lemma CountUpOK(nodes: seq<Node>, i: nat)
    requires TreeOK(nodes) && i < |nodes|
    ensures TreeOK(CountUp(nodes, i)) && Anonymous(nodes[i].nameNo) !in nodes[i].children
  {
    var ns := CountUp(nodes, i);
    forall k: nat, c | k < |ns| && c in ns[k].children ensures ChildOK(ns, k, c) {
      assert ChildOK(nodes, k, c);
    }
    forall j: nat | 0 < j < |ns| ensures ParentOK(ns, j) {
      assert ParentOK(nodes, j);
    }
    forall k: nat | k < |ns| ensures NumbersOK(ns, k) {
      assert NumbersOK(nodes, k);
    }
    assert NumbersOK(nodes, i);
  }

  lemma CountUpKeeps(nodes: seq<Node>, i: nat, created: nat)
    requires TreeOK(nodes) && i < |nodes| && FnsOK(nodes, created)
    ensures var ns := CountUp(nodes, i);
            TreeOK(ns) && FnsOK(ns, created) && Extends(nodes, ns) && (ScopesOK(nodes) ==> ScopesOK(ns))
    ensures Anonymous(nodes[i].nameNo) !in nodes[i].children
  {
    CountUpOK(nodes, i);
    ExtendsFns(nodes, CountUp(nodes, i), created);
    if ScopesOK(nodes) { SameNamesScoped(nodes, CountUp(nodes, i)); }
  }

  lemma StillChild(nodes: seq<Node>, ns: seq<Node>, j: nat)
    requires Extends(nodes, ns) && j < |nodes|
    ensures NodeKept(nodes, ns, j)
  {
  }

  lemma FlagOK(nodes: seq<Node>, i: nat)
    requires TreeOK(nodes) && i < |nodes|
    ensures var ns := nodes[i := nodes[i].(isFuncRoot := true)]; TreeOK(ns) && Extends(nodes, ns)
  {
    var ns := nodes[i := nodes[i].(isFuncRoot := true)];
    forall k: nat, c | k < |ns| && c in ns[k].children ensures ChildOK(ns, k, c) {
      assert ChildOK(nodes, k, c);
    }
    forall j: nat | 0 < j < |ns| ensures ParentOK(ns, j) {
      assert ParentOK(nodes, j);
    }
    forall k: nat | k < |ns| ensures NumbersOK(ns, k) {
      assert NumbersOK(nodes, k);
    }
  }

  lemma SameNamesScoped(nodes: seq<Node>, ns: seq<Node>)
    requires ScopesOK(nodes) && |nodes| == |ns|
    requires forall j: nat :: j < |ns| ==> ns[j].name == nodes[j].name && ns[j].parent == nodes[j].parent
    ensures ScopesOK(ns)
  {
    hide IsScopeName;
  }

  lemma BlockIsScope(no: nat)
    ensures IsScopeName(Anonymous(no))
  {
    assert ScopeOK(Block(no)) && ScopeName(Block(no)) == Anonymous(no);
  }

  lemma KeyIsScope(id: string, names: seq<string>)
    ensures IdentifierOK(id) ==> IsScopeName(Mangle(id, names))
  {
    assert IdentifierOK(id) ==> ScopeOK(Function(id, names));
    assert ScopeName(Function(id, names)) == Mangle(id, names);
  }

  // A scope entered again keeps its function; a new one has none.
  lemma EnteredHolds(nodes: seq<Node>, i: nat, name: string, ns: seq<Node>)
    requires TreeOK(nodes) && i < |nodes| && ns == WithChild(nodes, i, name)
    ensures name in ns[i].children && ns[i].children[name] < |ns|
            && ns[ns[i].children[name]].function_ == Own(nodes, i, name)
  {
    if name in nodes[i].children { assert ChildOK(nodes, i, name); }
  }

  lemma SizedNone()
    ensures Sized([]) == ""
  {
  }

  class BlockScopeManager {
    var nodes: seq<Node>
    var current: nat
    // How many functions the module has.
    var created: nat

    ghost predicate Valid()
      reads this
    {
      TreeOK(nodes) && current < |nodes| && FnsOK(nodes, created)
    }

    // Only functions and numbered blocks are entered.
    ghost predicate Scoped()
      reads this
    {
      current < |nodes| && ScopesOK(nodes) && (current > 0 ==> IsScopeName(nodes[current].name))
    }

    // The function that a call with this key means here.
    ghost function Callee(key: string): Option<Fn>
      requires Valid()
      reads this
    {
      Resolve(nodes, current, key)
    }

    constructor ()
      ensures Valid() && Scoped() && current == 0 && created == 0
      ensures nodes == [Node("", None, map[], None, 0, false)]
    {
      nodes := [Node("", None, map[], None, 0, false)];
      current := 0;
      created := 0;
    }

    // An existing scope of that name is entered again.
    method EnterScope(name: string)
      requires Valid() && name != ""
      requires !IsAnonymous(name) || exists n: nat :: name == Anonymous(n) && n < nodes[current].nameNo
      modifies this`nodes, this`current
      ensures Valid() && nodes == WithChild(old(nodes), old(current), name)
      ensures Extends(old(nodes), nodes)
      ensures name in nodes[old(current)].children && current == nodes[old(current)].children[name]
      ensures current > 0 && Parent(nodes, current) == old(current) && nodes[current].name == name
      ensures name !in old(nodes[current].children) ==>
                nodes[current] == Node(name, Some(old(current)), map[], None, 0, false)
      ensures old(Scoped()) && IsScopeName(name) ==> Scoped()
    {
      WithChildOK(nodes, current, name);
      WithChildExtends(nodes, current, name);
      ExtendsFns(nodes, WithChild(nodes, current, name), created);
      if Scoped() { WithChildScopes(nodes, current, name); }
      hide TreeOK, Extends, FnsOK, ScopesOK, IsScopeName;
      if name !in nodes[current].children {
        nodes := WithChild(nodes, current, name);
      }
      ChildKnown(nodes, current, name);
      current := nodes[current].children[name];
    }

    // Every anonymous scope is a new one.
    method EnterAnonymousScope()
      requires Valid()
      modifies this`nodes, this`current
      ensures Valid() && current == |old(nodes)| && |nodes| == current + 1
      ensures nodes[current] == Node(Anonymous(old(nodes[current].nameNo)), Some(old(current)), map[], None, 0, false)
      ensures nodes[old(current)].nameNo == old(nodes[current].nameNo) + 1
      ensures Extends(old(nodes), nodes)
      ensures old(Scoped()) ==> Scoped()
    {
      var no := nodes[current].nameNo;
      CountUpKeeps(nodes, current, created);
      hide TreeOK, FnsOK, IsScopeName, Extends, ScopesOK;
      ghost var before := nodes;
      nodes := CountUp(nodes, current);
      ghost var counted := nodes;
      BlockIsScope(no);
      EnterScope(Anonymous(no));
      ExtendsMore(before, counted, nodes);
    }

    // Fails in the root scope.
    method LeaveScope() returns (ok: bool)
      requires Valid()
      modifies this`current
      ensures Valid() && (ok <==> old(current) > 0)
      ensures if ok then current == Parent(nodes, old(current)) else current == old(current)
      ensures old(Scoped()) ==> Scoped()
    {
      hide IsScopeName;
      ok := nodes[current].name != "";
      if current > 0 { assert ParentOK(nodes, current); }
      if ok { current := nodes[current].parent.value; }
    }

    method VariableDefine(name: string) returns (ok: bool)
      requires Valid() && name != "" && !IsAnonymous(name)
      modifies this`nodes
      ensures Valid() && nodes == WithChild(old(nodes), current, name)
      ensures ok <==> name !in old(nodes[current].children)
      ensures Extends(old(nodes), nodes)
      ensures old(Scoped()) ==> Scoped()
    {
      WithChildOK(nodes, current, name);
      WithChildExtends(nodes, current, name);
      ExtendsFns(nodes, WithChild(nodes, current, name), created);
      if Scoped() { WithChildScopes(nodes, current, name); }
      hide TreeOK, FnsOK, ScopesOK, IsScopeName;
      ok := name !in nodes[current].children;
      nodes := WithChild(nodes, current, name);
    }

    // Start the definition of a function: its scope, with its arguments.
    method InsertFunction(params: FuncParam) returns (after: FuncParam)
      requires Valid() && |params.argNames| <= |params.argTypes|
      requires forall i :: 0 <= i < |params.argNames| ==> params.argNames[i] != "" && !IsAnonymous(params.argNames[i])
      modifies this`nodes, this`current
      ensures Valid() && Extends(old(nodes), nodes)
      ensures current > 0 && Parent(nodes, current) == old(current) && nodes[current].isFuncRoot
      ensures nodes[current].name == Mangle(params.functionName, TypeNames(params.argTypes))
      ensures nodes[current].function_ == Own(old(nodes), old(current), nodes[current].name)
      ensures after == params.(functionName := params.functionName + Sized(TypeNames(params.argTypes)))
      ensures forall i :: 0 <= i < |params.argNames| ==> params.argNames[i] in nodes[current].children
      ensures old(Scoped()) && IdentifierOK(params.functionName) ==> Scoped()
    {
      var funcName;
      funcName, after := MangleParams(params);
      KeyNotAnonymous(params.functionName, TypeNames(params.argTypes));
      KeyIsScope(params.functionName, TypeNames(params.argTypes));
      hide TreeOK, FnsOK, Extends, IsAnonymous, Mangle, ScopesOK, IsScopeName, IdentifierOK;
      ghost var was := Own(nodes, current, funcName);
      EnterScope(funcName);
      EnteredHolds(old(nodes), old(current), funcName, nodes);
      ghost var at, entered := current, nodes;
      ghost var scoped := Scoped();
      var i := 0;
      while i < |params.argNames|
        invariant 0 <= i <= |params.argNames| && Valid() && current == at > 0 && Parent(nodes, current) == old(current)
        invariant nodes[current].name == funcName && Extends(old(nodes), nodes) && nodes[current].function_ == was
        invariant forall k :: 0 <= k < i ==> params.argNames[k] in nodes[current].children
        invariant scoped ==> Scoped()
      {
        ghost var before := nodes;
        var _ := VariableDefine(params.argNames[i]);
        ExtendsMore(old(nodes), before, nodes);
        StillChild(before, nodes, current);
        i := i + 1;
      }
      ghost var filled := nodes;
      nodes := nodes[current := nodes[current].(isFuncRoot := true)];
      FlagOK(filled, current);
      ExtendsFns(filled, nodes, created);
      if scoped { SameNamesScoped(filled, nodes); }
      ExtendsMore(old(nodes), filled, nodes);
    }

    // The key of a definition; the parameters' name grows with it.
    static method MangleParams(params: FuncParam) returns (funcName: string, after: FuncParam)
      ensures funcName == Mangle(params.functionName, TypeNames(params.argTypes))
      ensures after == params.(functionName := params.functionName + Sized(TypeNames(params.argTypes)))
    {
      hide Digits, TypeName, Sized;
      SizedNone();
      funcName := Digits(|params.functionName|) + params.functionName + "@P";
      after := params;
      var i := 0;
      ghost var names := TypeNames(params.argTypes);
      ghost var prefix := funcName;
      while i < |params.argTypes|
        invariant 0 <= i <= |params.argTypes|
        invariant funcName == prefix + Sized(names[..i])
        invariant after == params.(functionName := params.functionName + Sized(names[..i]))
      {
        var argName := TypeName(params.argTypes[i]);
        SizedMore(names[..i], argName);
        assert names[..i + 1] == names[..i] + [argName];
        Assoc(prefix, Sized(names[..i]), Digits(|argName|));
        Assoc(prefix, Sized(names[..i]) + Digits(|argName|), argName);
        Assoc(params.functionName, Sized(names[..i]), Digits(|argName|));
        Assoc(params.functionName, Sized(names[..i]) + Digits(|argName|), argName);
        funcName := funcName + Digits(|argName|) + argName;
        after := after.(functionName := after.functionName + Digits(|argName|) + argName);
        i := i + 1;
      }
      assert names[..i] == names;
    }

    // The names of the scopes around this one, from the outside in.
    method OuterNames() returns (names: seq<string>)
      requires Valid() && current > 0
      ensures names == Outer(nodes, Parent(nodes, current))
    {
      hide FnsOK, Digits;
      assert ParentOK(nodes, current);
      var tmp: nat := nodes[current].parent.value;
      names := [];
      while nodes[tmp].name != ""
        invariant tmp < |nodes| && Outer(nodes, Parent(nodes, current)) == Outer(nodes, tmp) + names
        decreases tmp
      {
        assert ParentOK(nodes, tmp);
        var p: nat := nodes[tmp].parent.value;
        assert Outer(nodes, tmp) == Outer(nodes, p) + [nodes[tmp].name];
        names := [nodes[tmp].name] + names;
        tmp := p;
      }
    }

    // The symbol of the function whose scope this is.
    method GetFunctionName() returns (name: string)
      requires Valid() && current > 0
      ensures name == SymbolAt(nodes, current)
    {
      hide TreeOK, FnsOK, Outer, Digits;
      var names := OuterNames();
      name := "_FN";
      var i := 0;
      while i < |names|
        invariant 0 <= i <= |names| && name == "_FN" + Sized(names[..i])
      {
        SizedMore(names[..i], names[i]);
        assert names[..i + 1] == names[..i] + [names[i]];
        Assoc("_FN", Sized(names[..i]), Digits(|names[i]|));
        Assoc("_FN", Sized(names[..i]) + Digits(|names[i]|), names[i]);
        name := name + Digits(|names[i]|) + names[i];
        i := i + 1;
      }
      assert names[..i] == names;
      name := name + nodes[current].name;
    }

    // The scope's function is created anew, and replaces the one it had.
    method DeclareFunction(isStatic: bool)
      requires Valid() && current > 0
      modifies this`nodes, this`created
      ensures Valid() && created == old(created) + 1
      ensures var f := Fn(old(created), SymbolAt(old(nodes), current), isStatic);
              nodes == WithFunction(old(nodes), current, f) && nodes[current].function_ == Some(f)
      ensures Resolve(nodes, Parent(nodes, current), nodes[current].name) == nodes[current].function_
      ensures forall j: nat, key :: j < |nodes| && key != nodes[current].name ==>
                Resolve(nodes, j, key) == old(Resolve(nodes, j, key))
      ensures old(nodes[current].function_).Some? ==>
                forall j: nat, key :: j < |nodes| ==> Resolve(nodes, j, key) != old(nodes[current].function_)
      ensures old(Scoped()) ==> Scoped()
    {
      var symbol := GetFunctionName();
      var f := Fn(created, symbol, isStatic);
      ghost var before := nodes;
      CreatedFns(nodes, created, current, isStatic);
      nodes := WithFunction(nodes, current, f);
      forall j: nat, key | j < |nodes| && key != nodes[current].name
        ensures Resolve(nodes, j, key) == Resolve(before, j, key)
      {
        OtherKeysResolve(before, current, f, j, key);
      }
      forall j: nat, key | j < |nodes| && before[current].function_.Some?
        ensures Resolve(nodes, j, key) != before[current].function_
      {
        ReplacedIsLost(before, created, current, f, j, key);
      }
      DefinedIsFound(nodes, current);
      created := created + 1;
    }

    // The end of a definition: the scope has a function from here on, the one
    // declared or defined before if there is one.
    method DefineFunction(isStatic: bool)
      requires Valid() && current > 0
      modifies this`nodes, this`created
      ensures Valid() && nodes[current].function_.Some?
      ensures old(nodes[current].function_).Some? ==> nodes == old(nodes) && created == old(created)
      ensures old(nodes[current].function_) == None ==>
                nodes == WithFunction(old(nodes), current, Fn(old(created), SymbolAt(old(nodes), current), isStatic))
                && created == old(created) + 1
      ensures Resolve(nodes, Parent(nodes, current), nodes[current].name) == nodes[current].function_
      ensures forall j: nat, key :: j < |nodes| && key != nodes[current].name ==>
                Resolve(nodes, j, key) == old(Resolve(nodes, j, key))
      ensures old(Scoped()) ==> Scoped()
    {
      if nodes[current].function_ == None {
        DeclareFunction(isStatic);
      } else {
        DefinedIsFound(nodes, current);
      }
    }

    // The opening brace of a body. With a declared return type the function is
    // created at once; without one it waits for the end of the body.
    method BeginBody(params: FuncParam, hasReturnType: bool) returns (after: FuncParam)
      requires Valid() && |params.argNames| <= |params.argTypes|
      requires forall i :: 0 <= i < |params.argNames| ==> params.argNames[i] != "" && !IsAnonymous(params.argNames[i])
      modifies this
      ensures Valid() && current > 0 && Parent(nodes, current) == old(current)
      ensures Begun(old(nodes), old(current), Mangle(params.functionName, TypeNames(params.argTypes)),
                    hasReturnType, nodes, current)
      ensures !hasReturnType ==> Extends(old(nodes), nodes) && created == old(created)
      ensures hasReturnType ==> created == old(created) + 1 && nodes[current].function_.value.no == old(created)
      ensures old(Scoped()) && IdentifierOK(params.functionName) ==> Scoped()
    {
      hide TreeOK, FnsOK, Mangle, Extends, IdentifierOK, IsAnonymous;
      after := InsertFunction(params);
      if hasReturnType { DeclareFunction(params.isStatic); }
    }

    // The closing brace.
    method EndBody(isStatic: bool)
      requires Valid() && current > 0
      modifies this
      ensures Valid() && old(current) < |nodes| && current == Parent(nodes, old(current))
      ensures nodes[old(current)].function_.Some?
      ensures Callee(nodes[old(current)].name) == nodes[old(current)].function_
      ensures old(Scoped()) ==> Scoped()
    {
      hide TreeOK, FnsOK;
      DefineFunction(isStatic);
      var _ := LeaveScope();
    }

    // A declaration without a body creates a function for the scope it stands
    // in: it never makes its own name known. In the root it fails, as there is
    // no scope around to name the function from.
    method ForwardDeclaration(id: string, types: seq<Type>, isStatic: bool) returns (ok: bool)
      requires Valid()
      modifies this`nodes, this`created
      ensures Valid() && (ok <==> current > 0)
      ensures !ok ==> nodes == old(nodes) && created == old(created)
      ensures ok ==> nodes[current].function_ == Some(Fn(old(created), SymbolAt(old(nodes), current), isStatic))
      ensures Mangle(id, TypeNames(types)) != nodes[current].name ==>
                Callee(Mangle(id, TypeNames(types))) == old(Callee(Mangle(id, TypeNames(types))))
    {
      ok := current > 0;
      if ok { DeclareFunction(isStatic); }
    }

    // The nearest function for the identifier and the types of the arguments;
    // without one the call is an error.
    method GetCallee(id: string, args: seq<Type>) returns (callee: Option<Fn>)
      requires Valid()
      ensures callee == Callee(Mangle(id, TypeNames(args)))
    {
      hide FnsOK, Digits, TypeName, Sized;
      SizedNone();
      var funcName := Digits(|id|) + id + "@P";
      ghost var names := TypeNames(args);
      ghost var prefix := funcName;
      var i := 0;
      while i < |args|
        invariant 0 <= i <= |args| && funcName == prefix + Sized(names[..i])
      {
        var tmp := TypeName(args[i]);
        SizedMore(names[..i], tmp);
        assert names[..i + 1] == names[..i] + [tmp];
        funcName := funcName + Digits(|tmp|) + tmp;
        i := i + 1;
      }
      assert names[..i] == names;
      var node: nat := current;
      while true
        invariant node < |nodes| && Resolve(nodes, node, funcName) == Callee(funcName)
        decreases node
      {
        callee := Own(nodes, node, funcName);
        if callee.Some? { return; }
        if node > 0 { assert ParentOK(nodes, node); }
        if nodes[node].parent == None { return; }
        node := nodes[node].parent.value;
      }
    }
  }
}
