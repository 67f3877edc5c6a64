// Names of functions: the key a scope stores a function under, and the symbol
// it gets in the module.
module Mangling {
  import opened Decimal

  // Other: void, pointers, arrays and all the other kinds, which get no name.
  datatype Type = Integer(width: nat) | Float | Double | Struct(name: string) | Other(kind: nat)

  function TypeName(t: Type): string {
    match t
    case Integer(w) => "i" + Digits(w)
    case Float => "float"
    case Double => "double"
    case Struct(name) => name
    case Other(_) => ""
  }

  function TypeNames(types: seq<Type>): seq<string> {
    seq(|types|, i requires 0 <= i < |types| => TypeName(types[i]))
  }

  // Each string after its length.
  function Sized(names: seq<string>): string {
    if names == [] then "" else Digits(|names[0]|) + names[0] + Sized(names[1..])
  }

  function Mangle(id: string, names: seq<string>): string {
    Digits(|id|) + id + "@P" + Sized(names)
  }

  // No name begins with a digit.
  ghost predicate NamesOK(names: seq<string>) {
    forall i :: 0 <= i < |names| ==> NoLeadingDigit(names[i])
  }

  lemma {:induction false} SizedMore(names: seq<string>, name: string)
    ensures Sized(names + [name]) == Sized(names) + Digits(|name|) + name
  {
    if names == [] {
      assert Sized([name]) == Digits(|name|) + name + Sized([]);
    } else {
      SizedMore(names[1..], name);
      assert (names + [name])[1..] == names[1..] + [name];
    }
  }

  lemma {:induction false} FirstDigit(n: nat)
    ensures Digits(n)[0] == '0' <==> n == 0
  {
    if n >= 10 { FirstDigit(n / 10); }
  }

  // Lists of sized names read the same only when they are the same.
  lemma {:induction false} SizedInjective(xs: seq<string>, ys: seq<string>)
    requires NamesOK(xs) && NamesOK(ys) && Sized(xs) == Sized(ys)
    ensures xs == ys
  {
    if xs != [] && ys != [] {
      SameHead(xs[0], Sized(xs[1..]), ys[0], Sized(ys[1..]));
      SizedInjective(xs[1..], ys[1..]);
      assert xs == [xs[0]] + xs[1..] && ys == [ys[0]] + ys[1..];
    }
  }

  lemma Cancel(p: string, x: string, q: string, y: string)
    requires p + x == q + y && |p| == |q|
    ensures p == q && x == y
  {
    assert (p + x)[..|p|] == p && (q + y)[..|p|] == q;
    assert (p + x)[|p|..] == x && (q + y)[|p|..] == y;
  }

  lemma SameHead(x: string, xs: string, y: string, ys: string)
    requires NoLeadingDigit(x) && NoLeadingDigit(y)
    requires Digits(|x|) + x + xs == Digits(|y|) + y + ys
    ensures x == y && xs == ys
  {
    hide Digits;
    Assoc(Digits(|x|), x, xs);
    Assoc(Digits(|y|), y, ys);
    BothEmpty(|x|, x + xs, |y|, y + ys);
    if x == "" {
      assert x + xs == xs && y + ys == ys;
      Cancel(Digits(0), xs, Digits(0), ys);
    } else {
      assert (x + xs)[0] == x[0] && (y + ys)[0] == y[0];
      DigitsInjective(|x|, x + xs, |y|, y + ys);
      Cancel(x, xs, y, ys);
    }
  }

  lemma BothEmpty(m: nat, x: string, n: nat, y: string)
    requires Digits(m) + x == Digits(n) + y
    ensures m == 0 <==> n == 0
  {
    FirstDigit(m);
    FirstDigit(n);
    hide Digits;
    assert (Digits(m) + x)[0] == Digits(m)[0] && (Digits(n) + y)[0] == Digits(n)[0];
  }

  // Two functions share a key exactly when identifier and type names agree.
  lemma MangleExactly(id: string, xs: seq<string>, other: string, ys: seq<string>)
    requires NoLeadingDigit(id) && NoLeadingDigit(other) && NamesOK(xs) && NamesOK(ys)
    ensures Mangle(id, xs) == Mangle(other, ys) <==> id == other && xs == ys
  {
    if Mangle(id, xs) == Mangle(other, ys) {
      var x, y := "@P" + Sized(xs), "@P" + Sized(ys);
      assert Digits(|id|) + id + x == Mangle(id, xs);
      assert Digits(|other|) + other + y == Mangle(other, ys);
      SameHead(id, x, other, y);
      assert x[2..] == Sized(xs) && y[2..] == Sized(ys);
      SizedInjective(xs, ys);
    }
  }

  // Types of the same name: equal ones, two without a name, or a struct that is
  // named like the other.
  ghost predicate Confused(t: Type, u: Type) {
    t == u || (t.Other? && u.Other?) || (t.Struct? && t.name == TypeName(u)) || (u.Struct? && u.name == TypeName(t))
  }

  lemma TypeNameExactly(t: Type, u: Type)
    ensures TypeName(t) == TypeName(u) <==> Confused(t, u)
  {
    if t.Integer? && u.Integer? && TypeName(t) == TypeName(u) {
      assert TypeName(t)[1..] == Digits(t.width) && TypeName(u)[1..] == Digits(u.width);
      ValueOfDigits(t.width);
      ValueOfDigits(u.width);
    }
    if t.Integer? && (u.Float? || u.Double?) {
      assert TypeName(t)[0] == 'i' && TypeName(u)[0] != 'i';
    }
    if u.Integer? && (t.Float? || t.Double?) {
      assert TypeName(u)[0] == 'i' && TypeName(t)[0] != 'i';
    }
  }

  // Structs are named by identifiers.
  ghost predicate TypesOK(types: seq<Type>) {
    forall i :: 0 <= i < |types| && types[i].Struct? ==> NoLeadingDigit(types[i].name)
  }

  lemma TypeNamesOK(types: seq<Type>)
    requires TypesOK(types)
    ensures NamesOK(TypeNames(types))
  {
  }

  // Two functions share a key exactly when the identifiers agree and the
  // arguments pair up, each with one it may be confused with.
  lemma KeyExactly(id: string, ts: seq<Type>, other: string, us: seq<Type>)
    requires NoLeadingDigit(id) && NoLeadingDigit(other) && TypesOK(ts) && TypesOK(us)
    ensures Mangle(id, TypeNames(ts)) == Mangle(other, TypeNames(us))
       <==> id == other && |ts| == |us| && forall i :: 0 <= i < |ts| ==> Confused(ts[i], us[i])
  {
    TypeNamesOK(ts);
    TypeNamesOK(us);
    MangleExactly(id, TypeNames(ts), other, TypeNames(us));
    hide Mangle, TypeName, Confused, TypesOK, NamesOK;
    forall i | 0 <= i < |ts| && |ts| == |us| ensures TypeName(ts[i]) == TypeName(us[i]) <==> Confused(ts[i], us[i]) {
      TypeNameExactly(ts[i], us[i]);
    }
    assert forall i :: 0 <= i < |ts| ==> TypeNames(ts)[i] == TypeName(ts[i]);
    assert forall i :: 0 <= i < |us| ==> TypeNames(us)[i] == TypeName(us[i]);
  }

  // ---- symbols ----

  // The scopes a function can be nested in: functions, and blocks by number.
  datatype Scope = Function(id: string, names: seq<string>) | Block(no: nat)

  function ScopeName(s: Scope): string {
    match s
    case Function(id, names) => Mangle(id, names)
    case Block(no) => "anon." + Digits(no)
  }

  function ScopeNames(path: seq<Scope>): seq<string> {
    seq(|path|, i requires 0 <= i < |path| => ScopeName(path[i]))
  }

  // The symbol of a function with the given key, inside the given scopes.
  function Symbol(path: seq<string>, key: string): string {
    "_FN" + Sized(path) + key
  }

  ghost predicate IdentifierOK(id: string) {
    id != "" && !IsDigit(id[0]) && '@' !in id && '.' !in id
  }

  ghost predicate ScopeOK(s: Scope) {
    s.Function? ==> IdentifierOK(s.id)
  }

  // Some digits, then a word, then '@' or '.', then anything.
  ghost predicate Begins(s: string, digits: string, word: string, mark: char, rest: string) {
    && word != "" && !IsDigit(word[0]) && '@' !in word && '.' !in word && (mark == '@' || mark == '.')
    && (forall i :: 0 <= i < |digits| ==> IsDigit(digits[i]))
    && s == digits + (word + ([mark] + rest))
  }

  lemma SplitDigits(d: string, x: string, e: string, y: string)
    requires (forall i :: 0 <= i < |d| ==> IsDigit(d[i])) && (forall i :: 0 <= i < |e| ==> IsDigit(e[i]))
    requires x != [] && !IsDigit(x[0]) && y != [] && !IsDigit(y[0]) && d + x == e + y
    ensures d == e && x == y
  {
    assert (d + x)[|d|] == x[0] && (e + y)[|e|] == y[0];
    assert forall i :: 0 <= i < |d| ==> (d + x)[i] == d[i];
    assert forall i :: 0 <= i < |e| ==> (e + y)[i] == e[i];
    Cancel(d, x, e, y);
  }

  lemma SplitWord(w: string, x: string, v: string, y: string)
    requires '@' !in w && '.' !in w && '@' !in v && '.' !in v
    requires x != [] && (x[0] == '@' || x[0] == '.') && y != [] && (y[0] == '@' || y[0] == '.') && w + x == v + y
    ensures w == v && x == y
  {
    assert (w + x)[|w|] == x[0] && (v + y)[|v|] == y[0];
    assert forall i :: 0 <= i < |w| ==> (w + x)[i] == w[i] && w[i] in w;
    assert forall i :: 0 <= i < |v| ==> (v + y)[i] == v[i] && v[i] in v;
    Cancel(w, x, v, y);
  }

  lemma BeginsOnce(s: string, d: string, w: string, m: char, x: string, e: string, v: string, n: char, y: string)
    requires Begins(s, d, w, m, x) && Begins(s, e, v, n, y)
    ensures d == e && w == v && m == n
  {
    assert (w + ([m] + x))[0] == w[0] && (v + ([n] + y))[0] == v[0];
    SplitDigits(d, w + ([m] + x), e, v + ([n] + y));
    SplitWord(w, [m] + x, v, [n] + y);
    assert ([m] + x)[0] == m && ([n] + y)[0] == n;
  }

  // A key begins with its length and its identifier.
  lemma KeyBegins(id: string, names: seq<string>) returns (rest: string)
    requires IdentifierOK(id)
    ensures Begins(Mangle(id, names), Digits(|id|), id, '@', rest)
  {
    rest := "P" + Sized(names);
    assert "@P" + Sized(names) == ['@'] + rest;
    Assoc(Digits(|id|), id, "@P");
    Assoc(Digits(|id|), id + "@P", Sized(names));
    Assoc(id, "@P", Sized(names));
  }

  // A scope in a symbol begins with its size, and then as a key or with "anon.".
  lemma ScopeBegins(s: Scope, after: string) returns (rest: string)
    requires ScopeOK(s)
    ensures var n := ScopeName(s); var all := Digits(|n|) + n + after;
            if s.Function? then Begins(all, Digits(|n|) + Digits(|s.id|), s.id, '@', rest)
            else Begins(all, Digits(|n|), "anon", '.', rest)
  {
    var n := ScopeName(s);
    hide Mangle, Digits;
    if s.Function? {
      var r := KeyBegins(s.id, s.names);
      rest := r + after;
      KeyIn(Digits(|n|), Digits(|s.id|), s.id, r, after);
    } else {
      rest := Digits(s.no) + after;
      assert n == "anon" + (['.'] + Digits(s.no));
      Assoc(Digits(|n|), n, after);
      Assoc("anon", ['.'] + Digits(s.no), after);
      Assoc(['.'], Digits(s.no), after);
    }
  }

  lemma KeyIn(d: string, e: string, id: string, r: string, after: string)
    ensures d + (e + (id + (['@'] + r))) + after == (d + e) + (id + (['@'] + (r + after)))
  {
    var t := id + (['@'] + r);
    Assoc(d, e + t, after);
    Assoc(e, t, after);
    Assoc(d, e, t + after);
    Assoc(id, ['@'] + r, after);
    Assoc(['@'], r, after);
  }

  // The text of a whole path with its key.
  function Tail(path: seq<Scope>, key: string): string {
    Sized(ScopeNames(path)) + key
  }

  lemma TailStep(path: seq<Scope>, key: string)
    requires path != []
    ensures var n := ScopeName(path[0]); Tail(path, key) == Digits(|n|) + n + Tail(path[1..], key)
  {
    assert ScopeNames(path)[1..] == ScopeNames(path[1..]);
    var n := ScopeName(path[0]);
    hide Digits, Mangle, ScopeName;
    Assoc(Digits(|n|) + n, Sized(ScopeNames(path[1..])), key);
  }

  // A key alone is no text of a longer path.
  lemma KeyIsNoPath(id: string, names: seq<string>, path: seq<Scope>, key: string)
    requires IdentifierOK(id) && path != [] && ScopeOK(path[0])
    ensures Mangle(id, names) != Tail(path, key)
  {
    var s := path[0];
    var n := ScopeName(s);
    TailStep(path, key);
    var r := KeyBegins(id, names);
    var q := ScopeBegins(s, Tail(path[1..], key));
    hide Mangle, Digits, ScopeName, Tail;
    if Mangle(id, names) == Tail(path, key) {
      if s.Function? {
        BeginsOnce(Tail(path, key), Digits(|id|), id, '@', r, Digits(|n|) + Digits(|s.id|), s.id, '@', q);
      } else {
        BeginsOnce(Tail(path, key), Digits(|id|), id, '@', r, Digits(|n|), "anon", '.', q);
      }
    }
  }

  lemma SameScope(s: Scope, x: string, t: Scope, y: string)
    requires ScopeOK(s) && ScopeOK(t)
    requires var m, n := ScopeName(s), ScopeName(t); Digits(|m|) + m + x == Digits(|n|) + n + y
    ensures ScopeName(s) == ScopeName(t) && x == y
  {
    var m, n := ScopeName(s), ScopeName(t);
    var all := Digits(|m|) + m + x;
    var p := ScopeBegins(s, x);
    var q := ScopeBegins(t, y);
    hide Mangle, Digits, ScopeName;
    var d := if s.Function? then Digits(|m|) + Digits(|s.id|) else Digits(|m|);
    var e := if t.Function? then Digits(|n|) + Digits(|t.id|) else Digits(|n|);
    var w := if s.Function? then s.id else "anon";
    var v := if t.Function? then t.id else "anon";
    BeginsOnce(all, d, w, if s.Function? then '@' else '.', p, e, v, if t.Function? then '@' else '.', q);
    if s.Function? { Cancel2(Digits(|m|), Digits(|n|), Digits(|s.id|)); }
    ValueOfDigits(|m|);
    ValueOfDigits(|n|);
    Assoc(Digits(|m|), m, x);
    Assoc(Digits(|n|), n, y);
    Cancel(Digits(|m|), m + x, Digits(|n|), n + y);
    Cancel(m, x, n, y);
  }

  lemma Cancel2(x: string, y: string, z: string)
    requires x + z == y + z
    ensures x == y
  {
    assert |x| == |y|;
    Cancel(x, z, y, z);
  }

  // Two functions get the same symbol only in scopes of the same names and with
  // the same key.
  lemma {:induction false} TailInjective(p: seq<Scope>, id: string, xs: seq<string>, q: seq<Scope>, other: string,
        ys: seq<string>)
    requires IdentifierOK(id) && IdentifierOK(other)
    requires (forall i :: 0 <= i < |p| ==> ScopeOK(p[i])) && (forall i :: 0 <= i < |q| ==> ScopeOK(q[i]))
    requires Tail(p, Mangle(id, xs)) == Tail(q, Mangle(other, ys))
    ensures ScopeNames(p) == ScopeNames(q) && Mangle(id, xs) == Mangle(other, ys)
    decreases |p|
  {
    var f, g := Mangle(id, xs), Mangle(other, ys);
    NoScopes(f);
    NoScopes(g);
    hide Mangle, Tail, ScopeName;
    if p == [] {
      if q != [] { KeyIsNoPath(id, xs, q, g); }
    } else if q == [] {
      KeyIsNoPath(other, ys, p, f);
    } else {
      TailStep(p, f);
      TailStep(q, g);
      SameScope(p[0], Tail(p[1..], f), q[0], Tail(q[1..], g));
      TailInjective(p[1..], id, xs, q[1..], other, ys);
      assert ScopeNames(p) == [ScopeName(p[0])] + ScopeNames(p[1..]);
      assert ScopeNames(q) == [ScopeName(q[0])] + ScopeNames(q[1..]);
    }
  }

  lemma NoScopes(key: string)
    ensures Tail([], key) == key
  {
  }

  // Symbols are equal exactly when the scopes' names and the keys are.
  lemma SymbolExactly(p: seq<Scope>, id: string, xs: seq<string>, q: seq<Scope>, other: string, ys: seq<string>)
    requires IdentifierOK(id) && IdentifierOK(other) && NamesOK(xs) && NamesOK(ys)
    requires (forall i :: 0 <= i < |p| ==> ScopeOK(p[i])) && (forall i :: 0 <= i < |q| ==> ScopeOK(q[i]))
    ensures Symbol(ScopeNames(p), Mangle(id, xs)) == Symbol(ScopeNames(q), Mangle(other, ys))
       <==> ScopeNames(p) == ScopeNames(q) && id == other && xs == ys
  {
    var f, g := Mangle(id, xs), Mangle(other, ys);
    Assoc("_FN", Sized(ScopeNames(p)), f);
    Assoc("_FN", Sized(ScopeNames(q)), g);
    if Symbol(ScopeNames(p), f) == Symbol(ScopeNames(q), g) {
      Cancel("_FN", Tail(p, f), "_FN", Tail(q, g));
      TailInjective(p, id, xs, q, other, ys);
      MangleExactly(id, xs, other, ys);
    }
  }
}
