// The lexer's keyword trie: insertion, and its text form.
module KeywordTrie {
  import opened Collections
  import opened Decimal

  type Byte = n: nat | n < 256

  // What a word stands for; words that are no keyword stand for nothing.
  datatype TokenObj = Nothing | KeyWord(kind: Byte) | Other(id: nat)

  // Successors by letter; nodes are referred to by their allocation number.
  datatype Node = Node(next: map<char, nat>, token: TokenObj)

  predicate IsLower(c: char) { 'a' <= c <= 'z' }

  predicate AllLower(w: string) { forall i :: 0 <= i < |w| ==> IsLower(w[i]) }

  // ---- tries ----

  ghost predicate Child(nodes: seq<Node>, i: nat, c: char, j: nat) {
    i < |nodes| && c in nodes[i].next && nodes[i].next[c] == j
  }

  ghost predicate ChildOK(nodes: seq<Node>, paths: seq<string>, i: nat, c: char)
    requires |nodes| == |paths| && i < |nodes| && c in nodes[i].next
  {
    var j := nodes[i].next[c];
    IsLower(c) && i < j < |nodes| && paths[j] == paths[i] + [c]
  }

  function Last(w: string): char
    requires w != []
  {
    w[|w| - 1]
  }

  ghost predicate HasParent(nodes: seq<Node>, paths: seq<string>, j: nat)
    requires j < |paths|
  {
    |paths[j]| > 0 && exists i: nat :: i < j && Child(nodes, i, Last(paths[j]), j)
  }

  // A tree: paths[i] is the word spelled on the way from the root to node i.
  ghost predicate TrieOK(nodes: seq<Node>, paths: seq<string>) {
    && |nodes| == |paths| > 0 && paths[0] == []
    && (forall i: nat, c :: i < |nodes| && c in nodes[i].next ==> ChildOK(nodes, paths, i, c))
    && (forall j: nat :: 0 < j < |nodes| ==> HasParent(nodes, paths, j))
    && (forall i: nat, j: nat :: i < j < |paths| ==> paths[i] != paths[j])
  }

  function Index(paths: seq<string>, w: string): (i: nat)
    requires w in paths
    ensures i < |paths| && paths[i] == w
  {
    if paths[0] == w then 0 else 1 + Index(paths[1..], w)
  }

  // The words with a token.
  ghost function Tokens(nodes: seq<Node>, paths: seq<string>): map<string, TokenObj>
    requires TrieOK(nodes, paths)
  {
    map w | w in paths && nodes[Index(paths, w)].token != Nothing :: nodes[Index(paths, w)].token
  }

  function Grown(nodes: seq<Node>, i: nat, c: char): seq<Node>
    requires i < |nodes|
  {
    nodes[i := nodes[i].(next := nodes[i].next[c := |nodes|])] + [Node(map[], Nothing)]
  }

  // The only node spelling paths[i] + [c] is the child of i for c.
  lemma ChildUnique(nodes: seq<Node>, paths: seq<string>, i: nat, c: char, j: nat)
    requires TrieOK(nodes, paths) && i < |nodes| && j < |nodes| && paths[j] == paths[i] + [c]
    ensures Child(nodes, i, c, j)
  {
    assert HasParent(nodes, paths, j);
    var k: nat :| k < j && Child(nodes, k, Last(paths[j]), j);
    assert ChildOK(nodes, paths, k, c);
    assert paths[k] == paths[j][..|paths[j]| - 1] == paths[i];
  }

  lemma GrowOK(nodes: seq<Node>, paths: seq<string>, i: nat, c: char)
    requires TrieOK(nodes, paths) && i < |nodes| && IsLower(c) && c !in nodes[i].next
    ensures TrieOK(Grown(nodes, i, c), paths + [paths[i] + [c]])
    ensures Tokens(Grown(nodes, i, c), paths + [paths[i] + [c]]) == Tokens(nodes, paths)
  {
    var ns, ps := Grown(nodes, i, c), paths + [paths[i] + [c]];
    forall j: nat | j < |nodes| ensures paths[j] != paths[i] + [c] {
      if paths[j] == paths[i] + [c] { ChildUnique(nodes, paths, i, c, j); }
    }
    GrownChildren(nodes, paths, i, c);
    GrownParents(nodes, paths, i, c);
    hide HasParent, ChildOK;
    assert TrieOK(ns, ps);
    hide TrieOK, Tokens;
    SameTokens(nodes, paths, ns, ps);
  }

  lemma GrownChildren(nodes: seq<Node>, paths: seq<string>, i: nat, c: char)
    requires TrieOK(nodes, paths) && i < |nodes| && IsLower(c) && c !in nodes[i].next
    ensures var ns, ps := Grown(nodes, i, c), paths + [paths[i] + [c]];
            forall k: nat, d | k < |ns| && d in ns[k].next :: ChildOK(ns, ps, k, d)
  {
    var ns, ps := Grown(nodes, i, c), paths + [paths[i] + [c]];
    forall k: nat, d | k < |ns| && d in ns[k].next ensures ChildOK(ns, ps, k, d) {
      if k < |nodes| && !(k == i && d == c) { assert ChildOK(nodes, paths, k, d); }
    }
  }

  lemma GrownParents(nodes: seq<Node>, paths: seq<string>, i: nat, c: char)
    requires TrieOK(nodes, paths) && i < |nodes| && IsLower(c) && c !in nodes[i].next
    ensures var ns, ps := Grown(nodes, i, c), paths + [paths[i] + [c]];
            forall j: nat | 0 < j < |ns| :: HasParent(ns, ps, j)
  {
    var ns, ps := Grown(nodes, i, c), paths + [paths[i] + [c]];
    forall j: nat | 0 < j < |ns| ensures HasParent(ns, ps, j) {
      if j < |nodes| {
        assert HasParent(nodes, paths, j);
        var k: nat :| k < j && Child(nodes, k, Last(paths[j]), j);
        assert Child(ns, k, Last(ps[j]), j);
      } else {
        assert Last(ps[j]) == c && Child(ns, i, Last(ps[j]), j);
      }
    }
  }

  lemma SameTokens(nodes: seq<Node>, paths: seq<string>, ns: seq<Node>, ps: seq<string>)
    requires TrieOK(nodes, paths) && TrieOK(ns, ps) && |ns| == |nodes| + 1
    requires forall k :: 0 <= k < |nodes| ==> ns[k].token == nodes[k].token && ps[k] == paths[k]
    requires ns[|nodes|].token == Nothing
    ensures Tokens(ns, ps) == Tokens(nodes, paths)
  {
    hide *;
    var before, after := Tokens(nodes, paths), Tokens(ns, ps);
    RootOK(nodes, paths);
    RootOK(ns, ps);
    forall w | w in before ensures w in after && after[w] == before[w] {
      var i := TokenOf(nodes, paths, w);
      TokenAt(ns, ps, i);
    }
    forall w | w in after ensures w in before {
      var i := TokenOf(ns, ps, w);
      TokenAt(nodes, paths, i);
    }
  }

  // The node that a word's token is at.
  lemma TokenOf(nodes: seq<Node>, paths: seq<string>, w: string) returns (i: nat)
    requires TrieOK(nodes, paths) && w in Tokens(nodes, paths)
    ensures i < |nodes| == |paths| && paths[i] == w && nodes[i].token == Tokens(nodes, paths)[w] != Nothing
  {
    i := Index(paths, w);
  }

  lemma TokenAt(nodes: seq<Node>, paths: seq<string>, i: nat)
    requires TrieOK(nodes, paths) && i < |nodes|
    ensures paths[i] in Tokens(nodes, paths) <==> nodes[i].token != Nothing
    ensures nodes[i].token != Nothing ==> Tokens(nodes, paths)[paths[i]] == nodes[i].token
  {
    hide HasParent, ChildOK;
    assert Index(paths, paths[i]) == i;
  }

  lemma SetOK(nodes: seq<Node>, paths: seq<string>, i: nat, tok: TokenObj)
    requires TrieOK(nodes, paths) && i < |nodes| && nodes[i].token == Nothing
    ensures var ns := nodes[i := nodes[i].(token := tok)];
            && TrieOK(ns, paths)
            && Tokens(ns, paths) == if tok == Nothing then Tokens(nodes, paths)
                else Tokens(nodes, paths)[paths[i] := tok]
  {
    var ns := nodes[i := nodes[i].(token := tok)];
    forall k: nat, d | k < |ns| && d in ns[k].next ensures ChildOK(ns, paths, k, d) {
      assert ChildOK(nodes, paths, k, d);
    }
    forall j: nat | 0 < j < |ns| ensures HasParent(ns, paths, j) {
      assert HasParent(nodes, paths, j);
      var k: nat :| k < j && Child(nodes, k, Last(paths[j]), j);
      assert Child(ns, k, Last(paths[j]), j);
    }
    SetTokens(nodes, paths, i, tok);
  }

  lemma SetTokens(nodes: seq<Node>, paths: seq<string>, i: nat, tok: TokenObj)
    requires TrieOK(nodes, paths) && i < |nodes| && nodes[i].token == Nothing
    requires TrieOK(nodes[i := nodes[i].(token := tok)], paths)
    ensures Tokens(nodes[i := nodes[i].(token := tok)], paths)
         == if tok == Nothing then Tokens(nodes, paths) else Tokens(nodes, paths)[paths[i] := tok]
  {
    hide *;
    var ns := nodes[i := nodes[i].(token := tok)];
    var before, after := Tokens(nodes, paths), Tokens(ns, paths);
    RootOK(nodes, paths);
    TokenAt(nodes, paths, i);
    TokenAt(ns, paths, i);
    forall w | w in before ensures w in after && after[w] == before[w] {
      var k := TokenOf(nodes, paths, w);
      TokenAt(ns, paths, k);
    }
    forall w | w in after && w != paths[i] ensures w in before {
      var k := TokenOf(ns, paths, w);
      TokenAt(nodes, paths, k);
    }
  }

  // Below node i, the way to node j starts with a child of i.
  lemma {:induction false} WayDown(nodes: seq<Node>, paths: seq<string>, i: nat, j: nat)
    requires TrieOK(nodes, paths) && i < |nodes| && j < |nodes| && paths[i] < paths[j]
    ensures var c := paths[j][|paths[i]|]; c in nodes[i].next && paths[i] + [c] <= paths[j]
    decreases j
  {
    assert HasParent(nodes, paths, j);
    var last := Last(paths[j]);
    var k: nat :| k < j && Child(nodes, k, last, j);
    assert ChildOK(nodes, paths, k, last);
    if k != i {
      assert paths[k] == paths[j][..|paths[j]| - 1];
      assert paths[i] <= paths[k];
      WayDown(nodes, paths, i, k);
    }
  }

  lemma {:induction false} PathsLower(nodes: seq<Node>, paths: seq<string>, j: nat)
    requires TrieOK(nodes, paths) && j < |nodes|
    ensures AllLower(paths[j])
    decreases j
  {
    if j > 0 {
      assert HasParent(nodes, paths, j);
      var k: nat :| k < j && Child(nodes, k, Last(paths[j]), j);
      assert ChildOK(nodes, paths, k, Last(paths[j]));
      PathsLower(nodes, paths, k);
    }
  }

  // ---- inserting a word ----

  datatype InsertError = NotLower | Duplicate

  datatype Insertion = Inserted(tokens: map<string, TokenObj>) | Refused(error: InsertError)

  function Insert(tokens: map<string, TokenObj>, word: string, tok: TokenObj): Insertion {
    if !AllLower(word) then Refused(NotLower)
    else if word in tokens then Refused(Duplicate)
    else Inserted(if tok == Nothing then tokens else tokens[word := tok])
  }

  // ---- the text form ----

  type Entry = (string, Byte)

  function Line(e: Entry): string { e.0 + " " + Digits(e.1) + "\n" }

  function Text(es: seq<Entry>): string {
    if es == [] then "" else Line(es[0]) + Text(es[1..])
  }

  lemma {:induction false} TextMore(es: seq<Entry>, e: Entry)
    ensures Text(es + [e]) == Text(es) + Line(e)
  {
    if es == [] {
      assert Text([e]) == Line(e) + Text([]);
    } else {
      TextMore(es[1..], e);
      assert (es + [e])[1..] == es[1..] + [e];
    }
  }

  // ---- reading it back ----

  predicate IsSpace(c: char) { c == ' ' || '\t' <= c <= '\r' }

  // Tab, line feed, vertical tab, form feed, carriage return and the space.
  lemma SpacesExactly(c: char)
    ensures IsSpace(c) <==> c as int in {9, 10, 11, 12, 13, 32}
  {}

  function SkipSpace(s: string): (r: string)
    ensures |r| <= |s| && (r != [] ==> !IsSpace(r[0]))
  {
    if s != [] && IsSpace(s[0]) then SkipSpace(s[1..]) else s
  }

  function WordLength(s: string): (k: nat)
    ensures k <= |s| && (forall i :: 0 <= i < k ==> !IsSpace(s[i])) && (k < |s| ==> IsSpace(s[k]))
  {
    if s == [] || IsSpace(s[0]) then 0 else 1 + WordLength(s[1..])
  }

  // A short: optional sign, digits, in range.
  function ReadShort(input: string): (r: Option<(int, string)>)
    ensures r.Some? ==> |r.value.1| < |input|
  {
    var s := SkipSpace(input);
    var signed := s != [] && (s[0] == '-' || s[0] == '+');
    var d := if signed then s[1..] else s;
    var k := Front(d);
    if k == 0 then None
    else
      var n: int := Value(d[..k]);
      var v := if signed && s[0] == '-' then -n else n;
      if -32768 <= v <= 32767 then Some((v, d[k..])) else None
  }

  // The grammar of a short: spaces, a sign or none, digits up to the first other character.
  ghost predicate ShortText(input: string, spaces: string, sign: string, digits: string, rest: string) {
    && input == spaces + sign + digits + rest
    && (forall c :: c in spaces ==> IsSpace(c)) && sign in {"", "+", "-"}
    && digits != "" && (forall i :: 0 <= i < |digits| ==> IsDigit(digits[i])) && NoLeadingDigit(rest)
  }

  lemma {:induction false} SkipsSpaces(spaces: string, t: string)
    requires (forall c :: c in spaces ==> IsSpace(c)) && t != "" && !IsSpace(t[0])
    ensures SkipSpace(spaces + t) == t
  {
    if spaces == "" {
      assert spaces + t == t;
    } else {
      assert spaces[0] in spaces;
      assert (spaces + t)[1..] == spaces[1..] + t;
      SkipsSpaces(spaces[1..], t);
    }
  }

  lemma {:induction false} SkippedSpaces(s: string) returns (spaces: string)
    ensures s == spaces + SkipSpace(s) && forall c :: c in spaces ==> IsSpace(c)
  {
    if s != [] && IsSpace(s[0]) {
      var more := SkippedSpaces(s[1..]);
      spaces := [s[0]] + more;
      assert s == [s[0]] + s[1..];
    } else {
      spaces := "";
    }
  }

  // The sign is what comes before the digits.
  lemma SignOf(t: string, sign: string, digits: string, rest: string)
    requires t == sign + digits + rest && sign in {"", "+", "-"} && digits != "" && IsDigit(digits[0])
    ensures t != "" && !IsSpace(t[0]) && (t[0] == '-' <==> sign == "-")
    ensures (if t[0] == '-' || t[0] == '+' then t[1..] else t) == digits + rest
  {
    if sign == "" { assert t == digits + rest; } else { assert t == [t[0]] + (digits + rest); }
  }

  // A text of that grammar is read as the number it stands for, if that fits ...
  lemma ShortReads(input: string, spaces: string, sign: string, digits: string, rest: string)
    requires ShortText(input, spaces, sign, digits, rest)
    ensures var n: int := Value(digits);
            var v := if sign == "-" then -n else n;
            ReadShort(input) == if -32768 <= v <= 32767 then Some((v, rest)) else None
  {
    hide IsSpace, SkipSpace, Front, Value;
    var t := sign + digits + rest;
    assert input == spaces + t;
    SignOf(t, sign, digits, rest);
    SkipsSpaces(spaces, t);
    FrontIs(digits, rest);
    var d := digits + rest;
    assert d[..|digits|] == digits && d[|digits|..] == rest;
  }

  // ... and nothing else is read.
  lemma ReadIsShort(input: string) returns (spaces: string, sign: string, digits: string, rest: string)
    requires ReadShort(input).Some?
    ensures ShortText(input, spaces, sign, digits, rest)
  {
    ReadHasDigits(input);
    spaces := SkippedSpaces(input);
    hide *;
    hide ShortText;
    sign, digits, rest := Shape(SkipSpace(input));
    Assoc(spaces, sign + digits, rest);
    Assoc(spaces, sign, digits);
    IsShortText(input, spaces, sign, digits, rest);
  }

  lemma IsShortText(input: string, spaces: string, sign: string, digits: string, rest: string)
    requires input == spaces + sign + digits + rest
    requires (forall c :: c in spaces ==> IsSpace(c)) && sign in {"", "+", "-"}
    requires digits != "" && (forall i :: 0 <= i < |digits| ==> IsDigit(digits[i])) && NoLeadingDigit(rest)
    ensures ShortText(input, spaces, sign, digits, rest)
  {
    hide IsSpace, IsDigit;
  }

  // Where the digits begin: behind a sign, if there is one.
  function Unsigned(s: string): string {
    if s != [] && (s[0] == '-' || s[0] == '+') then s[1..] else s
  }

  lemma ReadHasDigits(input: string)
    requires ReadShort(input).Some?
    ensures Front(Unsigned(SkipSpace(input))) > 0
  {
    hide SkipSpace, Front, Value;
  }

  lemma Shape(s: string) returns (sign: string, digits: string, rest: string)
    requires Front(Unsigned(s)) > 0
    ensures s == sign + digits + rest && sign in {"", "+", "-"}
    ensures digits != "" && (forall i :: 0 <= i < |digits| ==> IsDigit(digits[i])) && NoLeadingDigit(rest)
  {
    var d := Unsigned(s);
    var k := Front(d);
    sign := if d == s then "" else [s[0]];
    digits, rest := d[..k], d[k..];
    assert s == sign + d;
    hide Front, Unsigned;
    assert d == digits + rest;
    Assoc(sign, digits, rest);
  }

  lemma {:induction false} FrontIs(digits: string, rest: string)
    requires (forall i :: 0 <= i < |digits| ==> IsDigit(digits[i])) && NoLeadingDigit(rest)
    ensures Front(digits + rest) == |digits|
  {
    if digits != "" {
      assert (digits + rest)[1..] == digits[1..] + rest;
      FrontIs(digits[1..], rest);
    } else {
      assert digits + rest == rest;
    }
  }

  datatype Loading = Loaded(tokens: map<string, TokenObj>) | Threw(error: InsertError, tokens: map<string, TokenObj>)

  // Word and number, over and over, until one of them cannot be read.
  function LoadFrom(tokens: map<string, TokenObj>, input: string): Loading
    decreases |input|
  {
    var s := SkipSpace(input);
    var k := WordLength(s);
    if k == 0 then Loaded(tokens)
    else match ReadShort(s[k..])
      case None => Loaded(tokens)
      case Some(found) =>
        match Insert(tokens, s[..k], KeyWord(found.0 % 256))
        case Refused(e) => Threw(e, tokens)
        case Inserted(more) => LoadFrom(more, found.1)
  }

  // ---- saving and loading ----

  function Keywords(tokens: map<string, TokenObj>): map<string, TokenObj> {
    map w | w in tokens && tokens[w].KeyWord? :: tokens[w]
  }

  // The entries are the keywords, each once.
  ghost predicate Lists(es: seq<Entry>, tokens: map<string, TokenObj>) {
    && (forall i, j :: 0 <= i < j < |es| ==> es[i].0 != es[j].0)
    && (forall i :: 0 <= i < |es| ==> es[i].0 in tokens && tokens[es[i].0] == KeyWord(es[i].1))
    && (forall w :: w in tokens && tokens[w].KeyWord? ==> exists i :: 0 <= i < |es| && es[i].0 == w)
  }

  function Put(tokens: map<string, TokenObj>, es: seq<Entry>): map<string, TokenObj>
    decreases |es|
  {
    if es == [] then tokens else Put(tokens[es[0].0 := KeyWord(es[0].1)], es[1..])
  }

  lemma {:induction false} PutAt(tokens: map<string, TokenObj>, es: seq<Entry>, w: string)
    requires forall i, j :: 0 <= i < j < |es| ==> es[i].0 != es[j].0
    ensures w in Put(tokens, es) <==> w in tokens || exists i :: 0 <= i < |es| && es[i].0 == w
    ensures (forall i :: 0 <= i < |es| ==> es[i].0 != w) && w in tokens ==> Put(tokens, es)[w] == tokens[w]
    ensures forall i :: 0 <= i < |es| && es[i].0 == w ==> Put(tokens, es)[w] == KeyWord(es[i].1)
    decreases |es|
  {
    if es != [] {
      var rest := es[1..];
      PutAt(tokens[es[0].0 := KeyWord(es[0].1)], rest, w);
      if i :| 0 <= i < |es| && es[i].0 == w {
        if i > 0 { assert rest[i - 1].0 == w; }
      }
    }
  }

  lemma PutAll(es: seq<Entry>, tokens: map<string, TokenObj>)
    requires Lists(es, tokens)
    ensures Put(map[], es) == Keywords(tokens)
  {
    forall w ensures w in Put(map[], es) <==> w in Keywords(tokens) {
      PutAt(map[], es, w);
    }
    forall w | w in Put(map[], es) ensures Put(map[], es)[w] == Keywords(tokens)[w] {
      PutAt(map[], es, w);
    }
  }

  predicate WordsOK(es: seq<Entry>) {
    forall i :: 0 <= i < |es| ==> es[i].0 != "" && AllLower(es[i].0)
  }

  lemma {:induction false} WordRead(w: string, rest: string)
    requires AllLower(w) && rest != [] && IsSpace(rest[0])
    ensures WordLength(w + rest) == |w|
    ensures w != "" ==> SkipSpace(w + rest) == w + rest
  {
    if w == "" {
      assert w + rest == rest;
    } else {
      assert (w + rest)[0] == w[0] && (w + rest)[1..] == w[1..] + rest;
      WordRead(w[1..], rest);
    }
  }

  lemma ShortRead(k: Byte, rest: string)
    requires NoLeadingDigit(rest)
    ensures ReadShort(" " + Digits(k) + rest) == Some((k, rest))
  {
    hide Digits, Value, Front;
    var s := " " + Digits(k) + rest;
    var d := Digits(k) + rest;
    assert s[1..] == d && IsSpace(s[0]) && IsDigit(d[0]);
    assert SkipSpace(s) == SkipSpace(d) == d;
    ReadBack(k, rest);
  }

  lemma LoadStep(tokens: map<string, TokenObj>, s: string, k: nat, v: int, rest: string)
    requires SkipSpace(s) == s && 0 < k == WordLength(s) && ReadShort(s[k..]) == Some((v, rest))
    requires AllLower(s[..k]) && s[..k] !in tokens
    ensures LoadFrom(tokens, s) == LoadFrom(tokens[s[..k] := KeyWord(v % 256)], rest)
  {
    hide ReadShort, SkipSpace, WordLength;
  }

  lemma LineSplit(e: Entry, rest: string)
    ensures Line(e) + rest == e.0 + (" " + Digits(e.1) + ("\n" + rest))
    ensures (" " + Digits(e.1) + ("\n" + rest))[0] == ' ' && ("\n" + rest)[0] == '\n'
  {
    hide Digits;
    var d := Digits(e.1);
    Assoc(e.0 + " " + d, "\n", rest);
    Assoc(e.0 + " ", d, "\n" + rest);
    Assoc(e.0, " ", d + ("\n" + rest));
    Assoc(" ", d, "\n" + rest);
  }

  // One line is one insertion.
  lemma LineRead(tokens: map<string, TokenObj>, e: Entry, rest: string)
    requires e.0 != "" && AllLower(e.0) && e.0 !in tokens
    ensures LoadFrom(tokens, Line(e) + rest) == LoadFrom(tokens[e.0 := KeyWord(e.1)], "\n" + rest)
  {
    var tail := " " + Digits(e.1) + ("\n" + rest);
    LineSplit(e, rest);
    hide Digits, ReadShort, WordLength, SkipSpace, Line, LoadFrom;
    WordRead(e.0, tail);
    assert (e.0 + tail)[..|e.0|] == e.0 && (e.0 + tail)[|e.0|..] == tail;
    ShortRead(e.1, "\n" + rest);
    LoadStep(tokens, e.0 + tail, |e.0|, e.1, "\n" + rest);
  }

  lemma NewlineSkipped(tokens: map<string, TokenObj>, rest: string)
    ensures LoadFrom(tokens, "\n" + rest) == LoadFrom(tokens, rest)
  {
    assert ("\n" + rest)[1..] == rest;
  }

  lemma NothingRead(tokens: map<string, TokenObj>)
    ensures LoadFrom(tokens, "") == Loaded(tokens)
  {
  }

  lemma {:induction false} TextRead(tokens: map<string, TokenObj>, es: seq<Entry>)
    requires WordsOK(es) && forall i, j :: 0 <= i < j < |es| ==> es[i].0 != es[j].0
    requires forall i :: 0 <= i < |es| ==> es[i].0 !in tokens
    ensures LoadFrom(tokens, Text(es)) == Loaded(Put(tokens, es))
    decreases |es|
  {
    hide LoadFrom, Line;
    if es == [] {
      NothingRead(tokens);
    } else {
      LineRead(tokens, es[0], Text(es[1..]));
      NewlineSkipped(tokens[es[0].0 := KeyWord(es[0].1)], Text(es[1..]));
      TextRead(tokens[es[0].0 := KeyWord(es[0].1)], es[1..]);
    }
  }

  // A line for the empty word is read as a word of digits with no number after
  // it: loading ends there.
  lemma EmptyWordStops(e: Entry, es: seq<Entry>)
    requires e.0 == "" && WordsOK(es)
    ensures LoadFrom(map[], Text([e] + es)) == Loaded(map[])
  {
    assert ([e] + es)[1..] == es;
    var text := Text([e] + es);
    var tail := "\n" + Text(es);
    LineSplit(e, Text(es));
    assert text == " " + Digits(e.1) + tail;
    var s := Digits(e.1) + tail;
    SpaceSkipped(Digits(e.1), tail);
    if es != [] {
      var w := es[0].0;
      assert Text(es)[0] == w[0] && IsLower(w[0]);
    }
    hide Text, Digits, WordLength, ReadShort, SkipSpace;
    NoNumber(Text(es));
    DigitsAreAWord(e.1, tail);
    assert s[|Digits(e.1)|..] == tail;
  }

  lemma SpaceSkipped(d: string, tail: string)
    requires d != "" && IsDigit(d[0])
    ensures SkipSpace(" " + d + tail) == d + tail
  {
    Assoc(" ", d, tail);
    assert (" " + (d + tail))[1..] == d + tail && (d + tail)[0] == d[0];
  }

  lemma NoNumber(rest: string)
    requires rest != [] ==> IsLower(rest[0])
    ensures ReadShort("\n" + rest) == None
  {
    assert ("\n" + rest)[1..] == rest;
    assert SkipSpace("\n" + rest) == SkipSpace(rest) == rest;
  }

  lemma DigitsAreAWord(k: nat, rest: string)
    requires rest != [] && IsSpace(rest[0])
    ensures WordLength(Digits(k) + rest) == |Digits(k)|
  {
    var d := Digits(k);
    var s := d + rest;
    assert forall i :: 0 <= i < |d| ==> s[i] == d[i] && !IsSpace(s[i]);
    assert IsSpace(s[|d|]);
  }

  // Reading the text of a list of keywords gives the same keywords, exactly when the empty word
  // is not one of them.
  lemma TextRoundTrip(tokens: map<string, TokenObj>, es: seq<Entry>)
    requires Lists(es, tokens) && forall w :: w in tokens ==> AllLower(w)
    requires "" in Keywords(tokens) ==> es != [] && es[0].0 == ""
    ensures LoadFrom(map[], Text(es)) == Loaded(Keywords(tokens)) <==> "" !in Keywords(tokens)
  {
    if "" in Keywords(tokens) {
      assert es == [es[0]] + es[1..];
      EmptyWordStops(es[0], es[1..]);
    } else {
      TextRead(map[], es);
      PutAll(es, tokens);
    }
  }

  // ---- the walk over the trie ----

  // One item of the explicit stack: a node and the word that leads to it.
  type Item = (nat, string)

  function Letter(n: nat): char
    requires n < 26
  {
    ('a' as int + n) as char
  }

  // They are exactly the letters a word may have.
  lemma LettersExactly(c: char)
    ensures IsLower(c) <==> exists n: nat :: n < 26 && Letter(n) == c
  {
    if IsLower(c) { assert Letter(c as int - 'a' as int) == c; }
  }

  // The children for the first n letters.
  function Children(node: Node, word: string, n: nat): seq<Item>
    requires n <= 26
  {
    if n == 0 then []
    else Children(node, word, n - 1)
         + (if Letter(n - 1) in node.next then [(node.next[Letter(n - 1)], word + [Letter(n - 1)])] else [])
  }

  ghost predicate IsChildItem(node: Node, word: string, n: nat, it: Item) {
    exists m: nat :: m < n <= 26 && Letter(m) in node.next && it == (node.next[Letter(m)], word + [Letter(m)])
  }

  lemma {:induction false} ChildrenAre(node: Node, word: string, n: nat)
    requires n <= 26
    ensures forall k :: 0 <= k < |Children(node, word, n)| ==> IsChildItem(node, word, n, Children(node, word, n)[k])
    ensures forall m: nat :: m < n && Letter(m) in node.next ==>
              (node.next[Letter(m)], word + [Letter(m)]) in Children(node, word, n)
    ensures forall k, l :: 0 <= k < l < |Children(node, word, n)| ==>
              Children(node, word, n)[k].1 != Children(node, word, n)[l].1
  {
    if n > 0 {
      ChildrenAre(node, word, n - 1);
      var cs, before := Children(node, word, n), Children(node, word, n - 1);
      forall k | 0 <= k < |cs| ensures IsChildItem(node, word, n, cs[k]) {
        if k < |before| {
          assert IsChildItem(node, word, n - 1, before[k]);
        }
      }
      forall k, l | 0 <= k < l < |cs| ensures cs[k].1 != cs[l].1 {
        assert IsChildItem(node, word, n - 1, before[k]);
        if l == |before| {
          var m: nat :| m < n - 1 && Letter(m) in node.next && before[k] == (node.next[Letter(m)], word + [Letter(m)]);
          assert cs[k].1[|word|] != cs[l].1[|word|];
        }
      }
    }
  }

  ghost predicate Related(s: string, t: string) { s <= t || t <= s }

  ghost predicate Below(stack: seq<Item>, word: string) {
    exists k :: 0 <= k < |stack| && stack[k].1 <= word
  }

  ghost predicate ItemsOK(nodes: seq<Node>, paths: seq<string>, stack: seq<Item>) {
    |nodes| == |paths| && forall k :: 0 <= k < |stack| ==> stack[k].0 < |nodes| && stack[k].1 == paths[stack[k].0]
  }

  ghost predicate Apart(stack: seq<Item>) {
    forall k, l :: 0 <= k < l < |stack| ==> !Related(stack[k].1, stack[l].1)
  }

  // Every node is either visited, or below an item of the stack, which is then the only one.
  ghost predicate Walking(nodes: seq<Node>, paths: seq<string>, stack: seq<Item>, visited: set<nat>) {
    && TrieOK(nodes, paths) && (forall i :: i in visited ==> i < |nodes|)
    && ItemsOK(nodes, paths, stack) && Apart(stack)
    && (forall j: nat :: j < |nodes| ==> (j in visited <==> !Below(stack, paths[j])))
  }

  lemma WalkStep(nodes: seq<Node>, paths: seq<string>, stack: seq<Item>, visited: set<nat>)
    requires Walking(nodes, paths, stack, visited) && stack != []
    ensures var (i, w) := stack[|stack| - 1];
            && TrieOK(nodes, paths) && i < |nodes| == |paths| && i !in visited && w == paths[i]
                && (forall j :: j in visited ==> j < |nodes|)
            && Walking(nodes, paths, stack[..|stack| - 1] + Children(nodes[i], w, 26), visited + {i})
  {
    var (i, w) := stack[|stack| - 1];
    var rest, cs := stack[..|stack| - 1], Children(nodes[i], w, 26);
    assert Below(stack, paths[i]);
    ChildItems(nodes, paths, i);
    StillApart(stack, w, cs);
    forall j: nat | j < |nodes|
      ensures j in visited + {i} <==> !Below(rest + cs, paths[j])
    {
      BelowStep(nodes, paths, stack, i, j);
    }
    hide TrieOK, Children, Below, Apart;
    assert ItemsOK(nodes, paths, rest + cs);
  }

  lemma ChildItems(nodes: seq<Node>, paths: seq<string>, i: nat)
    requires TrieOK(nodes, paths) && i < |nodes|
    ensures var cs := Children(nodes[i], paths[i], 26);
            && ItemsOK(nodes, paths, cs)
            && (forall k :: 0 <= k < |cs| ==> paths[i] < cs[k].1 && |cs[k].1| == |paths[i]| + 1)
            && (forall k, l :: 0 <= k < l < |cs| ==> cs[k].1 != cs[l].1)
  {
    var cs := Children(nodes[i], paths[i], 26);
    ChildrenAre(nodes[i], paths[i], 26);
    hide TrieOK, Children, IsChildItem;
    assert |nodes| == |paths| by { SameLength(nodes, paths); }
    forall k | 0 <= k < |cs|
      ensures cs[k].0 < |nodes| && cs[k].1 == paths[cs[k].0] && paths[i] < cs[k].1 && |cs[k].1| == |paths[i]| + 1
    {
      ChildItemOK(nodes, paths, i, cs[k]);
    }
  }

  lemma SameLength(nodes: seq<Node>, paths: seq<string>)
    requires TrieOK(nodes, paths)
    ensures |nodes| == |paths|
  {
  }

  lemma StillApart(stack: seq<Item>, w: string, cs: seq<Item>)
    requires stack != [] && stack[|stack| - 1].1 == w && Apart(stack)
    requires forall k :: 0 <= k < |cs| ==> w < cs[k].1 && |cs[k].1| == |w| + 1
    requires forall k, l :: 0 <= k < l < |cs| ==> cs[k].1 != cs[l].1
    ensures Apart(stack[..|stack| - 1] + cs)
  {
    var rest := stack[..|stack| - 1];
    var next := rest + cs;
    forall k, l | 0 <= k < l < |next| ensures !Related(next[k].1, next[l].1) {
      if k < |rest| {
        var m := if l < |rest| then l else |rest|;
        assert !Related(stack[k].1, stack[m].1);
      }
    }
  }

  // Replacing item i by its children uncovers node i alone.
  lemma BelowStep(nodes: seq<Node>, paths: seq<string>, stack: seq<Item>, i: nat, j: nat)
    requires TrieOK(nodes, paths) && stack != [] && Apart(stack) && ItemsOK(nodes, paths, stack)
    requires i == stack[|stack| - 1].0 && i < |nodes| && j < |nodes|
    ensures var next := stack[..|stack| - 1] + Children(nodes[i], paths[i], 26);
            Below(next, paths[j]) <==> j != i && Below(stack, paths[j])
  {
    BelowItem(nodes, paths, stack, i, j);
    BelowChild(nodes, paths, stack, i, j);
  }

  lemma BelowItem(nodes: seq<Node>, paths: seq<string>, stack: seq<Item>, i: nat, j: nat)
    requires TrieOK(nodes, paths) && stack != [] && Apart(stack) && ItemsOK(nodes, paths, stack)
    requires i == stack[|stack| - 1].0 && i < |nodes| && j < |nodes|
    ensures Below(stack[..|stack| - 1] + Children(nodes[i], paths[i], 26), paths[j]) ==>
              j != i && Below(stack, paths[j])
  {
    var n := |stack| - 1;
    var cs := Children(nodes[i], paths[i], 26);
    var next := stack[..n] + cs;
    ChildItems(nodes, paths, i);
    SameLength(nodes, paths);
    hide TrieOK, Children;
    if Below(next, paths[j]) {
      var k :| 0 <= k < |next| && next[k].1 <= paths[j];
      var l := if k < n then k else n;
      assert stack[l].1 <= paths[j];
      assert k < n ==> !Related(stack[k].1, stack[n].1);
    }
  }

  lemma BelowChild(nodes: seq<Node>, paths: seq<string>, stack: seq<Item>, i: nat, j: nat)
    requires TrieOK(nodes, paths) && stack != [] && ItemsOK(nodes, paths, stack)
    requires i == stack[|stack| - 1].0 && i < |nodes| && j < |nodes|
    ensures j != i && Below(stack, paths[j]) ==>
              Below(stack[..|stack| - 1] + Children(nodes[i], paths[i], 26), paths[j])
  {
    var n := |stack| - 1;
    var next := stack[..n] + Children(nodes[i], paths[i], 26);
    hide TrieOK, Children;
    if j != i && Below(stack, paths[j]) {
      var k :| 0 <= k < |stack| && stack[k].1 <= paths[j];
      if k < n {
        assert next[k].1 <= paths[j];
      } else {
        var m := ChildOnTheWay(nodes, paths, i, j);
        assert next[n + m].1 <= paths[j];
      }
    }
  }

  lemma ChildItemOK(nodes: seq<Node>, paths: seq<string>, i: nat, it: Item)
    requires TrieOK(nodes, paths) && i < |nodes| && IsChildItem(nodes[i], paths[i], 26, it)
    ensures it.0 < |nodes| && it.1 == paths[it.0] && paths[i] < it.1 && |it.1| == |paths[i]| + 1
  {
    var m: nat :| m < 26 && Letter(m) in nodes[i].next && it == (nodes[i].next[Letter(m)], paths[i] + [Letter(m)]);
    assert ChildOK(nodes, paths, i, Letter(m));
  }

  lemma ChildOnTheWay(nodes: seq<Node>, paths: seq<string>, i: nat, j: nat) returns (m: nat)
    requires TrieOK(nodes, paths) && i < |nodes| && j < |nodes| && j != i && paths[i] <= paths[j]
    ensures var cs := Children(nodes[i], paths[i], 26); m < |cs| && cs[m].1 <= paths[j]
  {
    var w, cs := paths[i], Children(nodes[i], paths[i], 26);
    assert w != paths[j] by { assert i < j || j < i; }
    assert |w| < |paths[j]|;
    WayDown(nodes, paths, i, j);
    var c := paths[j][|w|];
    assert ChildOK(nodes, paths, i, c);
    var n: nat := c as int - 'a' as int;
    assert Letter(n) == c;
    ChildrenAre(nodes[i], w, 26);
    hide Children;
    var it := (nodes[i].next[c], w + [c]);
    assert it in cs;
    m :| m < |cs| && cs[m] == it;
  }

  // The entry is the keyword of a visited node.
  ghost predicate FromNode(nodes: seq<Node>, paths: seq<string>, visited: set<nat>, e: Entry) {
    exists i :: i in visited && i < |nodes| == |paths| && paths[i] == e.0 && nodes[i].token == KeyWord(e.1)
  }

  ghost predicate HasEntry(es: seq<Entry>, w: string) {
    exists e :: 0 <= e < |es| && es[e].0 == w
  }

  // The entries written so far are the keywords among the visited nodes.
  ghost predicate Written(nodes: seq<Node>, paths: seq<string>, visited: set<nat>, es: seq<Entry>) {
    && |nodes| == |paths|
    && (forall e, f :: 0 <= e < f < |es| ==> es[e].0 != es[f].0)
    && (forall e :: 0 <= e < |es| ==> FromNode(nodes, paths, visited, es[e]))
    && (forall i :: i in visited && i < |nodes| && nodes[i].token.KeyWord? ==> HasEntry(es, paths[i]))
  }

  lemma WriteOne(nodes: seq<Node>, paths: seq<string>, visited: set<nat>, es: seq<Entry>, i: nat)
    requires TrieOK(nodes, paths) && Written(nodes, paths, visited, es) && i < |nodes| && i !in visited
    ensures Written(nodes, paths, visited + {i},
              if nodes[i].token.KeyWord? then es + [(paths[i], nodes[i].token.kind)] else es)
  {
    hide HasParent, ChildOK, HasEntry, FromNode;
    var now := visited + {i};
    forall e | 0 <= e < |es| ensures es[e].0 != paths[i] && FromNode(nodes, paths, now, es[e]) {
      StillFrom(nodes, paths, visited, es[e], i);
    }
    if nodes[i].token.KeyWord? {
      var e := (paths[i], nodes[i].token.kind);
      NewEntry(nodes, paths, now, i, e);
      forall w ensures HasEntry(es + [e], w) <==> HasEntry(es, w) || w == paths[i] {
        EntryAdded(es, e, w);
      }
      hide TrieOK;
    }
  }

  lemma NewEntry(nodes: seq<Node>, paths: seq<string>, visited: set<nat>, i: nat, e: Entry)
    requires i in visited && i < |nodes| == |paths| && e.0 == paths[i] && nodes[i].token == KeyWord(e.1)
    ensures FromNode(nodes, paths, visited, e)
  {
  }

  lemma EntryAdded(es: seq<Entry>, e: Entry, w: string)
    ensures HasEntry(es + [e], w) <==> HasEntry(es, w) || w == e.0
  {
    if HasEntry(es, w) {
      var k :| 0 <= k < |es| && es[k].0 == w;
      assert (es + [e])[k].0 == w;
    }
    assert (es + [e])[|es|] == e;
  }

  lemma StillFrom(nodes: seq<Node>, paths: seq<string>, visited: set<nat>, e: Entry, i: nat)
    requires TrieOK(nodes, paths) && FromNode(nodes, paths, visited, e) && i < |nodes| && i !in visited
    ensures FromNode(nodes, paths, visited + {i}, e) && e.0 != paths[i]
  {
    hide HasParent, ChildOK;
    var j :| j in visited && j < |nodes| && paths[j] == e.0 && nodes[j].token == KeyWord(e.1);
    assert i < j || j < i;
  }

  lemma AllWritten(nodes: seq<Node>, paths: seq<string>, visited: set<nat>, es: seq<Entry>)
    requires Walking(nodes, paths, [], visited) && Written(nodes, paths, visited, es)
    ensures Lists(es, Tokens(nodes, paths))
  {
    var tokens := Tokens(nodes, paths);
    forall e | 0 <= e < |es| ensures es[e].0 in tokens && tokens[es[e].0] == KeyWord(es[e].1) {
      var i :| i in visited && i < |nodes| && paths[i] == es[e].0 && nodes[i].token == KeyWord(es[e].1);
      TokenAt(nodes, paths, i);
    }
    forall w | w in tokens && tokens[w].KeyWord? ensures exists e :: 0 <= e < |es| && es[e].0 == w {
      var i := Index(paths, w);
      TokenAt(nodes, paths, i);
      assert i in visited;
    }
  }

  lemma RootOK(nodes: seq<Node>, paths: seq<string>)
    requires TrieOK(nodes, paths)
    ensures |nodes| == |paths| > 0 && paths[0] == ""
  {
  }

  lemma NextOK(nodes: seq<Node>, paths: seq<string>, i: nat, c: char)
    requires TrieOK(nodes, paths) && i < |nodes| && c in nodes[i].next
    ensures |nodes| == |paths| && nodes[i].next[c] < |nodes| && paths[nodes[i].next[c]] == paths[i] + [c]
  {
    assert ChildOK(nodes, paths, i, c);
  }

  lemma {:induction false} Fit(s: set<nat>, n: nat)
    requires forall i :: i in s ==> i < n
    ensures |s| <= n
  {
    if n > 0 { Fit(s - {n - 1}, n - 1); }
  }

  lemma WalkBegins(nodes: seq<Node>, paths: seq<string>)
    requires TrieOK(nodes, paths)
    ensures Walking(nodes, paths, [(0, "")], {}) && Written(nodes, paths, {}, [])
  {
    hide HasParent, ChildOK;
    var stack: seq<Item> := [(0, "")];
    forall j: nat | j < |nodes| ensures Below(stack, paths[j]) {
      assert stack[0].1 <= paths[j];
    }
  }

  // The entries, all of them short enough, are all the keywords.
  lemma AllShort(tokens: map<string, TokenObj>, es: seq<Entry>)
    requires Lists(es, tokens) && forall e :: 0 <= e < |es| ==> |es[e].0| <= 255
    ensures forall w :: w in tokens && tokens[w].KeyWord? ==> |w| <= 255
  {
  }

  lemma RootWritten(nodes: seq<Node>, paths: seq<string>, visited: set<nat>)
    requires Walking(nodes, paths, [], visited)
    ensures |nodes| > 0 && visited != {}
    ensures "" in Keywords(Tokens(nodes, paths)) ==> nodes[0].token.KeyWord?
  {
    RootOK(nodes, paths);
    TokenAt(nodes, paths, 0);
    assert 0 in visited;
  }

  // The loop of saving: what is written is the text of the visited keywords.
  ghost predicate Saving(nodes: seq<Node>, paths: seq<string>, stack: seq<Item>, visited: set<nat>, es: seq<Entry>,
        output: string) {
    && Walking(nodes, paths, stack, visited) && Written(nodes, paths, visited, es)
    && output == Text(es) && (forall e :: 0 <= e < |es| ==> |es[e].0| <= 255)
    && if visited == {} then stack == [(0, "")] && es == []
       else |nodes| > 0 && nodes[0].token.KeyWord? ==> es != [] && es[0].0 == ""
  }

  lemma SaveBegins(nodes: seq<Node>, paths: seq<string>)
    requires TrieOK(nodes, paths)
    ensures Saving(nodes, paths, [(0, "")], {}, [], "")
  {
    WalkBegins(nodes, paths);
  }

  lemma SaveItem(nodes: seq<Node>, paths: seq<string>, stack: seq<Item>, visited: set<nat>, es: seq<Entry>,
        output: string)
    requires Saving(nodes, paths, stack, visited, es, output) && stack != []
    ensures var (i, w) := stack[|stack| - 1]; i < |nodes| == |paths| && w == paths[i] && |visited| < |nodes|
    ensures output == Text(es) && stack == stack[..|stack| - 1] + [stack[|stack| - 1]]
  {
    hide Walking, Written, Text, Children, TrieOK;
    var (i, w) := stack[|stack| - 1];
    WalkStep(nodes, paths, stack, visited);
    Fit(visited + {i}, |nodes|);
  }

  lemma SaveStep(nodes: seq<Node>, paths: seq<string>, stack: seq<Item>, visited: set<nat>, es: seq<Entry>,
        output: string)
    requires Saving(nodes, paths, stack, visited, es, output) && stack != []
    requires var (i, w) := stack[|stack| - 1]; i < |nodes| && (nodes[i].token.KeyWord? ==> |w| <= 255)
    ensures var (i, w) := stack[|stack| - 1];
            var next := stack[..|stack| - 1] + Children(nodes[i], w, 26);
            && i !in visited
            && if nodes[i].token.KeyWord? then
                 var e := (w, nodes[i].token.kind);
                 Saving(nodes, paths, next, visited + {i}, es + [e], output + Line(e))
               else Saving(nodes, paths, next, visited + {i}, es, output)
  {
    hide Walking, Written, Text, Line, Children, TrieOK;
    var (i, w) := stack[|stack| - 1];
    WalkStep(nodes, paths, stack, visited);
    WriteOne(nodes, paths, visited, es, i);
    if nodes[i].token.KeyWord? { TextMore(es, (w, nodes[i].token.kind)); }
  }

  lemma SaveEnds(nodes: seq<Node>, paths: seq<string>, visited: set<nat>, es: seq<Entry>, output: string)
    requires TrieOK(nodes, paths) && Saving(nodes, paths, [], visited, es, output)
    ensures var tokens := Tokens(nodes, paths);
            && output == Text(es) && Lists(es, tokens)
            && (forall w :: w in tokens && tokens[w].KeyWord? ==> |w| <= 255)
            && ("" in Keywords(tokens) ==> es != [] && es[0].0 == "")
  {
    AllWritten(nodes, paths, visited, es);
    AllShort(Tokens(nodes, paths), es);
    RootWritten(nodes, paths, visited);
    hide Walking, Written, Text, Lists, TrieOK, Tokens, Keywords;
  }

  // What a successful save writes, a fresh lexer loads as the same keywords,
  // exactly when the empty word is not one of them.
  lemma RoundTripExactly(nodes: seq<Node>, paths: seq<string>, es: seq<Entry>)
    requires TrieOK(nodes, paths) && Lists(es, Tokens(nodes, paths))
    requires "" in Keywords(Tokens(nodes, paths)) ==> es != [] && es[0].0 == ""
    ensures LoadFrom(map[], Text(es)) == Loaded(Keywords(Tokens(nodes, paths)))
       <==> "" !in Keywords(Tokens(nodes, paths))
  {
    hide TrieOK, Lists, Keywords, LoadFrom, Text;
    RootOK(nodes, paths);
    forall w | w in Tokens(nodes, paths) ensures AllLower(w) {
      PathsLower(nodes, paths, Index(paths, w));
    }
    TextRoundTrip(Tokens(nodes, paths), es);
  }

  class Lexer {
    var nodes: seq<Node>
    ghost var paths: seq<string>

    ghost predicate Valid()
      reads this
    {
      TrieOK(nodes, paths)
    }

    // Word to token, for the words with one.
    ghost function Words(): map<string, TokenObj>
      requires Valid()
      reads this
    {
      Tokens(nodes, paths)
    }

    constructor ()
      ensures Valid() && Words() == map[]
    {
      nodes := [Node(map[], Nothing)];
      paths := [""];
    }

    method InitKeyword(word: string, tok: TokenObj) returns (refused: Option<InsertError>)
      requires Valid()
      modifies this
      ensures Valid()
      ensures match Insert(old(Words()), word, tok)
              case Inserted(more) => refused == None && Words() == more
              case Refused(e) => refused == Some(e) && Words() == old(Words())
    {
      hide TrieOK, Tokens;
      var current: nat := 0;
      RootOK(nodes, paths);
      var k := 0;
      while k < |word|
        invariant 0 <= k <= |word| && Valid() && Words() == old(Words())
        invariant current < |nodes| == |paths| && paths[current] == word[..k] && AllLower(word[..k])
      {
        var c := word[k];
        if !IsLower(c) { return Some(NotLower); }
        assert word[..k + 1] == word[..k] + [c];
        if c !in nodes[current].next {
          GrowOK(nodes, paths, current, c);
          paths := paths + [paths[current] + [c]];
          nodes := Grown(nodes, current, c);
        }
        NextOK(nodes, paths, current, c);
        current := nodes[current].next[c];
        k := k + 1;
      }
      assert word[..k] == word;
      TokenAt(nodes, paths, current);
      if nodes[current].token != Nothing { return Some(Duplicate); }
      SetOK(nodes, paths, current, tok);
      nodes := nodes[current := nodes[current].(token := tok)];
      return None;
    }

    static method PushChildren(stack0: seq<Item>, node: Node, word: string) returns (stack: seq<Item>)
      ensures stack == stack0 + Children(node, word, 26)
    {
      stack := stack0;
      var n: nat := 0;
      while n < 26
        invariant n <= 26 && stack == stack0 + Children(node, word, n)
      {
        if Letter(n) in node.next {
          stack := stack + [(node.next[Letter(n)], word + [Letter(n)])];
        }
        n := n + 1;
      }
    }

    // Write every keyword; fails when one is longer than 255 letters.
    method Save(bad: bool) returns (ok: bool, output: string, ghost entries: seq<Entry>)
      requires Valid()
      ensures bad ==> !ok && output == ""
      ensures !bad ==> (ok <==> forall w :: w in Words() && Words()[w].KeyWord? ==> |w| <= 255)
      ensures output == Text(entries)
      ensures ok ==> Lists(entries, Words())
      ensures ok && "" in Keywords(Words()) ==> entries != [] && entries[0].0 == ""
    {
      ok, output, entries := true, "", [];
      if bad { return false, output, entries; }
      hide TrieOK, Tokens, Saving, Line, Text, Keywords, Lists, Children;
      var stack: seq<Item> := [(0, "")];
      ghost var visited: set<nat> := {};
      SaveBegins(nodes, paths);
      while stack != []
        invariant Saving(nodes, paths, stack, visited, entries, output)
        decreases |nodes| - |visited|
      {
        var (node, word) := stack[|stack| - 1];
        SaveItem(nodes, paths, stack, visited, entries, output);
        stack := stack[..|stack| - 1];
        if nodes[node].token.KeyWord? {
          if |word| > 255 {
            TokenAt(nodes, paths, node);
            ok := false;
            return;
          }
          SaveStep(nodes, paths, stack + [(node, word)], visited, entries, output);
          output := output + Line((word, nodes[node].token.kind));
          entries := entries + [(word, nodes[node].token.kind)];
        } else {
          SaveStep(nodes, paths, stack + [(node, word)], visited, entries, output);
        }
        stack := PushChildren(stack, nodes[node], word);
        visited := visited + {node};
      }
      SaveEnds(nodes, paths, visited, entries, output);
    }

    // Word and number, until one cannot be read; a refused word is thrown.
    method Load(good: bool, input: string) returns (ok: bool, thrown: Option<InsertError>)
      requires Valid()
      modifies this
      ensures Valid()
      ensures !good ==> !ok && thrown == None && Words() == old(Words())
      ensures good ==> match LoadFrom(old(Words()), input)
                       case Loaded(tokens) => ok && thrown == None && Words() == tokens
                       case Threw(e, tokens) => !ok && thrown == Some(e) && Words() == tokens
    {
      hide TrieOK, Tokens, ReadShort, WordLength;
      ok, thrown := false, None;
      if !good { return; }
      var rest := input;
      while true
        invariant Valid() && LoadFrom(Words(), rest) == LoadFrom(old(Words()), input)
        decreases |rest|
      {
        var s := SkipSpace(rest);
        var k := WordLength(s);
        if k == 0 { break; }
        var number := ReadShort(s[k..]);
        if number.None? { break; }
        var refused := InitKeyword(s[..k], KeyWord(number.value.0 % 256));
        if refused.Some? { return false, refused; }
        rest := number.value.1;
      }
      ok := true;
    }
  }
}
