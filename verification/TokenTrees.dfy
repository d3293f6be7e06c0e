/** Bracketed token groups: the scanner with an explicit stack, and the trees it must find. */
module TokenTrees {
  import opened Wrappers

  datatype Kind = Word | Str | Quoted | Other | Punct

  datatype Token = Token(kind: Kind, text: string)

  function Closer(open: string): Option<string> {
    if open == "(" then Some(")") else if open == "[" then Some("]") else if open == "{" then Some("}") else None
  }

  predicate Opens(t: Token) {
    t.kind == Punct && Closer(t.text).Some?
  }

  predicate Closes(t: Token) {
    t.kind == Punct && (t.text == ")" || t.text == "]" || t.text == "}")
  }

  /** Distance to the token that empties the stack; `None` is an unbalanced or unterminated group. */
  function Scan(ts: seq<Token>, stack: seq<string>): (r: Option<nat>)
    requires |stack| > 0
    ensures r.Some? ==> r.value < |ts|
  {
    if ts == [] then None
    else if Opens(ts[0]) then Shift(Scan(ts[1..], [Closer(ts[0].text).value] + stack), 1)
    else if Closes(ts[0]) then
      if ts[0].text != stack[0] then None
      else if |stack| == 1 then Some(0)
      else Shift(Scan(ts[1..], stack[1..]), 1)
    else Shift(Scan(ts[1..], stack), 1)
  }

  function Shift(o: Option<nat>, n: nat): Option<nat> {
    match o case None => None case Some(k) => Some(k + n)
  }

  /** The tokens inside the group that starts at `i`, and the position after it. */
  function Group(ts: seq<Token>, i: nat): (r: Option<(seq<Token>, nat)>)
    ensures r.Some? ==> i + 2 <= r.value.1 <= |ts| && |r.value.0| == r.value.1 - i - 2
  {
    if i >= |ts| || !Opens(ts[i]) then None
    else
      match Scan(ts[i + 1..], [Closer(ts[i].text).value])
      case None => None
      case Some(k) => Some((ts[i + 1..i + 1 + k], i + k + 2))
  }

  /** One turn of the scanning loop. */
  lemma ScanAt(ts: seq<Token>, end: nat, stack: seq<string>)
    requires end < |ts| && |stack| > 0
    ensures Scan(ts[end..], stack) ==
      if Opens(ts[end]) then Shift(Scan(ts[end + 1..], [Closer(ts[end].text).value] + stack), 1)
      else if !Closes(ts[end]) then Shift(Scan(ts[end + 1..], stack), 1)
      else if ts[end].text != stack[0] then None
      else if |stack| == 1 then Some(0)
      else Shift(Scan(ts[end + 1..], stack[1..]), 1)
  {
    assert ts[end..][1..] == ts[end + 1..];
  }

  method FindGroup(ts: seq<Token>, i: nat) returns (r: Option<(seq<Token>, nat)>)
    ensures r == Group(ts, i)
  {
    if i >= |ts| || !Opens(ts[i]) { return None; }
    var stack := [Closer(ts[i].text).value];
    ghost var found := Scan(ts[i + 1..], stack);
    for end := i + 1 to |ts|
      invariant |stack| > 0 && found == Shift(Scan(ts[end..], stack), end - i - 1)
    {
      ScanAt(ts, end, stack);
      var t := ts[end];
      if Opens(t) {
        stack := [Closer(t.text).value] + stack;
      } else if Closes(t) {
        if t.text != stack[0] { return None; }
        if |stack| == 1 { return Some((ts[i + 1..end], end + 1)); }
        stack := stack[1..];
      }
    }
    return None;
  }

  // ------------------------------------------------------------------ trees

  datatype Tree = Leaf(token: Token) | Node(open: string, inner: Forest)
  datatype Forest = Nil | Cons(head: Tree, tail: Forest)

  ghost predicate GoodTree(t: Tree) {
    match t
    case Leaf(token) => !Opens(token) && !Closes(token)
    case Node(open, inner) => Closer(open).Some? && Good(inner)
  }

  ghost predicate Good(f: Forest) {
    match f case Nil => true case Cons(t, rest) => GoodTree(t) && Good(rest)
  }

  function FlatTree(t: Tree): (ts: seq<Token>)
    ensures |ts| > 0
  {
    match t
    case Leaf(token) => [token]
    case Node(open, inner) =>
      [Token(Punct, open)] + Flat(inner) + [Token(Punct, if Closer(open).Some? then Closer(open).value else open)]
  }

  function Flat(f: Forest): seq<Token> {
    match f case Nil => [] case Cons(t, rest) => FlatTree(t) + Flat(rest)
  }

  function Append(f: Forest, g: Forest): Forest {
    match f case Nil => g case Cons(t, rest) => Cons(t, Append(rest, g))
  }

  lemma {:induction false} FlatAppend(f: Forest, g: Forest)
    ensures Flat(Append(f, g)) == Flat(f) + Flat(g)
    ensures Good(Append(f, g)) <==> Good(f) && Good(g)
  {
    if f.Cons? { FlatAppend(f.tail, g); }
  }

  lemma Unwrap<T>(first: T, inner: seq<T>, last: T, rest: seq<T>)
    ensures ([first] + inner + [last]) + rest == [first] + (inner + ([last] + rest))
    ensures ([first] + (inner + ([last] + rest)))[1..] == inner + ([last] + rest)
    ensures ([last] + rest)[1..] == rest
  {
  }

  /** Scanning passes over whole trees without changing the stack. */
  lemma {:induction false} ScanTree(t: Tree, rest: seq<Token>, stack: seq<string>)
    requires GoodTree(t) && |stack| > 0
    ensures Scan(FlatTree(t) + rest, stack) == Shift(Scan(rest, stack), |FlatTree(t)|)
    decreases t
  {
    match t
    case Leaf(token) =>
      assert ([token] + rest)[1..] == rest;
    case Node(open, inner) =>
      var first, close := Token(Punct, open), Token(Punct, Closer(open).value);
      Unwrap(first, Flat(inner), close, rest);
      ScanForest(inner, [close] + rest, [close.text] + stack);
      ScanClose(close, rest, stack);
      assert FlatTree(t) == [first] + Flat(inner) + [close];
  }

  lemma ScanClose(close: Token, rest: seq<Token>, stack: seq<string>)
    requires Closes(close) && |stack| > 0
    ensures Scan([close] + rest, [close.text] + stack) == Shift(Scan(rest, stack), 1)
  {
    assert ([close] + rest)[1..] == rest && ([close.text] + stack)[1..] == stack;
  }

  lemma {:induction false} ScanForest(f: Forest, rest: seq<Token>, stack: seq<string>)
    requires Good(f) && |stack| > 0
    ensures Scan(Flat(f) + rest, stack) == Shift(Scan(rest, stack), |Flat(f)|)
    decreases f
  {
    match f
    case Nil => assert Flat(f) + rest == rest;
    case Cons(t, tail) =>
      assert Flat(f) + rest == FlatTree(t) + (Flat(tail) + rest);
      ScanTree(t, Flat(tail) + rest, stack);
      ScanForest(tail, rest, stack);
  }

  lemma Around<T>(before: seq<T>, first: T, inner: seq<T>, last: T, rest: seq<T>)
    ensures var ts := before + ([first] + inner + [last]) + rest;
      && ts[|before|] == first
      && ts[|before| + 1..] == inner + ([last] + rest)
      && ts[|before| + 1..|before| + 1 + |inner|] == inner
  {
  }

  lemma ScanLast(close: Token, rest: seq<Token>)
    requires Closes(close)
    ensures Scan([close] + rest, [close.text]) == Some(0)
  {
    assert ([close] + rest)[0] == close;
  }

  /** Every bracketed tree is found, wherever it stands and whatever surrounds it. */
  lemma GroupFinds(before: seq<Token>, open: string, inner: Forest, rest: seq<Token>)
    requires Closer(open).Some? && Good(inner)
    ensures var t := FlatTree(Node(open, inner));
      Group(before + t + rest, |before|) == Some((Flat(inner), |before| + |t|))
  {
    var first, close := Token(Punct, open), Token(Punct, Closer(open).value);
    Around(before, first, Flat(inner), close, rest);
    ScanForest(inner, [close] + rest, [close.text]);
    ScanLast(close, rest);
  }

  // ------------------------------------------------------------------ and nothing else

  /** Forests separated by the closers still on the stack, innermost first. */
  function Nested(levels: seq<Forest>, stack: seq<string>): seq<Token>
    requires |levels| == |stack|
  {
    if levels == [] then [] else Flat(levels[0]) + [Token(Punct, stack[0])] + Nested(levels[1..], stack[1..])
  }

  lemma {:induction false} ScanSound(ts: seq<Token>, stack: seq<string>) returns (levels: seq<Forest>)
    requires |stack| > 0 && Scan(ts, stack).Some?
    ensures |levels| == |stack| && forall i :: 0 <= i < |levels| ==> Good(levels[i])
    ensures ts[..Scan(ts, stack).value + 1] == Nested(levels, stack)
    decreases |ts|
  {
    var k := Scan(ts, stack).value;
    assert ts[..k + 1] == [ts[0]] + ts[1..][..k];
    if Opens(ts[0]) {
      var close := Closer(ts[0].text).value;
      var deeper := ScanSound(ts[1..], [close] + stack);
      var node := Node(ts[0].text, deeper[0]);
      levels := [Cons(node, deeper[1])] + deeper[2..];
      NestedOpen(deeper, close, stack, ts[0].text);
      assert ts[0] == Token(Punct, ts[0].text);
    } else if Closes(ts[0]) {
      assert ts[0] == Token(Punct, stack[0]);
      var shallower := [];
      if |stack| > 1 { shallower := ScanSound(ts[1..], stack[1..]); }
      levels := [Nil] + shallower;
      NestedClose(shallower, stack);
    } else {
      var same := ScanSound(ts[1..], stack);
      levels := [Cons(Leaf(ts[0]), same[0])] + same[1..];
      NestedLeaf(ts[0], same, stack);
    }
  }

  lemma NestedClose(shallower: seq<Forest>, stack: seq<string>)
    requires |stack| == |shallower| + 1
    ensures [Token(Punct, stack[0])] + Nested(shallower, stack[1..]) == Nested([Nil] + shallower, stack)
  {
    assert stack == [stack[0]] + stack[1..];
    NestedCons(Nil, shallower, stack[0], stack[1..]);
  }

  lemma NestedLeaf(token: Token, same: seq<Forest>, stack: seq<string>)
    requires |same| == |stack| > 0
    ensures [token] + Nested(same, stack) == Nested([Cons(Leaf(token), same[0])] + same[1..], stack)
  {
    var f, g := same[0], Cons(Leaf(token), same[0]);
    var e, rest := [Token(Punct, stack[0])], Nested(same[1..], stack[1..]);
    calc {
      [token] + Nested(same, stack);
    == { NestedFirst(same, stack); }
      [token] + (Flat(f) + e + rest);
    == { Reattach([token], Flat(f), e, rest); }
      ([token] + Flat(f)) + e + rest;
    == { assert Flat(g) == [token] + Flat(f); }
      Flat(g) + e + rest;
    == { assert stack == [stack[0]] + stack[1..]; NestedCons(g, same[1..], stack[0], stack[1..]); }
      Nested([g] + same[1..], stack);
    }
  }

  lemma Reattach<T>(a: seq<T>, b: seq<T>, c: seq<T>, d: seq<T>)
    ensures a + (b + c + d) == (a + b) + c + d
  {
  }

  lemma NestedFirst(levels: seq<Forest>, stack: seq<string>)
    requires |levels| == |stack| > 0
    ensures Nested(levels, stack) == Flat(levels[0]) + [Token(Punct, stack[0])] + Nested(levels[1..], stack[1..])
  {
  }

  lemma Regroup<T>(a: seq<T>, b: seq<T>, c: seq<T>, d: seq<T>, e: seq<T>, f: seq<T>)
    ensures a + (b + c + (d + e + f)) == ((a + b + c) + d) + e + f
  {
  }

  lemma NestedCons(first: Forest, rest: seq<Forest>, close: string, stack: seq<string>)
    requires |rest| == |stack|
    ensures Nested([first] + rest, [close] + stack) == Flat(first) + [Token(Punct, close)] + Nested(rest, stack)
  {
    assert ([first] + rest)[1..] == rest && ([close] + stack)[1..] == stack;
  }

  lemma NestedOpen(deeper: seq<Forest>, close: string, stack: seq<string>, open: string)
    requires |deeper| == |stack| + 1 && |stack| > 0 && Closer(open) == Some(close)
    ensures [Token(Punct, open)] + Nested(deeper, [close] + stack) ==
      Nested([Cons(Node(open, deeper[0]), deeper[1])] + deeper[2..], stack)
  {
    var inner, outer, node := deeper[0], deeper[1], Node(open, deeper[0]);
    var o, c, e := [Token(Punct, open)], [Token(Punct, close)], [Token(Punct, stack[0])];
    var rest := Nested(deeper[2..], stack[1..]);
    calc {
      o + Nested(deeper, [close] + stack);
    == { assert deeper == [inner] + deeper[1..]; NestedCons(inner, deeper[1..], close, stack); }
      o + (Flat(inner) + c + Nested(deeper[1..], stack));
    == { NestedFirst(deeper[1..], stack); assert deeper[1..][1..] == deeper[2..]; }
      o + (Flat(inner) + c + (Flat(outer) + e + rest));
    == { Regroup(o, Flat(inner), c, Flat(outer), e, rest); }
      ((o + Flat(inner) + c) + Flat(outer)) + e + rest;
    == { assert Flat(Cons(node, outer)) == (o + Flat(inner) + c) + Flat(outer); }
      Flat(Cons(node, outer)) + e + rest;
    == { assert stack == [stack[0]] + stack[1..]; NestedCons(Cons(node, outer), deeper[2..], stack[0], stack[1..]); }
      Nested([Cons(node, outer)] + deeper[2..], stack);
    }
  }

  /** Whatever is returned as a group is one bracketed tree, closed by its own bracket. */
  lemma GroupSound(ts: seq<Token>, i: nat) returns (inner: Forest)
    requires Group(ts, i).Some?
    ensures Good(inner) && Closer(ts[i].text).Some?
    ensures Group(ts, i).value.0 == Flat(inner)
    ensures ts[i..Group(ts, i).value.1] == FlatTree(Node(ts[i].text, inner))
  {
    assert Opens(ts[i]) && ts[i] == Token(Punct, ts[i].text);
    var close := Closer(ts[i].text).value;
    var rest := ts[i + 1..];
    var k := Scan(rest, [close]).value;
    var levels := ScanSound(rest, [close]);
    inner := levels[0];
    assert Nested(levels, [close]) == Flat(inner) + [Token(Punct, close)] + Nested(levels[1..], []);
    assert rest[..k + 1] == Flat(inner) + [Token(Punct, close)];
    assert |Flat(inner)| == k;
    assert ts[i + 1..i + 1 + k] == rest[..k + 1][..k] == Flat(inner);
    assert ts[i..i + k + 2] == [ts[i]] + rest[..k + 1];
  }

  /** A group of this bracket starts here, whatever follows it. */
  ghost predicate GroupAt(ts: seq<Token>, i: nat, open: string) {
    && i <= |ts| && Closer(open).Some?
    && exists inner, rest :: Good(inner) && ts[i..] == FlatTree(Node(open, inner)) + rest
  }

  lemma FoundAt(ts: seq<Token>, i: nat)
    requires Group(ts, i).Some?
    ensures GroupAt(ts, i, ts[i].text)
  {
    var inner := GroupSound(ts, i);
    var end := Group(ts, i).value.1;
    assert ts[i..] == ts[i..end] + ts[end..];
  }

  lemma AtFound(ts: seq<Token>, i: nat, open: string)
    requires GroupAt(ts, i, open)
    ensures Group(ts, i).Some?
  {
    var inner, rest :| Good(inner) && ts[i..] == FlatTree(Node(open, inner)) + rest;
    GroupFinds(ts[..i], open, inner, rest);
    assert ts == ts[..i] + FlatTree(Node(open, inner)) + rest;
  }

  lemma FirstTree(f: Forest)
    requires f.Cons?
    ensures |FlatTree(f.head)| <= |Flat(f)| && Flat(f)[|FlatTree(f.head)|..] == Flat(f.tail)
    ensures Flat(f)[0] == if f.head.Leaf? then f.head.token else Token(Punct, f.head.open)
  {
    assert Flat(f)[0] == FlatTree(f.head)[0];
  }

  lemma FirstGroup(f: Forest)
    requires Good(f) && f.Cons? && f.head.Node?
    ensures Group(Flat(f), 0) == Some((Flat(f.head.inner), |FlatTree(f.head)|))
  {
    GroupFinds([], f.head.open, f.head.inner, Flat(f.tail));
    assert [] + FlatTree(f.head) + Flat(f.tail) == Flat(f);
  }

  lemma SameFirst(f: Forest, g: Forest)
    requires Good(f) && Good(g) && f.Cons? && g.Cons? && Flat(f) == Flat(g)
    ensures Flat(f.tail) == Flat(g.tail) && f.head.Leaf? == g.head.Leaf?
    ensures f.head.Leaf? ==> g.head == f.head
    ensures f.head.Node? ==> g.head.open == f.head.open && Flat(g.head.inner) == Flat(f.head.inner)
  {
    FirstTree(f);
    FirstTree(g);
    if f.head.Node? {
      FirstGroup(f);
      FirstGroup(g);
    }
  }

  /** A balanced token sequence is the spelling of one forest only. */
  lemma {:induction false} FlatUnique(f: Forest, g: Forest)
    requires Good(f) && Good(g) && Flat(f) == Flat(g)
    ensures f == g
    decreases f
  {
    if f.Cons? && g.Cons? {
      SameFirst(f, g);
      if f.head.Node? { FlatUnique(f.head.inner, g.head.inner); }
      FlatUnique(f.tail, g.tail);
    }
  }
}
