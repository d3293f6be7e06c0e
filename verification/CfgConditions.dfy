/** Compile conditions read from tokens, with `test` false and everything else unknown. */
module CfgConditions {
  import opened Wrappers
  import opened TokenTrees

  datatype Tri = Yes | No | Maybe

  const COMMA := Token(Punct, ",")
  const TEST := Token(Word, "test")

  // ------------------------------------------------------------------ splitting at commas

  /** Parts between top-level commas; a trailing comma adds none. `None` is a malformed group. */
  function SplitFrom(ts: seq<Token>, start: nat, i: nat): (r: Option<seq<seq<Token>>>)
    requires start <= i <= |ts|
    ensures r.Some? ==> forall k :: 0 <= k < |r.value| ==> |r.value[k]| <= |ts|
    decreases |ts| - i
  {
    if i == |ts| then Some(if start < |ts| then [ts[start..]] else [])
    else if Opens(ts[i]) then
      match Group(ts, i)
      case None => None
      case Some(g) => SplitFrom(ts, start, g.1)
    else if ts[i] == COMMA then
      match SplitFrom(ts, i + 1, i + 1)
      case None => None
      case Some(rest) => Some([ts[start..i]] + rest)
    else SplitFrom(ts, start, i + 1)
  }

  function Split(ts: seq<Token>): (r: Option<seq<seq<Token>>>)
    ensures r.Some? ==> forall k :: 0 <= k < |r.value| ==> |r.value[k]| <= |ts|
  {
    SplitFrom(ts, 0, 0)
  }

  method SplitParts(ts: seq<Token>) returns (r: Option<seq<seq<Token>>>)
    ensures r == Split(ts)
  {
    var parts: seq<seq<Token>> := [];
    var start, i := 0, 0;
    assert Split(ts).Some? ==> [] + Split(ts).value == Split(ts).value;
    while i < |ts|
      invariant start <= i <= |ts|
      invariant Split(ts) == match SplitFrom(ts, start, i) case None => None case Some(rest) => Some(parts + rest)
      decreases |ts| - i
    {
      if Opens(ts[i]) {
        var g := FindGroup(ts, i);
        if g.None? { return None; }
        i := g.value.1;
      } else if ts[i] == COMMA {
        ghost var rest := SplitFrom(ts, i + 1, i + 1);
        if rest.Some? { assert parts + ([ts[start..i]] + rest.value) == (parts + [ts[start..i]]) + rest.value; }
        parts := parts + [ts[start..i]];
        i := i + 1;
        start := i;
      } else {
        i := i + 1;
      }
    }
    if start < |ts| { parts := parts + [ts[start..]]; } else { assert parts + [] == parts; }
    return Some(parts);
  }

  /** The parts of a forest, split at its own commas. */
  function Parts(current: seq<Token>, f: Forest): seq<seq<Token>>
    decreases f
  {
    match f
    case Nil => if current == [] then [] else [current]
    case Cons(t, rest) => if t == Leaf(COMMA) then [current] + Parts([], rest) else Parts(current + FlatTree(t), rest)
  }

  lemma StepOver(ts: seq<Token>, start: nat, i: nat, t: Tree, rest: seq<Token>)
    requires start <= i <= |ts| && GoodTree(t) && t != Leaf(COMMA) && ts[i..] == FlatTree(t) + rest
    ensures i + |FlatTree(t)| <= |ts| && SplitFrom(ts, start, i) == SplitFrom(ts, start, i + |FlatTree(t)|)
  {
    assert ts[i] == ts[i..][0];
    match t
    case Leaf(token) =>
    case Node(open, inner) =>
      GroupFinds(ts[..i], open, inner, rest);
      assert ts == ts[..i] + FlatTree(t) + rest;
  }

  lemma StepComma(ts: seq<Token>, start: nat, i: nat)
    requires start <= i < |ts| && ts[i] == COMMA && SplitFrom(ts, i + 1, i + 1).Some?
    ensures SplitFrom(ts, start, i) == Some([ts[start..i]] + SplitFrom(ts, i + 1, i + 1).value)
  {
  }

  lemma Slices<T>(ts: seq<T>, start: nat, i: nat, a: seq<T>, b: seq<T>)
    requires start <= i <= |ts| && ts[i..] == a + b
    ensures i + |a| <= |ts| && ts[i + |a|..] == b && ts[start..i + |a|] == ts[start..i] + a
  {
    assert ts[i + |a|..] == ts[i..][|a|..];
    assert ts[i..i + |a|] == ts[i..][..|a|];
    assert ts[start..i + |a|] == ts[start..i] + ts[i..i + |a|];
  }

  lemma CommaFirst(ts: seq<Token>, i: nat, rest: seq<Token>)
    requires i <= |ts| && ts[i..] == [COMMA] + rest
    ensures i < |ts| && ts[i] == COMMA
  {
    assert ts[i] == ts[i..][0];
  }

  lemma PassComma(ts: seq<Token>, start: nat, i: nat, rest: Forest, current: seq<Token>)
    requires start <= i < |ts| && ts[i] == COMMA && current == ts[start..i]
    requires SplitFrom(ts, i + 1, i + 1) == Some(Parts([], rest))
    ensures SplitFrom(ts, start, i) == Some(Parts(current, Cons(Leaf(COMMA), rest)))
  {
    StepComma(ts, start, i);
  }

  lemma PassTree(ts: seq<Token>, start: nat, i: nat, t: Tree, rest: Forest, current: seq<Token>)
    requires start <= i <= |ts| && GoodTree(t) && t != Leaf(COMMA) && ts[i..] == FlatTree(t) + Flat(rest)
    requires i + |FlatTree(t)| <= |ts|
      && SplitFrom(ts, start, i + |FlatTree(t)|) == Some(Parts(current + FlatTree(t), rest))
    ensures SplitFrom(ts, start, i) == Some(Parts(current, Cons(t, rest)))
  {
    StepOver(ts, start, i, t, Flat(rest));
  }

  /** Splitting tokens splits the trees they spell: commas inside groups do not count. */
  lemma {:induction false} SplitTrees(ts: seq<Token>, start: nat, i: nat, f: Forest, current: seq<Token>)
    requires Good(f) && start <= i <= |ts| && ts[i..] == Flat(f) && current == ts[start..i]
    ensures SplitFrom(ts, start, i) == Some(Parts(current, f))
    decreases f
  {
    match f
    case Nil =>
      assert i == |ts| && current == ts[start..];
    case Cons(t, rest) =>
      Slices(ts, start, i, FlatTree(t), Flat(rest));
      if t == Leaf(COMMA) {
        CommaFirst(ts, i, Flat(rest));
        SplitTrees(ts, i + 1, i + 1, rest, []);
        PassComma(ts, start, i, rest, current);
      } else {
        SplitTrees(ts, start, i + |FlatTree(t)|, rest, current + FlatTree(t));
        PassTree(ts, start, i, t, rest, current);
      }
  }

  lemma SplitIsParts(f: Forest)
    requires Good(f)
    ensures Split(Flat(f)) == Some(Parts([], f))
  {
    var ts := Flat(f);
    assert ts[0..] == ts && ts[0..0] == [];
    SplitTrees(ts, 0, 0, f, []);
  }

  // ------------------------------------------------------------------ the reading

  predicate Named(ts: seq<Token>) {
    |ts| >= 3 && ts[0].text in {"all", "any", "not"} && ts[1].text == "("
  }

  function Combine(name: string, vs: seq<Tri>): Tri {
    if name == "not" then
      if |vs| != 1 || vs[0] == Maybe then Maybe else if vs[0] == Yes then No else Yes
    else if name == "all" then
      if No in vs then No else if Maybe in vs then Maybe else Yes
    else if Yes in vs then Yes else if Maybe in vs then Maybe else No
  }

  /** `None` is a malformed condition. */
  function Value(ts: seq<Token>): Option<Tri>
    decreases |ts|, 1, 0
  {
    if ts == [TEST] then Some(No)
    else if !Named(ts) then Some(Maybe)
    else
      match Group(ts, 1)
      case None => None
      case Some(g) =>
        if g.1 != |ts| then Some(Maybe)
        else
          match Split(g.0)
          case None => None
          case Some(parts) =>
            match Values(parts, |ts|)
            case None => None
            case Some(vs) => Some(Combine(ts[0].text, vs))
  }

  function Values(parts: seq<seq<Token>>, bound: nat): Option<seq<Tri>>
    requires forall k :: 0 <= k < |parts| ==> |parts[k]| < bound
    decreases bound, 0, |parts|
  {
    if parts == [] then Some([])
    else
      match Value(parts[0])
      case None => None
      case Some(v) => match Values(parts[1..], bound) case None => None case Some(vs) => Some([v] + vs)
  }

  /** The reading, part by part, as it is carried out. */
  method ReadCondition(ts: seq<Token>) returns (r: Option<Tri>)
    ensures r == Value(ts)
    decreases |ts|
  {
    if ts == [TEST] { return Some(No); }
    if !Named(ts) { return Some(Maybe); }
    var g := FindGroup(ts, 1);
    if g.None? { return None; }
    if g.value.1 != |ts| { return Some(Maybe); }
    var parts := SplitParts(g.value.0);
    if parts.None? { return None; }
    var vs: seq<Tri> := [];
    assert parts.value[0..] == parts.value;
    assert Values(parts.value, |ts|).Some? ==> [] + Values(parts.value, |ts|).value == Values(parts.value, |ts|).value;
    for i := 0 to |parts.value|
      invariant Values(parts.value, |ts|) ==
        match Values(parts.value[i..], |ts|) case None => None case Some(rest) => Some(vs + rest)
    {
      assert parts.value[i..][1..] == parts.value[i + 1..];
      var v := ReadCondition(parts.value[i]);
      if v.None? { return None; }
      ghost var rest := Values(parts.value[i + 1..], |ts|);
      if rest.Some? { assert vs + ([v.value] + rest.value) == (vs + [v.value]) + rest.value; }
      vs := vs + [v.value];
    }
    assert vs + [] == vs;
    return Some(Combine(ts[0].text, vs));
  }

  // ------------------------------------------------------------------ conditions as trees

  /** What stands between the commas of a forest; nothing follows a trailing comma. */
  function Segments(current: Forest, f: Forest): seq<Forest>
    decreases f
  {
    match f
    case Nil => if current.Nil? then [] else [current]
    case Cons(t, rest) =>
      if t == Leaf(COMMA) then [current] + Segments(Nil, rest) else Segments(Append(current, Cons(t, Nil)), rest)
  }

  function Flats(fs: seq<Forest>): seq<seq<Token>> {
    seq(|fs|, k requires 0 <= k < |fs| => Flat(fs[k]))
  }

  lemma {:induction false} SegmentsFlat(current: Forest, f: Forest)
    ensures Flats(Segments(current, f)) == Parts(Flat(current), f)
    decreases f
  {
    match f
    case Nil => assert current.Cons? ==> Flat(current) != [];
    case Cons(t, rest) =>
      if t == Leaf(COMMA) {
        SegmentsFlat(Nil, rest);
        assert Flats(Segments(current, f)) == [Flat(current)] + Flats(Segments(Nil, rest));
      } else {
        FlatAppend(current, Cons(t, Nil));
        assert FlatTree(t) + [] == FlatTree(t);
        SegmentsFlat(Append(current, Cons(t, Nil)), rest);
      }
  }

  lemma {:induction false} SegmentsGood(current: Forest, f: Forest)
    requires Good(current) && Good(f)
    ensures forall k :: 0 <= k < |Segments(current, f)| ==> Good(Segments(current, f)[k])
    decreases f
  {
    if f.Cons? {
      if f.head == Leaf(COMMA) {
        SegmentsGood(Nil, f.tail);
      } else {
        FlatAppend(current, Cons(f.head, Nil));
        SegmentsGood(Append(current, Cons(f.head, Nil)), f.tail);
      }
    }
  }

  /** Segments are made of the forest's own tokens, and of fewer than all of them and a closing bracket. */
  lemma {:induction false} SegmentsWithin(current: Forest, f: Forest)
    ensures forall k :: 0 <= k < |Segments(current, f)| ==>
      |Flat(Segments(current, f)[k])| <= |Flat(current)| + |Flat(f)|
    ensures forall k, t :: 0 <= k < |Segments(current, f)| && t in Flat(Segments(current, f)[k]) ==>
      t in Flat(current) || t in Flat(f)
    decreases f
  {
    if f.Cons? {
      if f.head == Leaf(COMMA) {
        SegmentsWithin(Nil, f.tail);
      } else {
        FlatAppend(current, Cons(f.head, Nil));
        assert FlatTree(f.head) + [] == FlatTree(f.head);
        SegmentsWithin(Append(current, Cons(f.head, Nil)), f.tail);
      }
    }
  }

  /** `all(..)`, `any(..)` or `not(..)`, and nothing after it. */
  predicate Calls(f: Forest) {
    && f.Cons? && f.head.Leaf? && f.head.token.text in {"all", "any", "not"}
    && f.tail.Cons? && f.tail.head.Node? && f.tail.head.open == "(" && f.tail.tail.Nil?
  }

  lemma CallLength(f: Forest)
    requires Calls(f)
    ensures |Flat(f)| == |Flat(f.tail.head.inner)| + 3
  {
    assert Flat(f) == [f.head.token] + (FlatTree(f.tail.head) + Flat(f.tail.tail));
  }

  function Arguments(f: Forest): (fs: seq<Forest>)
    requires Calls(f)
    ensures forall k :: 0 <= k < |fs| ==> |Flat(fs[k])| < |Flat(f)|
  {
    CallLength(f);
    SegmentsWithin(Nil, f.tail.head.inner);
    Segments(Nil, f.tail.head.inner)
  }

  // ------------------------------------------------------------------ meaning

  /** Truth under one choice for every predicate the reader does not know; `test` is off. */
  ghost predicate Holds(f: Forest, env: seq<Token> -> bool)
    decreases |Flat(f)|
  {
    if f == Cons(Leaf(TEST), Nil) then false
    else if !Calls(f) then env(Flat(f))
    else if f.head.token.text == "all" then forall k :: 0 <= k < |Arguments(f)| ==> Holds(Arguments(f)[k], env)
    else if f.head.token.text == "any" then exists k :: 0 <= k < |Arguments(f)| && Holds(Arguments(f)[k], env)
    else if |Arguments(f)| == 1 then !Holds(Arguments(f)[0], env)
    else env(Flat(f))
  }

  function Negated(v: Tri): Tri {
    match v case Yes => No case No => Yes case Maybe => Maybe
  }

  /** Three-valued truth when nothing is known but that `test` is off. */
  ghost function Known(f: Forest): Tri
    decreases |Flat(f)|
  {
    if f == Cons(Leaf(TEST), Nil) then No
    else if !Calls(f) then Maybe
    else if f.head.token.text == "all" then
      if exists k :: 0 <= k < |Arguments(f)| && Known(Arguments(f)[k]) == No then No
      else if exists k :: 0 <= k < |Arguments(f)| && Known(Arguments(f)[k]) == Maybe then Maybe
      else Yes
    else if f.head.token.text == "any" then
      if exists k :: 0 <= k < |Arguments(f)| && Known(Arguments(f)[k]) == Yes then Yes
      else if exists k :: 0 <= k < |Arguments(f)| && Known(Arguments(f)[k]) == Maybe then Maybe
      else No
    else if |Arguments(f)| == 1 then Negated(Known(Arguments(f)[0]))
    else Maybe
  }

  lemma {:induction false} KnownSound(f: Forest, env: seq<Token> -> bool)
    ensures Known(f) == Yes ==> Holds(f, env)
    ensures Known(f) == No ==> !Holds(f, env)
    decreases |Flat(f)|
  {
    if Calls(f) {
      forall k | 0 <= k < |Arguments(f)|
        ensures Known(Arguments(f)[k]) == Yes ==> Holds(Arguments(f)[k], env)
        ensures Known(Arguments(f)[k]) == No ==> !Holds(Arguments(f)[k], env)
      {
        KnownSound(Arguments(f)[k], env);
      }
    }
  }

  // ------------------------------------------------------------------ reading what was written

  lemma {:induction false} ValuesEach(parts: seq<seq<Token>>, bound: nat)
    requires forall k :: 0 <= k < |parts| ==> |parts[k]| < bound
    ensures Values(parts, bound).Some? <==> forall k :: 0 <= k < |parts| ==> Value(parts[k]).Some?
    ensures Values(parts, bound).Some? ==>
      && |Values(parts, bound).value| == |parts|
      && forall k :: 0 <= k < |parts| ==> Value(parts[k]) == Some(Values(parts, bound).value[k])
    decreases |parts|
  {
    if parts != [] {
      ValuesEach(parts[1..], bound);
      assert forall k :: 1 <= k < |parts| ==> parts[k] == parts[1..][k - 1];
    }
  }

  lemma GoodArguments(f: Forest)
    requires Good(f) && Calls(f)
    ensures Good(f.tail.head.inner) && forall k :: 0 <= k < |Arguments(f)| ==> Good(Arguments(f)[k])
  {
    assert Good(f.tail) && GoodTree(f.tail.head);
    SegmentsGood(Nil, f.tail.head.inner);
  }

  /** The reading of a call is decided by the readings of its arguments. */
  lemma CallValue(f: Forest)
    requires Good(f) && Calls(f)
    ensures var args := Flats(Arguments(f));
      Value(Flat(f)) ==
        match Values(args, |Flat(f)|) case None => None case Some(vs) => Some(Combine(f.head.token.text, vs))
  {
    GoodArguments(f);
    var t, inner := f.head.token, f.tail.head.inner;
    var node := FlatTree(Node("(", inner));
    var ts := Flat(f);
    assert Flat(f.tail) == node + [];
    assert ts == [t] + node + [];
    GroupFinds([t], "(", inner, []);
    assert ts[1] == Token(Punct, "(");
    SplitIsParts(inner);
    SegmentsFlat(Nil, inner);
  }

  /** A forest spelled by a name and one bracketed group is that call. */
  lemma SpelledCall(f: Forest, inner: Forest)
    requires Good(f) && Good(inner) && |Flat(f)| >= 1 && Flat(f)[0].text in {"all", "any", "not"}
    requires Flat(f)[1..] == FlatTree(Node("(", inner))
    ensures Calls(f)
  {
    var g := Cons(Leaf(Flat(f)[0]), Cons(Node("(", inner), Nil));
    assert Flat(g) == [Flat(f)[0]] + (FlatTree(Node("(", inner)) + []);
    FlatUnique(f, g);
  }

  lemma OtherValue(f: Forest)
    requires Good(f) && !Calls(f) && f != Cons(Leaf(TEST), Nil) && Value(Flat(f)).Some?
    ensures Value(Flat(f)) == Some(Maybe)
  {
    var ts := Flat(f);
    if ts == [TEST] {
      assert Flat(Cons(Leaf(TEST), Nil)) == [TEST] + [];
      FlatUnique(f, Cons(Leaf(TEST), Nil));
    } else if Named(ts) && Group(ts, 1).value.1 == |ts| {
      var inner := GroupSound(ts, 1);
      assert ts[1..|ts|] == ts[1..];
      SpelledCall(f, inner);
    }
  }

  /** Reading any balanced tokens gives their three-valued truth with `test` off and the rest unknown. */
  lemma {:induction false} ReadsBack(f: Forest)
    requires Good(f) && Value(Flat(f)).Some?
    ensures Value(Flat(f)) == Some(Known(f))
    decreases |Flat(f)|
  {
    if f == Cons(Leaf(TEST), Nil) {
      assert Flat(f) == [TEST] + [];
    } else if !Calls(f) {
      OtherValue(f);
    } else {
      CallValue(f);
      var args := Arguments(f);
      ValuesEach(Flats(args), |Flat(f)|);
      GoodArguments(f);
      var vs := Values(Flats(args), |Flat(f)|).value;
      forall k | 0 <= k < |args| ensures vs[k] == Known(args[k]) {
        assert Flats(args)[k] == Flat(args[k]);
        ReadsBack(args[k]);
      }
      CombineKnown(f, vs);
    }
  }

  lemma CombineKnown(f: Forest, vs: seq<Tri>)
    requires Calls(f) && |vs| == |Arguments(f)| && forall k :: 0 <= k < |vs| ==> vs[k] == Known(Arguments(f)[k])
    ensures Combine(f.head.token.text, vs) == Known(f)
  {
    assert forall v :: v in vs <==> exists k :: 0 <= k < |Arguments(f)| && Known(Arguments(f)[k]) == v;
    assert Cons(Leaf(TEST), Nil) != f;
  }

  /** A name followed by something that only looks like a bracket, and by more. */
  predicate FalseCall(f: Forest) {
    && f.Cons? && f.head.Leaf? && f.head.token.text in {"all", "any", "not"}
    && f.tail.Cons? && f.tail.head.Leaf? && f.tail.head.token.text == "(" && f.tail.tail.Cons?
  }

  /** Such a name where a condition or an argument of a call starts. */
  ghost predicate Misleads(f: Forest)
    decreases |Flat(f)|
  {
    if Calls(f) then exists k :: 0 <= k < |Arguments(f)| && Misleads(Arguments(f)[k]) else FalseCall(f)
  }

  /** Balanced tokens are refused exactly when a string literal stands for the bracket of a call. */
  lemma {:induction false} Readable(f: Forest)
    requires Good(f)
    ensures Value(Flat(f)).Some? <==> !Misleads(f)
    decreases |Flat(f)|
  {
    if Calls(f) {
      CallValue(f);
      var args := Arguments(f);
      GoodArguments(f);
      forall k | 0 <= k < |args| ensures Value(Flats(args)[k]).Some? <==> !Misleads(args[k]) { Readable(args[k]); }
      ValuesEach(Flats(args), |Flat(f)|);
    } else if Named(Flat(f)) {
      NamedGroup(f);
    } else if FalseCall(f) {
      FalseCallNamed(f);
    }
  }

  lemma FalseCallNamed(f: Forest)
    requires FalseCall(f)
    ensures Named(Flat(f))
  {
    var g := f.tail;
    assert Flat(g) == [g.head.token] + Flat(g.tail);
    assert Flat(f) == [f.head.token] + Flat(g);
    FirstTree(g.tail);
  }

  /** A name followed by a bracket is followed by a whole group, though more may follow it. */
  lemma NamedGroup(f: Forest)
    requires Good(f) && Named(Flat(f)) && !Calls(f)
    ensures FalseCall(f) ==> Group(Flat(f), 1).None?
    ensures !FalseCall(f) ==> Group(Flat(f), 1).Some? && Group(Flat(f), 1).value.1 != |Flat(f)|
  {
    var ts := Flat(f);
    FirstTree(f);
    var g := f.tail;
    assert ts == [f.head.token] + Flat(g);
    FirstTree(g);
    assert ts[1] == Flat(g)[0];
    assert Good(g) && GoodTree(g.head);
    if g.head.Leaf? {
      assert Flat(g) == [g.head.token] + Flat(g.tail);
      assert g.tail.Cons?;
    } else {
      GroupFinds([f.head.token], "(", g.head.inner, Flat(g.tail));
      assert ts == [f.head.token] + FlatTree(g.head) + Flat(g.tail);
      assert g.tail.Cons? && Flat(g.tail) != [];
    }
  }

  /** Such tokens exist: balanced, and refused. */
  lemma LiteralBracket()
    ensures var f := Cons(Leaf(Token(Word, "all")), Cons(Leaf(Token(Str, "(")), Cons(Leaf(TEST), Nil)));
      Good(f) && Value(Flat(f)) == None
  {
    var f := Cons(Leaf(Token(Word, "all")), Cons(Leaf(Token(Str, "(")), Cons(Leaf(TEST), Nil)));
    assert Good(f.tail.tail) && Good(f.tail);
    Readable(f);
  }

  lemma DefiniteCall(ts: seq<Token>)
    requires (Value(ts) == Some(Yes) || Value(ts) == Some(No)) && ts != [TEST]
    ensures Named(ts) && Group(ts, 1).Some? && Group(ts, 1).value.1 == |ts|
  {
  }

  lemma CallBalanced(t: Token, inner: Forest)
    requires t.text in {"all", "any", "not"} && Good(inner)
    ensures var f := Cons(Leaf(t), Cons(Node("(", inner), Nil));
      Good(f) && Flat(f) == [t] + FlatTree(Node("(", inner))
  {
    assert Flat(Cons(Node("(", inner), Nil)) == FlatTree(Node("(", inner)) + [];
    assert GoodTree(Node("(", inner)) && Good(Nil);
    assert Good(Cons(Node("(", inner), Nil));
  }

  lemma WholeCall(ts: seq<Token>) returns (f: Forest)
    requires Named(ts) && Group(ts, 1).Some? && Group(ts, 1).value.1 == |ts|
    ensures Good(f) && Flat(f) == ts
  {
    var inner := GroupSound(ts, 1);
    assert ts == [ts[0]] + ts[1..|ts|];
    CallBalanced(ts[0], inner);
    f := Cons(Leaf(ts[0]), Cons(Node("(", inner), Nil));
  }

  lemma DefiniteBalanced(ts: seq<Token>) returns (f: Forest)
    requires Value(ts) == Some(Yes) || Value(ts) == Some(No)
    ensures Good(f) && Flat(f) == ts
  {
    if ts == [TEST] {
      f := Cons(Leaf(TEST), Nil);
      assert Flat(f) == [TEST] + [];
    } else {
      DefiniteCall(ts);
      f := WholeCall(ts);
    }
  }

  /**
   * Every definite reading, of whatever tokens, is right: the tokens are balanced and spell one forest,
   * which holds or fails as read under every configuration with `test` off. Nothing read as false can
   * be compiled in, nothing read as true can be left out.
   */
  lemma ConditionSound(ts: seq<Token>) returns (f: Forest)
    requires Value(ts) == Some(Yes) || Value(ts) == Some(No)
    ensures Good(f) && Flat(f) == ts && forall g :: Good(g) && Flat(g) == ts ==> g == f
    ensures forall env :: Holds(f, env) <==> Value(ts) == Some(Yes)
  {
    f := DefiniteBalanced(ts);
    forall g | Good(g) && Flat(g) == ts ensures g == f { FlatUnique(f, g); }
    ReadsBack(f);
    forall env ensures Holds(f, env) <==> Value(ts) == Some(Yes) { KnownSound(f, env); }
  }

  /** Tokens that spell no forest are refused if they start a call that is never closed, and undecided otherwise. */
  lemma Unbalanced(ts: seq<Token>)
    requires forall f :: Good(f) ==> Flat(f) != ts
    ensures Value(ts) ==
      if |ts| >= 3 && ts[0].text in {"all", "any", "not"} && ts[1].text == "(" && !GroupAt(ts, 1, "(") then None
      else Some(Maybe)
  {
    if Value(ts) == Some(Yes) || Value(ts) == Some(No) { var f := DefiniteBalanced(ts); }
    if Named(ts) {
      if Group(ts, 1).Some? { FoundAt(ts, 1); ShortGroup(ts); }
      if GroupAt(ts, 1, "(") { AtFound(ts, 1, "("); }
    }
  }

  lemma ShortGroup(ts: seq<Token>)
    requires Named(ts) && Group(ts, 1).Some? && forall f :: Good(f) ==> Flat(f) != ts
    ensures Group(ts, 1).value.1 != |ts|
  {
    if Group(ts, 1).value.1 == |ts| { var f := WholeCall(ts); }
  }
}
