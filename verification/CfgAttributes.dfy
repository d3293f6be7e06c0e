/** Conditional attributes: which `cfg` and `path` attributes are in force on a source item. */
module CfgAttributes {
  import opened Wrappers
  import opened TokenTrees
  import opened CfgConditions

  type Tokens = seq<Token>

  function Total(attrs: seq<Tokens>): nat {
    if attrs == [] then 0 else |attrs[0]| + 1 + Total(attrs[1..])
  }

  lemma {:induction false} SplitTotal(ts: Tokens, start: nat, i: nat)
    requires start <= i <= |ts| && SplitFrom(ts, start, i).Some?
    ensures Total(SplitFrom(ts, start, i).value) <= |ts| - start + 1
    decreases |ts| - i
  {
    if i < |ts| {
      if Opens(ts[i]) {
        SplitTotal(ts, start, Group(ts, i).value.1);
      } else if ts[i] == COMMA {
        SplitTotal(ts, i + 1, i + 1);
        assert ([ts[start..i]] + SplitFrom(ts, i + 1, i + 1).value)[1..] == SplitFrom(ts, i + 1, i + 1).value;
      } else {
        SplitTotal(ts, start, i + 1);
      }
    }
  }

  predicate Headed(attr: Tokens, names: set<string>) {
    attr != [] && attr[0].text in names
  }

  predicate Guarded(attrs: seq<Tokens>) {
    exists k :: 0 <= k < |attrs| && Headed(attrs[k], {"cfg", "path", "cfg_attr"})
  }

  /** `None` is a malformed attribute, or an undecided one that could change the source scope. */
  function Effective(attrs: seq<Tokens>): Option<seq<Tokens>>
    decreases Total(attrs), 0
  {
    if attrs == [] then Some([])
    else Both(EffectiveOne(attrs[0]), Effective(attrs[1..]))
  }

  function EffectiveOne(attr: Tokens): Option<seq<Tokens>>
    decreases |attr|, 1
  {
    if !Headed(attr, {"cfg_attr"}) then Some([attr])
    else
      match Group(attr, 1)
      case None => None
      case Some(g) =>
        match Split(g.0)
        case None => None
        case Some(parts) =>
          if |parts| < 2 then None
          else
            match Value(parts[0])
            case None => None
            case Some(No) => Some([])
            case Some(Maybe) => if Guarded(parts[1..]) then None else Some([])
            case Some(Yes) =>
              SplitTotal(g.0, 0, 0);
              Effective(parts[1..])
  }

  function Both(a: Option<seq<Tokens>>, b: Option<seq<Tokens>>): Option<seq<Tokens>> {
    if a.None? || b.None? then None else Some(a.value + b.value)
  }

  method ExpandAttribute(attr: Tokens) returns (r: Option<seq<Tokens>>)
    ensures r == EffectiveOne(attr)
    decreases |attr|, 1
  {
    if !Headed(attr, {"cfg_attr"}) { return Some([attr]); }
    var g := FindGroup(attr, 1);
    if g.None? { return None; }
    var parts := SplitParts(g.value.0);
    if parts.None? || |parts.value| < 2 { return None; }
    var condition := ReadCondition(parts.value[0]);
    if condition.None? { return None; }
    match condition.value {
      case Yes =>
        SplitTotal(g.value.0, 0, 0);
        r := EffectiveAttributes(parts.value[1..]);
      case Maybe => r := if Guarded(parts.value[1..]) then None else Some([]);
      case No => r := Some([]);
    }
  }

  method EffectiveAttributes(attrs: seq<Tokens>) returns (r: Option<seq<Tokens>>)
    ensures r == Effective(attrs)
    decreases Total(attrs), 0
  {
    var result: seq<Tokens> := [];
    assert attrs[0..] == attrs;
    BothNothing(Effective(attrs));
    for i := 0 to |attrs|
      invariant Effective(attrs) == Both(Some(result), Effective(attrs[i..]))
    {
      assert attrs[i..][1..] == attrs[i + 1..];
      TotalHolds(attrs, i);
      var more := ExpandAttribute(attrs[i]);
      if more.None? { return None; }
      BothMore(result, more.value, Effective(attrs[i + 1..]));
      result := result + more.value;
    }
    assert result + [] == result;
    return Some(result);
  }

  lemma BothNothing(a: Option<seq<Tokens>>)
    ensures Both(Some([]), a) == a
  {
    if a.Some? { assert [] + a.value == a.value; }
  }

  lemma BothMore(a: seq<Tokens>, b: seq<Tokens>, rest: Option<seq<Tokens>>)
    ensures Both(Some(a), Both(Some(b), rest)) == Both(Some(a + b), rest)
  {
    if rest.Some? { assert a + (b + rest.value) == (a + b) + rest.value; }
  }

  lemma {:induction false} TotalHolds(attrs: seq<Tokens>, i: nat)
    requires i < |attrs|
    ensures |attrs[i]| < Total(attrs)
  {
    if i > 0 {
      TotalHolds(attrs[1..], i - 1);
      assert attrs[1..][i - 1] == attrs[i];
    }
  }

  // ------------------------------------------------------------------ meaning

  /** `cfg_attr` and a bracketed group, with at least a condition and one attribute in it. */
  predicate Conditional(f: Forest) {
    && f.Cons? && f.head.Leaf? && f.head.token.text == "cfg_attr"
    && f.tail.Cons? && f.tail.head.Node? && |Segments(Nil, f.tail.head.inner)| >= 2
  }

  lemma {:induction false} SegmentsTotal(current: Forest, f: Forest)
    ensures Total(Flats(Segments(current, f))) <= |Flat(current)| + |Flat(f)| + 1
    decreases f
  {
    match f
    case Nil => if current.Cons? { assert Flats([current])[1..] == []; }
    case Cons(t, rest) =>
      if t == Leaf(COMMA) {
        SegmentsTotal(Nil, rest);
        assert Flats(Segments(current, f))[1..] == Flats(Segments(Nil, rest));
      } else {
        FlatAppend(current, Cons(t, Nil));
        assert FlatTree(t) + [] == FlatTree(t);
        SegmentsTotal(Append(current, Cons(t, Nil)), rest);
      }
  }

  /** The condition of a `cfg_attr`, and the attributes it guards. */
  function Condition(f: Forest): Forest
    requires Conditional(f)
  {
    Segments(Nil, f.tail.head.inner)[0]
  }

  function Guards(f: Forest): (fs: seq<Forest>)
    requires Conditional(f)
    ensures Total(Flats(fs)) < |Flat(f)|
  {
    var inner := f.tail.head.inner;
    SegmentsTotal(Nil, inner);
    assert Flat(f) == [f.head.token] + (FlatTree(f.tail.head) + Flat(f.tail.tail));
    assert Flats(Segments(Nil, inner))[1..] == Flats(Segments(Nil, inner)[1..]);
    Segments(Nil, inner)[1..]
  }

  /** The attributes in force under one configuration with `test` off. */
  ghost function Expand(attrs: seq<Forest>, env: Tokens -> bool): seq<Tokens>
    decreases Total(Flats(attrs)), 0
  {
    if attrs == [] then []
    else
      assert Flats(attrs)[1..] == Flats(attrs[1..]);
      ExpandOne(attrs[0], env) + Expand(attrs[1..], env)
  }

  ghost function ExpandOne(f: Forest, env: Tokens -> bool): seq<Tokens>
    decreases |Flat(f)|, 1
  {
    if !Conditional(f) then [Flat(f)] else if Holds(Condition(f), env) then Expand(Guards(f), env) else []
  }

  /** The attributes that decide what source is compiled. */
  function Scoped(attrs: seq<Tokens>): seq<Tokens> {
    if attrs == [] then [] else (if Headed(attrs[0], {"cfg", "path"}) then [attrs[0]] else []) + Scoped(attrs[1..])
  }

  lemma {:induction false} ScopedConcat(a: seq<Tokens>, b: seq<Tokens>)
    ensures Scoped(a + b) == Scoped(a) + Scoped(b)
  {
    if a == [] {
      assert a + b == b;
    } else {
      assert (a + b)[1..] == a[1..] + b;
      ScopedConcat(a[1..], b);
    }
  }

  // ------------------------------------------------------------------ reading what was written

  ghost predicate AllGood(fs: seq<Forest>) {
    forall k :: 0 <= k < |fs| ==> Good(fs[k])
  }

  lemma GroupOf(f: Forest)
    requires Good(f) && f.Cons? && f.head.Leaf?
    ensures Group(Flat(f), 1).Some? <==> f.tail.Cons? && f.tail.head.Node?
    ensures Group(Flat(f), 1).Some? ==> Good(f.tail.head.inner) && Group(Flat(f), 1).value.0 == Flat(f.tail.head.inner)
  {
    var g := f.tail;
    assert Flat(f) == [f.head.token] + Flat(g) && Good(g);
    if g.Cons? {
      FirstTree(g);
      assert Flat(f)[1] == Flat(g)[0] && GoodTree(g.head);
      if g.head.Node? {
        GroupFinds([f.head.token], g.head.open, g.head.inner, Flat(g.tail));
        assert Flat(f) == [f.head.token] + FlatTree(g.head) + Flat(g.tail);
      }
    }
  }

  ghost predicate Heads(f: Forest, names: set<string>) {
    f.Cons? && f.head.Leaf? && f.head.token.text in names
  }

  lemma HeadsExact(f: Forest, names: set<string>)
    requires Good(f) && names <= {"cfg", "path", "cfg_attr"}
    ensures Headed(Flat(f), names) <==> Heads(f, names)
  {
    if f.Cons? { FirstTree(f); }
  }

  /** A balanced attribute that is no `cfg_attr` is kept; one without a condition and an attribute is refused. */
  lemma PlainForm(f: Forest)
    requires Good(f) && !Conditional(f)
    ensures EffectiveOne(Flat(f)) == if Heads(f, {"cfg_attr"}) then None else Some([Flat(f)])
  {
    HeadsExact(f, {"cfg_attr"});
    if Heads(f, {"cfg_attr"}) {
      GroupOf(f);
      if f.tail.Cons? && f.tail.head.Node? {
        SplitIsParts(f.tail.head.inner);
        SegmentsFlat(Nil, f.tail.head.inner);
      }
    }
  }

  /** A `cfg_attr` is decided by its condition: expanded, dropped, or refused for what it guards. */
  lemma ConditionalForm(f: Forest)
    requires Good(f) && Conditional(f)
    ensures Good(Condition(f)) && AllGood(Guards(f))
    ensures EffectiveOne(Flat(f)) ==
      match Value(Flat(Condition(f)))
      case None => None
      case Some(No) => Some([])
      case Some(Maybe) => if Guarded(Flats(Guards(f))) then None else Some([])
      case Some(Yes) => Effective(Flats(Guards(f)))
  {
    HeadsExact(f, {"cfg_attr"});
    GroupOf(f);
    var inner := f.tail.head.inner;
    SplitIsParts(inner);
    SegmentsFlat(Nil, inner);
    SegmentsGood(Nil, inner);
    assert Flats(Segments(Nil, inner))[1..] == Flats(Segments(Nil, inner)[1..]);
  }

  /** Attributes none of which can matter to the source scope, under any configuration. */
  lemma {:induction false} UnguardedExpand(fs: seq<Forest>, env: Tokens -> bool)
    requires !Guarded(Flats(fs))
    ensures Scoped(Expand(fs, env)) == []
    decreases |fs|
  {
    if fs != [] {
      var f := fs[0];
      assert Flats(fs)[0] == Flat(f) && !Headed(Flats(fs)[0], {"cfg", "path", "cfg_attr"});
      if f.Cons? { FirstTree(f); }
      assert ExpandOne(f, env) == [Flat(f)] && Scoped([Flat(f)]) == [];
      assert Flats(fs)[1..] == Flats(fs[1..]);
      UnguardedExpand(fs[1..], env);
      ScopedConcat(ExpandOne(f, env), Expand(fs[1..], env));
    }
  }

  lemma {:induction false} OneAgrees(f: Forest, env: Tokens -> bool)
    requires Good(f) && EffectiveOne(Flat(f)).Some?
    ensures Scoped(EffectiveOne(Flat(f)).value) == Scoped(ExpandOne(f, env))
    decreases |Flat(f)|, 1
  {
    if Conditional(f) {
      ConditionalForm(f);
      ReadsBack(Condition(f));
      KnownSound(Condition(f), env);
      match Value(Flat(Condition(f))).value
      case Yes => AttributesAgree(Guards(f), env);
      case Maybe => UnguardedExpand(Guards(f), env);
      case No =>
    } else {
      PlainForm(f);
    }
  }

  /**
   * Whenever the reader does not give up on balanced attributes, the `cfg` and `path` attributes it keeps
   * are exactly those in force, in the same order, under every configuration with `test` off.
   */
  lemma {:induction false} AttributesAgree(fs: seq<Forest>, env: Tokens -> bool)
    requires AllGood(fs) && Effective(Flats(fs)).Some?
    ensures Scoped(Effective(Flats(fs)).value) == Scoped(Expand(fs, env))
    decreases Total(Flats(fs)), 0
  {
    if fs != [] {
      assert Flats(fs)[0] == Flat(fs[0]) && Flats(fs)[1..] == Flats(fs[1..]);
      OneAgrees(fs[0], env);
      AttributesAgree(fs[1..], env);
      ScopedConcat(ExpandOne(fs[0], env), Expand(fs[1..], env));
      ScopedConcat(EffectiveOne(Flat(fs[0])).value, Effective(Flats(fs[1..])).value);
    }
  }

  // ------------------------------------------------------------------ when the reader gives up

  ghost predicate GuardsScope(fs: seq<Forest>) {
    exists k :: 0 <= k < |fs| && Heads(fs[k], {"cfg", "path", "cfg_attr"})
  }

  /**
   * A `cfg_attr` without a condition and an attribute, with an unreadable condition, with an undecided
   * one that guards the source scope, or with a true one that guards such an attribute.
   */
  ghost predicate GivesUp(f: Forest)
    decreases |Flat(f)|
  {
    && Heads(f, {"cfg_attr"})
    && (|| !Conditional(f)
        || Misleads(Condition(f))
        || (Known(Condition(f)) == Maybe && GuardsScope(Guards(f)))
        || (Known(Condition(f)) == Yes
            && exists k :: 0 <= k < |Guards(f)| && GuardShorter(f, k) && GivesUp(Guards(f)[k])))
  }

  /** A guarded attribute is shorter than the `cfg_attr` around it. */
  ghost predicate GuardShorter(f: Forest, k: nat)
    requires Conditional(f) && k < |Guards(f)|
    ensures GuardShorter(f, k)
  {
    TotalHolds(Flats(Guards(f)), k);
    |Flat(Guards(f)[k])| < |Flat(f)|
  }

  lemma GuardedExact(fs: seq<Forest>)
    requires AllGood(fs)
    ensures Guarded(Flats(fs)) <==> GuardsScope(fs)
  {
    forall k | 0 <= k < |fs|
      ensures Headed(Flats(fs)[k], {"cfg", "path", "cfg_attr"}) <==> Heads(fs[k], {"cfg", "path", "cfg_attr"})
    {
      HeadsExact(fs[k], {"cfg", "path", "cfg_attr"});
    }
  }

  lemma {:induction false} OneGivesUp(f: Forest)
    requires Good(f)
    ensures EffectiveOne(Flat(f)).None? <==> GivesUp(f)
    decreases |Flat(f)|, 1
  {
    if !Conditional(f) {
      PlainForm(f);
    } else {
      ConditionalForm(f);
      Readable(Condition(f));
      if Value(Flat(Condition(f))).Some? {
        ReadsBack(Condition(f));
        GuardedExact(Guards(f));
        ReaderGivesUp(Guards(f));
        assert forall k :: 0 <= k < |Guards(f)| ==> GuardShorter(f, k);
      }
    }
  }

  /** Exactly when the reader gives up on balanced attributes. */
  lemma {:induction false} ReaderGivesUp(fs: seq<Forest>)
    requires AllGood(fs)
    ensures Effective(Flats(fs)).None? <==> exists k :: 0 <= k < |fs| && GivesUp(fs[k])
    decreases Total(Flats(fs)), 0
  {
    if fs != [] {
      assert Flats(fs)[0] == Flat(fs[0]) && Flats(fs)[1..] == Flats(fs[1..]);
      OneGivesUp(fs[0]);
      ReaderGivesUp(fs[1..]);
      assert forall k :: 1 <= k < |fs| ==> fs[k] == fs[1..][k - 1];
    }
  }

  /** The attributes known to be in force, in order; an undecided `cfg_attr` contributes nothing. */
  ghost function Sure(fs: seq<Forest>): seq<Tokens>
    decreases Total(Flats(fs)), 0
  {
    if fs == [] then []
    else
      assert Flats(fs)[1..] == Flats(fs[1..]);
      SureOne(fs[0]) + Sure(fs[1..])
  }

  ghost function SureOne(f: Forest): seq<Tokens>
    decreases |Flat(f)|, 1
  {
    if !Conditional(f) then [Flat(f)] else if Known(Condition(f)) == Yes then Sure(Guards(f)) else []
  }

  lemma {:induction false} OneKept(f: Forest)
    requires Good(f) && EffectiveOne(Flat(f)).Some?
    ensures EffectiveOne(Flat(f)).value == SureOne(f)
    decreases |Flat(f)|, 1
  {
    if !Conditional(f) {
      PlainForm(f);
    } else {
      ConditionalForm(f);
      ReadsBack(Condition(f));
      if Known(Condition(f)) == Yes { ReaderKeeps(Guards(f)); }
    }
  }

  /** Where the reader does not give up, it keeps exactly the attributes known to be in force. */
  lemma {:induction false} ReaderKeeps(fs: seq<Forest>)
    requires AllGood(fs) && Effective(Flats(fs)).Some?
    ensures Effective(Flats(fs)).value == Sure(fs)
    decreases Total(Flats(fs)), 0
  {
    if fs != [] {
      assert Flats(fs)[0] == Flat(fs[0]) && Flats(fs)[1..] == Flats(fs[1..]);
      OneKept(fs[0]);
      ReaderKeeps(fs[1..]);
    }
  }

  /** Without a group after its name a `cfg_attr` is refused, whatever its tokens; anything else is kept. */
  lemma NoGroup(attr: Tokens)
    requires attr == [] || attr[0].text != "cfg_attr" || forall open :: !GroupAt(attr, 1, open)
    ensures EffectiveOne(attr) == if attr != [] && attr[0].text == "cfg_attr" then None else Some([attr])
  {
    if Group(attr, 1).Some? { FoundAt(attr, 1); }
  }

  /** The name and the group after it are all the reader looks at. */
  lemma GroupDecides(t: Token, open: string, inner: Forest, rest: Tokens)
    requires t.text == "cfg_attr" && Good(inner) && Closer(open).Some?
    ensures EffectiveOne([t] + FlatTree(Node(open, inner)) + rest) ==
      EffectiveOne([t] + FlatTree(Node(open, inner)) + [])
  {
    GroupFinds([t], open, inner, rest);
    GroupFinds([t], open, inner, []);
  }
}
