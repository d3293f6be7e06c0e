/** Conservation of charges: a scope pays for its own attempts and for everything below it, once each. */
module ScopeAccounting {
  import opened Wrappers
  import opened ScopeTypes
  import opened ScopeForest
  import opened ScopeConsistency
  import opened ScopeLedger
  import opened ScopeTheorems

  ghost function Direct(l: Ledger, s: string): set<string> {
    set a | a in l.actions && l.actions[a].action.scopeId == s
  }

  ghost function Children(scopes: Scopes, s: string): set<string> {
    set k | k in scopes && scopes[k].grant.parentId == Some(s)
  }

  ghost function Pick(ks: set<string>): (k: string)
    requires ks != {}
    ensures k in ks
  {
    var k :| k in ks; k
  }

  /** The sum of the attempts charged to a set of scopes. */
  ghost function Total(scopes: Scopes, ks: set<string>): nat
    requires ks <= scopes.Keys
    decreases |ks|
  {
    if ks == {} then 0 else scopes[Pick(ks)].chargedAttempts + Total(scopes, ks - {Pick(ks)})
  }

  ghost function UnderAny(l: Ledger, ks: set<string>): set<string>
    requires Forest(l.scopes)
  {
    set a | a in l.actions && exists k :: k in ks && Above(l.scopes, k, l.actions[a].action.scopeId)
  }

  /** Of two scopes on one line, one is above the other. */
  lemma {:induction false} LineLinear(scopes: Scopes, a: string, b: string, id: string)
    requires Forest(scopes) && Above(scopes, a, id) && Above(scopes, b, id)
    ensures Above(scopes, a, b) || Above(scopes, b, a)
    decreases |Line(scopes, id)|
  {
    if a != id && b != id {
      LineParent(scopes, id);
      LineLinear(scopes, a, b, scopes[id].grant.parentId.value);
    }
  }

  /** Siblings share no descendants. */
  lemma SiblingsApart(scopes: Scopes, s: string, a: string, b: string, id: string)
    requires Forest(scopes) && a in Children(scopes, s) && b in Children(scopes, s)
    requires Above(scopes, a, id) && Above(scopes, b, id)
    ensures a == b
  {
    LineLinear(scopes, a, b, id);
    if a != b {
      var (top, low) := if Above(scopes, a, b) then (a, b) else (b, a);
      LineParent(scopes, low);
      AboveDelegations(scopes, top, s);
    }
  }

  /** The step from a scope toward a descendant goes through exactly one child. */
  lemma {:induction false} ChildToward(scopes: Scopes, s: string, id: string) returns (k: string)
    requires Forest(scopes) && Above(scopes, s, id) && s != id
    ensures k in Children(scopes, s) && Above(scopes, k, id)
    decreases |Line(scopes, id)|
  {
    LineParent(scopes, id);
    var p := scopes[id].grant.parentId.value;
    if p == s {
      k := id;
      AboveSelf(scopes, id);
    } else {
      k := ChildToward(scopes, s, p);
    }
  }

  lemma UnderSplits(l: Ledger, s: string)
    requires Forest(l.scopes) && s in l.scopes
    requires forall a :: a in l.actions ==> l.actions[a].action.scopeId in l.scopes
    ensures Under(l, s) == Direct(l, s) + UnderAny(l, Children(l.scopes, s))
    ensures Direct(l, s) !! UnderAny(l, Children(l.scopes, s))
  {
    var kids := Children(l.scopes, s);
    forall a | a in l.actions
      ensures a in Under(l, s) <==> a in Direct(l, s) || a in UnderAny(l, kids)
      ensures !(a in Direct(l, s) && a in UnderAny(l, kids))
    {
      var at := l.actions[a].action.scopeId;
      AboveSelf(l.scopes, at);
      if a in Under(l, s) && at != s {
        var k := ChildToward(l.scopes, s, at);
      }
      if a in UnderAny(l, kids) {
        var k :| k in kids && Above(l.scopes, k, at);
        LineParent(l.scopes, k);
        AboveSelf(l.scopes, s);
        AboveTransitive(l.scopes, s, k, at);
        AboveDelegations(l.scopes, k, at);
      }
    }
  }

  lemma ChildApart(l: Ledger, s: string, k: string, rest: set<string>)
    requires Forest(l.scopes) && k in Children(l.scopes, s) && rest <= Children(l.scopes, s) && k !in rest
    ensures Under(l, k) !! UnderAny(l, rest)
    ensures UnderAny(l, rest + {k}) == Under(l, k) + UnderAny(l, rest)
  {
    forall a | a in Under(l, k) ensures a !in UnderAny(l, rest) {
      if a in UnderAny(l, rest) {
        var other :| other in rest && Above(l.scopes, other, l.actions[a].action.scopeId);
        SiblingsApart(l.scopes, s, k, other, l.actions[a].action.scopeId);
      }
    }
  }

  /** Charges below disjoint children add up. */
  lemma {:induction false} TotalCounts(l: Ledger, s: string, ks: set<string>)
    requires Forest(l.scopes) && Charges(l) && ks <= Children(l.scopes, s)
    ensures |UnderAny(l, ks)| == Total(l.scopes, ks)
    decreases |ks|
  {
    if ks == {} {
      assert UnderAny(l, ks) == {};
    } else {
      var k := Pick(ks);
      var rest := ks - {k};
      TotalCounts(l, s, rest);
      assert Charged(l, k);
      ChildApart(l, s, k, rest);
      assert rest + {k} == ks;
    }
  }

  /** A scope's charge is its own attempts plus the sum of its children's charges. */
  lemma ChargesAddUp(c: Contracts, l: Ledger, s: string)
    requires Consistent(c, l) && s in l.scopes
    ensures l.scopes[s].chargedAttempts == |Direct(l, s)| + Total(l.scopes, Children(l.scopes, s))
  {
    forall a | a in l.actions ensures l.actions[a].action.scopeId in l.scopes { assert ActionRow(c, l, a); }
    assert Charged(l, s);
    UnderSplits(l, s);
    TotalCounts(l, s, Children(l.scopes, s));
  }

  /**
   * Conservation in every reachable ledger: each scope has been charged exactly for the attempts and
   * resources of its subtree, within its limits, and charges add up from children to parents.
   */
  lemma Conservation(c: Contracts, owner: AuthorityOwner, steps: seq<Step>, s: string)
    requires Lawful(c) && c.ownerOk(owner) && s in Run(c, Fresh(owner), steps).scopes
    ensures var l := Run(c, Fresh(owner), steps);
      var r := l.scopes[s];
      && Forest(l.scopes)
      && r.chargedAttempts == |Under(l, s)| <= r.grant.maxChargedAttempts
      && r.chargedResources == Touched(l, s) && |r.chargedResources| <= r.grant.maxDistinctResources
      && r.chargedAttempts == |Direct(l, s)| + Total(l.scopes, Children(l.scopes, s))
  {
    var l := Run(c, Fresh(owner), steps);
    ReachableConsistent(c, owner, steps, 0);
    assert Charged(l, s) && ScopeRow(l, s);
    ChargesAddUp(c, l, s);
  }

  lemma Acyclic(scopes: Scopes, a: string, s: string)
    requires Forest(scopes) && Above(scopes, a, s) && Above(scopes, s, a)
    ensures a == s
  {
    AboveDelegations(scopes, a, s);
    AboveDelegations(scopes, s, a);
  }

  lemma AncestryShape(c: Contracts, l: Ledger, s: string)
    requires Lawful(c) && Tables(c, l) && s in l.scopes
    ensures Chain(c, l.scopes, s) == Ok(Rows(l.scopes, Line(l.scopes, s)))
    ensures |Line(l.scopes, s)| <= MAX_DEPTH + 1
    ensures forall a :: Above(l.scopes, a, s) ==> l.scopes[a].issuedAt <= l.scopes[s].issuedAt
    ensures forall a :: Above(l.scopes, a, s) && Above(l.scopes, s, a) ==> a == s
  {
    ChainIsLine(c, l.scopes, s);
    assert ScopeRow(l, s);
    forall a | Above(l.scopes, a, s) && Above(l.scopes, s, a) ensures a == s { Acyclic(l.scopes, a, s); }
  }

  /** Event `i` of the log issued scope `s`. */
  ghost predicate IssuedBy(l: Ledger, i: nat, s: string) {
    i < |l.events| && Subject(l.events[i]) == s && l.events[i].kind == ScopeIssued
  }

  lemma IssuedInOrder(l: Ledger, a: string, s: string, i: nat, j: nat)
    requires Forest(l.scopes) && History(l) && Above(l.scopes, a, s) && a != s && IssuedBy(l, i, a) && IssuedBy(l, j, s)
    ensures i < j
  {
    assert EventRow(l, j) && EventRow(l, i);
    var k :| 0 <= k < j + 1 && Subject(l.events[k]) == a && l.events[k].kind == ScopeIssued;
    assert EventRow(l, k);
  }

  /** The log issues every ancestor of a scope, and strictly before the scope. */
  lemma IssuedAbove(l: Ledger, s: string)
    requires Forest(l.scopes) && History(l) && s in l.scopes
    ensures forall a :: Above(l.scopes, a, s) ==> exists i :: IssuedBy(l, i, a)
    ensures forall a, i, j :: Above(l.scopes, a, s) && a != s && IssuedBy(l, i, a) && IssuedBy(l, j, s) ==> i < j
  {
    forall a | Above(l.scopes, a, s) ensures exists i :: IssuedBy(l, i, a) {
      assert ScopeRecorded(l, a);
      var i :| 0 <= i < |l.events| && Subject(l.events[i]) == a && l.events[i].kind == ScopeIssued;
      assert IssuedBy(l, i, a);
    }
    forall a, i, j | Above(l.scopes, a, s) && a != s && IssuedBy(l, i, a) && IssuedBy(l, j, s) ensures i < j {
      IssuedInOrder(l, a, s, i, j);
    }
  }

  /**
   * Every reachable ancestry is short and acyclic, so the walk's own guards never fire, and the log
   * issued every ancestor strictly before the scope.
   */
  lemma AncestryBounded(c: Contracts, owner: AuthorityOwner, steps: seq<Step>, s: string)
    requires Lawful(c) && c.ownerOk(owner) && s in Run(c, Fresh(owner), steps).scopes
    ensures var l := Run(c, Fresh(owner), steps);
      && Forest(l.scopes)
      && Chain(c, l.scopes, s) == Ok(Rows(l.scopes, Line(l.scopes, s)))
      && |Line(l.scopes, s)| <= MAX_DEPTH + 1
      && (forall a :: Above(l.scopes, a, s) ==> l.scopes[a].issuedAt <= l.scopes[s].issuedAt)
      && (forall a :: Above(l.scopes, a, s) && Above(l.scopes, s, a) ==> a == s)
      && (forall a :: Above(l.scopes, a, s) ==> exists i :: IssuedBy(l, i, a))
      && (forall a, i, j :: Above(l.scopes, a, s) && a != s && IssuedBy(l, i, a) && IssuedBy(l, j, s) ==> i < j)
  {
    ReachableConsistent(c, owner, steps, 0);
    IssuedAbove(Run(c, Fresh(owner), steps), s);
    AncestryShape(c, Run(c, Fresh(owner), steps), s);
  }
}
