/** The example adapter that correlates one logical request with verified scope evidence. */
module ScopeAdapter {
  import opened Wrappers
  import opened Order
  import opened ScopeTypes
  import opened ScopeForest
  import opened ScopeConsistency
  import opened ScopeEvidence

  ghost predicate RevokedAbove(scopes: Scopes, id: string)
    requires Forest(scopes)
  {
    exists a :: Above(scopes, a, id) && scopes[a].revokedAt.Some?
  }

  lemma RevokedStep(scopes: Scopes, id: string)
    requires Forest(scopes) && id in scopes
    ensures RevokedAbove(scopes, id) <==>
      scopes[id].revokedAt.Some?
        || (scopes[id].grant.parentId.Some? && RevokedAbove(scopes, scopes[id].grant.parentId.value))
  {
    AboveSelf(scopes, id);
    if scopes[id].grant.parentId.Some? { LineParent(scopes, id); }
  }

  /**
   * The climb ends on every verified ledger. It reports a revocation exactly when some scope of the
   * ledger's own ancestry is revoked, and then no call under that scope is admitted at any time.
   */
  method HistoricalRevocation(c: Contracts, l: Ledger, id: string) returns (revoked: Option<bool>)
    requires Lawful(c) && Consistent(c, l)
    ensures revoked.None? <==> id !in l.scopes
    ensures revoked.Some? ==> (revoked.value <==> RevokedAbove(l.scopes, id))
    ensures revoked == Some(true) ==> forall now :: ActiveChain(c, l.scopes, id, now) == Err(Inactive)
  {
    if id !in l.scopes { return None; }
    var flag := false;
    var current := Some(id);
    while current.Some? && current.value in l.scopes
      invariant current.Some? ==> current.value in l.scopes
      invariant RevokedAbove(l.scopes, id) <==> flag || (current.Some? && RevokedAbove(l.scopes, current.value))
      decreases if current.Some? then 1 + MAX_DEPTH - l.scopes[current.value].grant.delegationsRemaining else 0
    {
      RevokedStep(l.scopes, current.value);
      flag := flag || l.scopes[current.value].revokedAt.Some?;
      current := l.scopes[current.value].grant.parentId;
    }
    revoked := Some(flag);
    if flag {
      forall now ensures ActiveChain(c, l.scopes, id, now) == Err(Inactive) { RevokedInactive(c, l.scopes, id, now); }
    }
  }

  lemma RevokedInactive(c: Contracts, scopes: Scopes, id: string, now: int)
    requires Lawful(c) && SoundScopes(c, scopes) && Forest(scopes) && id in scopes && RevokedAbove(scopes, id)
    ensures ActiveChain(c, scopes, id, now) == Err(Inactive)
  {
    ActiveIsLine(c, scopes, id, now);
    var a :| Above(scopes, a, id) && scopes[a].revokedAt.Some?;
    assert !Active(scopes[a], now);
  }

  predicate Matches(a: PreparedAction, scope: string, subject: string, request: string) {
    a.requestId == request && a.scopeId == scope && a.subject == subject
  }

  /** The matching rows, and the strictly rising positions they come from. */
  method Matching(rows: seq<ActionRecord>, scope: string, subject: string, request: string)
    returns (selected: seq<ActionRecord>, ghost at: seq<nat>)
    ensures |at| == |selected|
    ensures forall k :: 0 <= k < |at| ==> at[k] < |rows| && selected[k] == rows[at[k]]
    ensures forall k :: 0 < k < |at| ==> at[k - 1] < at[k]
    ensures forall k :: 0 <= k < |selected| ==> Matches(selected[k].action, scope, subject, request)
    ensures forall k :: 0 <= k < |rows| && Matches(rows[k].action, scope, subject, request) ==> rows[k] in selected
  {
    selected, at := [], [];
    for i := 0 to |rows|
      invariant |at| == |selected|
      invariant forall k :: 0 <= k < |at| ==> at[k] < i && selected[k] == rows[at[k]]
      invariant forall k :: 0 < k < |at| ==> at[k - 1] < at[k]
      invariant forall k :: 0 <= k < |selected| ==> Matches(selected[k].action, scope, subject, request)
      invariant forall k :: 0 <= k < i && Matches(rows[k].action, scope, subject, request) ==> rows[k] in selected
    {
      if Matches(rows[i].action, scope, subject, request) {
        selected, at := selected + [rows[i]], at + [i];
      }
    }
  }

  /** One logical request selects at most one retained action: the ambiguity error never arises. */
  method SelectAction(e: Evidence, scope: string, subject: string, request: string)
    returns (r: Result<Option<ActionRecord>, ()>)
    requires Listed(e) && Keyed(AsLedger(e))
    ensures r.Ok?
    ensures r.value.Some? ==> r.value.value in e.actions && Matches(r.value.value.action, scope, subject, request)
    ensures r.value.None? ==> forall a :: a in e.actions ==> !Matches(a.action, scope, subject, request)
  {
    var selected, at := Matching(e.actions, scope, subject, request);
    if |selected| > 1 {
      OneMatch(e, at[0], at[1]);
      assert false;
    }
    return Ok(if selected == [] then None else Some(selected[0]));
  }

  lemma OneMatch(e: Evidence, i: nat, j: nat)
    requires Listed(e) && Keyed(AsLedger(e)) && i < j < |e.actions|
    ensures !SameRequest(e.actions[i].action, e.actions[j].action)
  {
    TableHolds(ActionKey, e.actions, i);
    TableHolds(ActionKey, e.actions, j);
    RisingByFar(ActionKey, e.actions, i, j);
  }
}
