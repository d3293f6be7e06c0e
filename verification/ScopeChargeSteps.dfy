/** Reserving an attempt charges a whole line at once and keeps the ledger consistent. */
module ScopeChargeSteps {
  import opened Wrappers
  import opened ScopeTypes
  import opened ScopeForest
  import opened ScopeConsistency
  import opened ScopeEvolution
  import opened ScopeLedger
  import opened ScopeSteps

  /** What the checks of `reserve` have established when the charges are written. */
  ghost predicate Reservable(c: Contracts, a: Ledger, p: PreparedAction, e: AdmissionEvidence)
    requires Forest(a.scopes)
  {
    && p.actionId !in a.actions
    && (forall x :: x in a.actions ==> !SameRequest(a.actions[x].action, p))
    && c.canonAction(p) == Ok(p)
    && p.owner == a.owner
    && p.scopeId in a.scopes
    && c.admits(e, a.scopes[p.scopeId].grant, p, a.lastSeen).None?
    && (forall x :: Above(a.scopes, x, p.scopeId) ==>
        Active(a.scopes[x], a.lastSeen) && HasRoom(a.scopes[x], p.resource))
  }

  ghost function ChargedLine(scopes: Scopes, scope: string, resource: string): Scopes
    requires Forest(scopes) && scope in scopes
  {
    map id | id in scopes :: if Above(scopes, id, scope) then Charge(scopes[id], resource) else scopes[id]
  }

  ghost function Booked(c: Contracts, a: Ledger, p: PreparedAction, e: AdmissionEvidence): Ledger
    requires Forest(a.scopes) && p.scopeId in a.scopes
  {
    var r := ActionRecord(p, c.actionDigest(p), e, a.lastSeen, None, None, Reserved);
    a.(scopes := ChargedLine(a.scopes, p.scopeId, p.resource),
       actions := a.actions[p.actionId := r],
       events := a.events
         + [AuthorityEvent(|a.events| + 1, p.scopeId, Some(p.actionId), AttemptCharged, Some(a.lastSeen), r.digest)])
  }

  /** The walk and the line charge the same rows. */
  lemma ChargeAllIsLine(scopes: Scopes, scope: string, resource: string)
    requires Forest(scopes) && scope in scopes
    ensures ChargeAll(scopes, Rows(scopes, Line(scopes, scope)), resource) == ChargedLine(scopes, scope, resource)
  {
    var ids := Line(scopes, scope);
    var rows := Rows(scopes, ids);
    forall id | id in scopes ensures Visited(rows, id) <==> Above(scopes, id, scope) {
      if Visited(rows, id) {
        var i :| 0 <= i < |rows| && rows[i].grant.scopeId == id;
        assert rows[i] == scopes[ids[i]];
      }
      if Above(scopes, id, scope) {
        var i :| 0 <= i < |ids| && ids[i] == id;
        assert rows[i].grant.scopeId == id;
      }
    }
  }

  lemma ChargedForest(c: Contracts, scopes: Scopes, scope: string, resource: string)
    requires SoundScopes(c, scopes) && Forest(scopes) && scope in scopes
    ensures SoundScopes(c, ChargedLine(scopes, scope, resource)) && Forest(ChargedLine(scopes, scope, resource))
  {
    var after := ChargedLine(scopes, scope, resource);
    assert forall x :: x in after ==>
      x in scopes && after[x].grant == scopes[x].grant && after[x].digest == scopes[x].digest;
    forall x | x in after ensures SoundScope(c, after, x) { assert SoundScope(c, scopes, x); }
  }

  /** The booked ledger, row by row. */
  ghost predicate IsBooked(c: Contracts, a: Ledger, b: Ledger, p: PreparedAction, e: AdmissionEvidence)
    requires Forest(a.scopes)
  {
    && b.owner == a.owner && b.lastSeen == a.lastSeen
    && b.scopes.Keys == a.scopes.Keys
    && (forall x :: x in a.scopes ==>
        b.scopes[x] == if Above(a.scopes, x, p.scopeId) then Charge(a.scopes[x], p.resource) else a.scopes[x])
    && b.actions == a.actions[p.actionId := ActionRecord(p, c.actionDigest(p), e, a.lastSeen, None, None, Reserved)]
    && b.events == a.events
       + [AuthorityEvent(|a.events| + 1, p.scopeId, Some(p.actionId), AttemptCharged, Some(a.lastSeen),
                         c.actionDigest(p))]
  }

  lemma BookedEvolves(c: Contracts, a: Ledger, b: Ledger, p: PreparedAction, e: AdmissionEvidence)
    requires Forest(a.scopes) && IsBooked(c, a, b, p, e) && p.actionId !in a.actions
    ensures Evolves(a, b) && SameGrants(a.scopes, b.scopes)
  {
  }

  lemma BookedRow(c: Contracts, a: Ledger, b: Ledger, p: PreparedAction, e: AdmissionEvidence)
    requires Forest(a.scopes) && Forest(b.scopes) && IsBooked(c, a, b, p, e) && Reservable(c, a, p, e)
    requires a.scopes[p.scopeId].issuedAt <= a.lastSeen
    ensures ActionRow(c, b, p.actionId)
  {
    BookedEvolves(c, a, b, p, e);
    LinesStable(a.scopes, b.scopes);
    forall x | Above(b.scopes, x, p.scopeId) ensures OpenAt(b.scopes[x], a.lastSeen) {
      assert Above(a.scopes, x, p.scopeId);
    }
  }

  lemma BookedKeyed(c: Contracts, a: Ledger, b: Ledger, p: PreparedAction, e: AdmissionEvidence)
    requires Keyed(a) && Forest(a.scopes) && Forest(b.scopes) && IsBooked(c, a, b, p, e)
    requires forall x :: x in a.actions ==> !SameRequest(a.actions[x].action, p)
    ensures Keyed(b)
  {
  }

  lemma RoomCharged(r: ScopeRecord, resource: string)
    requires InBudget(r) && HasRoom(r, resource)
    ensures InBudget(Charge(r, resource))
  {
    if resource in r.chargedResources {
      assert r.chargedResources + {resource} == r.chargedResources;
    }
  }

  lemma BookedTables(c: Contracts, a: Ledger, b: Ledger, p: PreparedAction, e: AdmissionEvidence)
    requires Tables(c, a) && IsBooked(c, a, b, p, e) && Reservable(c, a, p, e)
    requires SoundScopes(c, b.scopes) && Forest(b.scopes)
    ensures Tables(c, b)
  {
    BookedEvolves(c, a, b, p, e);
    assert ScopeRow(a, p.scopeId);
    BookedRow(c, a, b, p, e);
    BookedKeyed(c, a, b, p, e);
    forall x | x in b.actions ensures ActionRow(c, b, x) {
      if x != p.actionId { OldAction(c, a, b, x); }
    }
    forall x | x in b.scopes ensures ScopeRow(b, x) {
      assert ScopeRow(a, x);
      OldScope(c, a, b, x);
      if Above(a.scopes, x, p.scopeId) { RoomCharged(a.scopes[x], p.resource); }
    }
  }

  /** Exactly the scopes on the new action's line gain it and its resource. */
  lemma AddedUnder(a: Ledger, b: Ledger, r: ActionRecord, s: string)
    requires Forest(a.scopes) && Forest(b.scopes) && SameGrants(a.scopes, b.scopes) && s in a.scopes
    requires r.action.actionId !in a.actions && r.action.scopeId in a.scopes
    requires b.actions == a.actions[r.action.actionId := r]
    requires forall x :: x in a.actions ==> a.actions[x].action.scopeId in a.scopes
    ensures Under(b, s) == Under(a, s) + (if Above(a.scopes, s, r.action.scopeId) then {r.action.actionId} else {})
    ensures r.action.actionId !in Under(a, s)
  {
    LinesStable(a.scopes, b.scopes);
  }

  lemma AddedTouched(a: Ledger, b: Ledger, r: ActionRecord, s: string)
    requires Forest(a.scopes) && Forest(b.scopes) && r.action.actionId !in a.actions
    requires b.actions == a.actions[r.action.actionId := r]
    requires Under(b, s) == Under(a, s) + (if Above(a.scopes, s, r.action.scopeId) then {r.action.actionId} else {})
    ensures Touched(b, s) == Touched(a, s) + (if Above(a.scopes, s, r.action.scopeId) then {r.action.resource} else {})
  {
    forall x | x in Under(a, s) ensures b.actions[x] == a.actions[x] {}
    forall z
      ensures z in Touched(b, s) <==>
        z in Touched(a, s) || (Above(a.scopes, s, r.action.scopeId) && z == r.action.resource)
    {
      if z in Touched(a, s) {
        var x :| x in Under(a, s) && a.actions[x].action.resource == z;
        assert x in Under(b, s);
      }
      if Above(a.scopes, s, r.action.scopeId) && z == r.action.resource { assert r.action.actionId in Under(b, s); }
    }
  }

  /** A charge written to a row matches the action it accounts for. */
  lemma ChargeCounts(a: Ledger, b: Ledger, r: ActionRecord, s: string)
    requires Forest(a.scopes) && Forest(b.scopes) && SameGrants(a.scopes, b.scopes) && s in a.scopes
    requires r.action.actionId !in a.actions && r.action.scopeId in a.scopes
    requires b.actions == a.actions[r.action.actionId := r]
    requires forall x :: x in a.actions ==> a.actions[x].action.scopeId in a.scopes
    requires b.scopes[s] ==
      if Above(a.scopes, s, r.action.scopeId) then Charge(a.scopes[s], r.action.resource) else a.scopes[s]
    requires Charged(a, s)
    ensures Charged(b, s)
  {
    AddedUnder(a, b, r, s);
    AddedTouched(a, b, r, s);
  }

  lemma BookedCharges(c: Contracts, a: Ledger, b: Ledger, p: PreparedAction, e: AdmissionEvidence)
    requires Forest(a.scopes) && Forest(b.scopes) && Charges(a) && IsBooked(c, a, b, p, e)
    requires p.actionId !in a.actions && p.scopeId in a.scopes
    requires forall x :: x in a.actions ==> a.actions[x].action.scopeId in a.scopes
    ensures Charges(b)
  {
    forall s | s in b.scopes ensures Charged(b, s) {
      assert Charged(a, s);
      ChargeCounts(a, b, b.actions[p.actionId], s);
    }
  }

  lemma BookedNew(c: Contracts, a: Ledger, b: Ledger, p: PreparedAction, e: AdmissionEvidence)
    requires Forest(a.scopes) && Forest(b.scopes) && History(a) && IsBooked(c, a, b, p, e) && a.lastSeen >= 0
    requires p.actionId !in a.actions && p.scopeId in a.scopes
    requires forall x :: Above(a.scopes, x, p.scopeId) ==> a.scopes[x].revokedAt.None?
    ensures EventRow(b, |a.events|) && ActionRecorded(b, p.actionId)
  {
    var ev := b.events[|a.events|];
    BookedEvolves(c, a, b, p, e);
    if Seen(a.events, |a.events|, p.actionId, AttemptCharged) { Unheard(a, p.actionId, AttemptCharged); }
    NewPlaced(a, b, ev);
    SeenNew(a.events, ev);
    AboveSelf(a.scopes, p.scopeId);
    LineAuthorised(a, p.scopeId);
    LinesStable(a.scopes, b.scopes);
    assert Authorised(b, |a.events|);
  }

  lemma BookedHistory(c: Contracts, a: Ledger, b: Ledger, p: PreparedAction, e: AdmissionEvidence)
    requires Forest(a.scopes) && Forest(b.scopes) && History(a) && IsBooked(c, a, b, p, e) && p.actionId !in a.actions
    requires EventRow(b, |a.events|) && ActionRecorded(b, p.actionId)
    ensures History(b)
  {
    BookedEvolves(c, a, b, p, e);
    HistoryGrows(a, b);
  }

  lemma IsBookedKept(c: Contracts, a: Ledger, b: Ledger, p: PreparedAction, e: AdmissionEvidence)
    requires Consistent(c, a) && Reservable(c, a, p, e)
    requires SoundScopes(c, b.scopes) && Forest(b.scopes) && IsBooked(c, a, b, p, e)
    ensures Kept(c, a, b)
  {
    ActionScopes(c, a);
    BookedTables(c, a, b, p, e);
    BookedCharges(c, a, b, p, e);
    BookedNew(c, a, b, p, e);
    BookedHistory(c, a, b, p, e);
    BookedEvolves(c, a, b, p, e);
  }

  /** Charging every ancestor that has room keeps the ledger consistent. */
  lemma BookedKept(c: Contracts, a: Ledger, p: PreparedAction, e: AdmissionEvidence)
    requires Consistent(c, a) && Reservable(c, a, p, e)
    ensures Kept(c, a, Booked(c, a, p, e))
  {
    ChargedForest(c, a.scopes, p.scopeId, p.resource);
    IsBookedKept(c, a, Booked(c, a, p, e), p, e);
  }
}
