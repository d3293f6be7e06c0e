/** Exactly when each call of the ledger succeeds, stated over the forest instead of the walk. */
module ScopeAdmission {
  import opened Wrappers
  import opened ScopeTypes
  import opened ScopeForest
  import opened ScopeConsistency
  import opened ScopeEvolution
  import opened ScopeLedger
  import opened ScopeSteps
  import opened ScopeRuns
  import opened ScopeTheorems

  ghost predicate LineActive(scopes: Scopes, id: string, now: int)
    requires Forest(scopes)
  {
    && id in scopes
    && forall a :: Above(scopes, a, id) ==>
         scopes[a].revokedAt.None? && scopes[a].grant.notBefore <= now < scopes[a].grant.expiresAt
  }

  ghost predicate LineHasRoom(scopes: Scopes, id: string, resource: string)
    requires Forest(scopes)
  {
    forall a :: Above(scopes, a, id) ==> HasRoom(scopes[a], resource)
  }

  ghost predicate LogHasRoom(l: Ledger) {
    |l.events| < 0x7fff_ffff_ffff_ffff
  }

  /** What a call needs before its transaction starts. */
  ghost predicate OnTime(l: Ledger, now: int) {
    l.lastSeen <= now
  }

  lemma LineRoom(scopes: Scopes, id: string, resource: string)
    requires Forest(scopes) && id in scopes
    ensures var rows := Rows(scopes, Line(scopes, id));
      (exists i :: 0 <= i < |rows| && !HasRoom(rows[i], resource)) <==> !LineHasRoom(scopes, id, resource)
  {
    var ids := Line(scopes, id);
    var rows := Rows(scopes, ids);
    if i :| 0 <= i < |rows| && !HasRoom(rows[i], resource) { assert Above(scopes, ids[i], id); }
    if !LineHasRoom(scopes, id, resource) {
      var a :| Above(scopes, a, id) && !HasRoom(scopes[a], resource);
      var i :| 0 <= i < |ids| && ids[i] == a;
      assert !HasRoom(rows[i], resource);
    }
  }

  /** The table facts the transactions rest on, apart from history. */
  ghost predicate Sound(c: Contracts, l: Ledger) {
    Lawful(c) && SoundScopes(c, l.scopes) && Forest(l.scopes) && LastSequence(l.events) == |l.events|
  }

  lemma ConsistentSound(c: Contracts, l: Ledger)
    requires Lawful(c) && Consistent(c, l)
    ensures Sound(c, l) && Metadata(c, l).None?
  {
    NextSequence(l);
  }

  lemma CommitsWhen(c: Contracts, l: Ledger, call: Call)
    requires Metadata(c, l).None?
    ensures Mutate(c, l, call).reply.Ok? <==> OnTime(l, call.now) && Body(c, l.(lastSeen := call.now), call).reply.Ok?
  {
  }

  // ------------------------------------------------------------------ issue

  /** What a grant that is not stored yet must satisfy. */
  ghost predicate MayIssue(c: Contracts, l: Ledger, g: ScopeGrant, guard: Guard, now: int)
    requires Forest(l.scopes)
  {
    && now < g.expiresAt
    && (g.parentId.Some? ==>
          LineActive(l.scopes, g.parentId.value, now) && c.childOf(g, l.scopes[g.parentId.value].grant).None?)
    && guard.verifyScope(g, now).None?
    && LogHasRoom(l)
  }

  /** Narrowing alone keeps ancestries short: the explicit depth check never refuses anything. */
  /** Given its parent's ancestry, a child is refused by its contract or by a ninth row above it. */
  lemma DelegableAt(c: Contracts, l: Ledger, g: ScopeGrant, now: int, rows: seq<ScopeRecord>)
    requires g.parentId.Some? && ActiveChain(c, l.scopes, g.parentId.value, now) == Ok(rows) && |rows| > 0
    ensures Delegable(c, l, g, now) ==
      if c.childOf(g, rows[0].grant).Some? then Some(Validation(c.childOf(g, rows[0].grant).value))
      else if |rows| >= 9 then Some(Validation(NotSubset))
      else None
  {
  }

  lemma DelegableWhen(c: Contracts, l: Ledger, g: ScopeGrant, now: int)
    requires Sound(c, l)
    ensures Delegable(c, l, g, now).None? <==>
      (g.parentId.Some? ==>
       LineActive(l.scopes, g.parentId.value, now) && c.childOf(g, l.scopes[g.parentId.value].grant).None?)
  {
    if g.parentId.Some? {
      var p := g.parentId.value;
      ActiveIsLine(c, l.scopes, p, now);
      if LineActive(l.scopes, p, now) {
        DelegableAt(c, l, g, now, Rows(l.scopes, Line(l.scopes, p)));
        if c.childOf(g, l.scopes[p].grant).None? {
          assert g.delegationsRemaining < l.scopes[p].grant.delegationsRemaining;
        }
      }
    }
  }

  lemma IssueWhen(c: Contracts, l: Ledger, g: ScopeGrant, guard: Guard, now: int)
    requires Sound(c, l)
    requires LoadScope(c, l.scopes, g.scopeId) ==
      if g.scopeId in l.scopes then Ok(l.scopes[g.scopeId]) else Err(NotFound)
    ensures IssueTx(c, l, g, guard, now).reply.Ok? <==>
      if g.scopeId in l.scopes then l.scopes[g.scopeId].grant == g else MayIssue(c, l, g, guard, now)
  {
    DelegableWhen(c, l, g, now);
  }

  /** A scope is issued exactly when its owner, time, ancestry and guard allow it, or it is already there. */
  lemma IssueExact(c: Contracts, l: Ledger, call: Call)
    requires Lawful(c) && Consistent(c, l) && call.IssueScope?
    ensures Apply(c, l, call).reply.Ok? <==>
      && c.canonGrant(call.grant).Ok? && OnTime(l, call.now)
      && var g := c.canonGrant(call.grant).value;
      && g.owner == l.owner
      && (if g.scopeId in l.scopes then l.scopes[g.scopeId].grant == g else MayIssue(c, l, g, call.guard, call.now))
  {
    ConsistentSound(c, l);
    if c.canonGrant(call.grant).Ok? {
      var g := c.canonGrant(call.grant).value;
      LoadsScope(c, l, g.scopeId);
      IssueWhen(c, l.(lastSeen := call.now), g, call.guard, call.now);
    }
  }

  // ------------------------------------------------------------------ reserve

  ghost predicate MayReserve(c: Contracts, l: Ledger, p: PreparedAction, e: AdmissionEvidence, guard: Guard, now: int)
    requires Forest(l.scopes)
  {
    && LineActive(l.scopes, p.scopeId, now)
    && c.admits(e, l.scopes[p.scopeId].grant, p, now).None?
    && guard.verifyAction(l.scopes[p.scopeId].grant, p, e, now).None?
    && LineHasRoom(l.scopes, p.scopeId, p.resource)
    && LogHasRoom(l)
  }

  ghost predicate Collision(l: Ledger, p: PreparedAction) {
    exists id :: id in l.actions && Same(l.actions[id].action, p)
  }

  /** The same action id, or the same request of the same subject in the same scope. */
  ghost predicate Same(a: PreparedAction, b: PreparedAction) {
    a.actionId == b.actionId || (a.scopeId, a.subject, a.requestId) == (b.scopeId, b.subject, b.requestId)
  }

  ghost predicate Reservation(c: Contracts, l: Ledger, p: PreparedAction, e: AdmissionEvidence, guard: Guard, now: int)
    requires Forest(l.scopes)
  {
    if Collision(l, p) then p.actionId in l.actions && l.actions[p.actionId].action == p
    else MayReserve(c, l, p, e, guard, now)
  }

  lemma FreshReserve(c: Contracts, l: Ledger, p: PreparedAction, e: AdmissionEvidence, guard: Guard, now: int,
                     chain: seq<ScopeRecord>)
    requires !(exists id :: id in l.actions && Collides(l.actions[id].action, p))
    requires |chain| > 0 && ActiveChain(c, l.scopes, p.scopeId, now) == Ok(chain)
    requires LastSequence(l.events) == |l.events|
    ensures ReserveTx(c, l, p, e, guard, now).reply.Ok? <==>
      && c.admits(e, chain[0].grant, p, now).None? && guard.verifyAction(chain[0].grant, p, e, now).None?
      && !(exists i :: 0 <= i < |chain| && !HasRoom(chain[i], p.resource))
      && LogHasRoom(l)
  {
  }

  lemma CollisionExact(l: Ledger, p: PreparedAction)
    ensures Collision(l, p) <==> exists id :: id in l.actions && Collides(l.actions[id].action, p)
  {
    forall a: PreparedAction ensures Same(a, p) <==> Collides(a, p) {}
  }

  lemma ReserveWhen(c: Contracts, l: Ledger, p: PreparedAction, e: AdmissionEvidence, guard: Guard, now: int)
    requires Sound(c, l)
    ensures ReserveTx(c, l, p, e, guard, now).reply.Ok? <==> Reservation(c, l, p, e, guard, now)
  {
    CollisionExact(l, p);
    if !Collision(l, p) {
      ActiveIsLine(c, l.scopes, p.scopeId, now);
      if LineActive(l.scopes, p.scopeId, now) {
        var rows := Rows(l.scopes, Line(l.scopes, p.scopeId));
        assert rows[0] == l.scopes[p.scopeId];
        LineRoom(l.scopes, p.scopeId, p.resource);
        FreshReserve(c, l, p, e, guard, now, rows);
      }
    }
  }

  lemma ReserveApplies(c: Contracts, l: Ledger, call: Call)
    requires call.Reserve? && Sound(c, l) && Metadata(c, l).None?
    ensures Apply(c, l, call).reply.Ok? <==>
      && c.canonAction(call.action).Ok? && OnTime(l, call.now)
      && c.canonAction(call.action).value.owner == l.owner
      && Reservation(c, l, c.canonAction(call.action).value, call.evidence, call.guard, call.now)
  {
    if c.canonAction(call.action).Ok? {
      var p := c.canonAction(call.action).value;
      var seen := l.(lastSeen := call.now);
      CommitsWhen(c, l, call.(action := p));
      ReserveWhen(c, seen, p, call.evidence, call.guard, call.now);
      assert Reservation(c, seen, p, call.evidence, call.guard, call.now) <==>
        Reservation(c, l, p, call.evidence, call.guard, call.now);
    }
  }

  /** Every ancestor's subtree can take one more attempt, and one more resource if this one is new to it. */
  ghost predicate Affordable(l: Ledger, scope: string, resource: string)
    requires Forest(l.scopes)
  {
    forall a :: Above(l.scopes, a, scope) ==>
      && |Under(l, a)| < l.scopes[a].grant.maxChargedAttempts
      && |Touched(l, a) + {resource}| <= l.scopes[a].grant.maxDistinctResources
  }

  lemma RoomExact(l: Ledger, a: string, resource: string)
    requires Forest(l.scopes) && a in l.scopes && Charged(l, a) && InBudget(l.scopes[a])
    ensures HasRoom(l.scopes[a], resource) <==>
      && |Under(l, a)| < l.scopes[a].grant.maxChargedAttempts
      && |Touched(l, a) + {resource}| <= l.scopes[a].grant.maxDistinctResources
  {
    if resource in Touched(l, a) { assert Touched(l, a) + {resource} == Touched(l, a); }
  }

  lemma LineAffordable(c: Contracts, l: Ledger, scope: string, resource: string)
    requires Consistent(c, l)
    ensures LineHasRoom(l.scopes, scope, resource) <==> Affordable(l, scope, resource)
  {
    forall a | Above(l.scopes, a, scope)
      ensures HasRoom(l.scopes[a], resource) <==>
        && |Under(l, a)| < l.scopes[a].grant.maxChargedAttempts
        && |Touched(l, a) + {resource}| <= l.scopes[a].grant.maxDistinctResources
    {
      assert Charged(l, a) && ScopeRow(l, a);
      RoomExact(l, a, resource);
    }
  }

  /** What a proposal that repeats no other must satisfy, counted over the attempts of the ledger. */
  ghost predicate MayCharge(c: Contracts, l: Ledger, p: PreparedAction, e: AdmissionEvidence, guard: Guard, now: int)
    requires Forest(l.scopes)
  {
    && LineActive(l.scopes, p.scopeId, now)
    && c.admits(e, l.scopes[p.scopeId].grant, p, now).None?
    && guard.verifyAction(l.scopes[p.scopeId].grant, p, e, now).None?
    && Affordable(l, p.scopeId, p.resource)
    && LogHasRoom(l)
  }

  /**
   * An attempt is charged exactly when the proposal repeats no other, every ancestor is active and its
   * subtree can afford it, and evidence and guard admit it; a repetition is answered only for the very
   * same action.
   */
  lemma ReserveExact(c: Contracts, l: Ledger, call: Call)
    requires Lawful(c) && Consistent(c, l) && call.Reserve?
    ensures Apply(c, l, call).reply.Ok? <==>
      && c.canonAction(call.action).Ok? && OnTime(l, call.now)
      && c.canonAction(call.action).value.owner == l.owner
      && var p := c.canonAction(call.action).value;
      if Collision(l, p) then p.actionId in l.actions && l.actions[p.actionId].action == p
      else MayCharge(c, l, p, call.evidence, call.guard, call.now)
  {
    ConsistentSound(c, l);
    ReserveApplies(c, l, call);
    if c.canonAction(call.action).Ok? {
      var p := c.canonAction(call.action).value;
      LineAffordable(c, l, p.scopeId, p.resource);
    }
  }

  // ------------------------------------------------------------------ claim, finish, revoke

  ghost predicate MayClaim(c: Contracts, l: Ledger, r: ActionRecord, guard: Guard, now: int)
    requires Forest(l.scopes)
  {
    && r.state.Reserved?
    && LineActive(l.scopes, r.action.scopeId, now)
    && c.admits(r.evidence, l.scopes[r.action.scopeId].grant, r.action, now).None?
    && guard.verifyAction(l.scopes[r.action.scopeId].grant, r.action, r.evidence, now).None?
    && LogHasRoom(l)
  }

  lemma ClaimWhen(c: Contracts, l: Ledger, id: string, digest: string, guard: Guard, now: int)
    requires Sound(c, l)
    requires LoadAction(c, l, id) == if id in l.actions then Ok(l.actions[id]) else Err(NotFound)
    ensures ClaimTx(c, l, id, digest, guard, now).reply.Ok? <==>
      id in l.actions && l.actions[id].digest == digest && MayClaim(c, l, l.actions[id], guard, now)
  {
    if id in l.actions {
      var scope := l.actions[id].action.scopeId;
      ActiveIsLine(c, l.scopes, scope, now);
      if LineActive(l.scopes, scope, now) { assert Rows(l.scopes, Line(l.scopes, scope))[0] == l.scopes[scope]; }
    }
  }

  lemma ClaimApplies(c: Contracts, l: Ledger, call: Call)
    requires call.ClaimDispatch? && Sound(c, l) && Metadata(c, l).None?
    requires LoadAction(c, l, call.actionId) ==
      if call.actionId in l.actions then Ok(l.actions[call.actionId]) else Err(NotFound)
    ensures Apply(c, l, call).reply.Ok? <==>
      && OnTime(l, call.now) && call.actionId in l.actions && l.actions[call.actionId].digest == call.expectedDigest
      && MayClaim(c, l, l.actions[call.actionId], call.guard, call.now)
  {
    CommitsWhen(c, l, call);
    ClaimWhen(c, l.(lastSeen := call.now), call.actionId, call.expectedDigest, call.guard, call.now);
  }

  /** A dispatch is claimed exactly when the attempt is reserved and still fully authorised at that moment. */
  lemma ClaimExact(c: Contracts, l: Ledger, call: Call)
    requires Lawful(c) && Consistent(c, l) && call.ClaimDispatch?
    ensures Apply(c, l, call).reply.Ok? <==>
      && OnTime(l, call.now) && call.actionId in l.actions && l.actions[call.actionId].digest == call.expectedDigest
      && MayClaim(c, l, l.actions[call.actionId], call.guard, call.now)
  {
    ConsistentSound(c, l);
    LoadsAction(c, l, call.actionId);
    ClaimApplies(c, l, call);
  }

  ghost predicate MayFinish(l: Ledger, id: string, outcome: Outcome) {
    && id in l.actions && (l.actions[id].state.Reserved? || l.actions[id].state.DispatchClaimed?)
    && (outcome.Accepted? ==> l.actions[id].state.DispatchClaimed?)
    && LogHasRoom(l)
  }

  lemma FinishWhen(c: Contracts, l: Ledger, id: string, outcome: Outcome, now: int)
    requires LastSequence(l.events) == |l.events|
    requires LoadAction(c, l, id) == if id in l.actions then Ok(l.actions[id]) else Err(NotFound)
    ensures FinishTx(c, l, id, outcome, now).reply.Ok? <==> MayFinish(l, id, outcome)
  {
  }

  lemma FinishApplies(c: Contracts, l: Ledger, call: Call)
    requires call.Finish? && Metadata(c, l).None? && LastSequence(l.events) == |l.events|
    requires LoadAction(c, l, call.actionId) ==
      if call.actionId in l.actions then Ok(l.actions[call.actionId]) else Err(NotFound)
    ensures Apply(c, l, call).reply.Ok? <==> OnTime(l, call.now) && MayFinish(l, call.actionId, call.outcome)
  {
    CommitsWhen(c, l, call);
    FinishWhen(c, l.(lastSeen := call.now), call.actionId, call.outcome, call.now);
  }

  /** An outcome is recorded exactly for a pending attempt, acceptance only for a claimed one. */
  lemma FinishExact(c: Contracts, l: Ledger, call: Call)
    requires Lawful(c) && Consistent(c, l) && call.Finish?
    ensures Apply(c, l, call).reply.Ok? <==> OnTime(l, call.now) && MayFinish(l, call.actionId, call.outcome)
  {
    ConsistentSound(c, l);
    LoadsAction(c, l, call.actionId);
    FinishApplies(c, l, call);
  }

  /** A stored scope can always be revoked, room in the log permitting. */
  lemma RevokeExact(c: Contracts, l: Ledger, call: Call)
    requires Lawful(c) && Consistent(c, l) && call.Revoke?
    ensures Apply(c, l, call).reply.Ok? <==>
      && OnTime(l, call.now) && call.scopeId in l.scopes
      && (l.scopes[call.scopeId].revokedAt.Some? || LogHasRoom(l))
  {
    ConsistentSound(c, l);
    LoadsScope(c, l, call.scopeId);
  }

  // ------------------------------------------------------------------ outcomes stand

  ghost predicate Reports(state: ExecutionState, outcome: Outcome) {
    match state
    case ApiAccepted => outcome.Accepted?
    case Rejected => outcome.Refused?
    case Unknown => outcome.Uncertain?
    case _ => false
  }

  lemma FinishReplies(c: Contracts, l: Ledger, call: Call)
    requires call.Finish? && Apply(c, l, call).reply.Ok?
    ensures call.actionId in Apply(c, l, call).ledger.actions
    ensures var r := Apply(c, l, call).ledger.actions[call.actionId];
      Apply(c, l, call).reply == Ok(OfAction(r)) && Reports(r.state, call.outcome) && r.finishedAt == Some(call.now)
  {
  }

  /** A recorded outcome is what every later reader sees: no run rewrites or refunds it. */
  lemma OutcomeStands(c: Contracts, l: Ledger, call: Call, steps: seq<Step>)
    requires Lawful(c) && Consistent(c, l) && call.Finish? && Apply(c, l, call).reply.Ok?
    ensures var m := Run(c, Apply(c, l, call).ledger, steps);
      && call.actionId in m.actions
      && Apply(c, l, call).reply == Ok(OfAction(m.actions[call.actionId]))
      && Reports(m.actions[call.actionId].state, call.outcome)
      && m.actions[call.actionId].finishedAt == Some(call.now)
  {
    var n := Apply(c, l, call).ledger;
    FinishReplies(c, l, call);
    AfterCall(c, l, call, steps);
    assert ActionKept(n.actions[call.actionId], Run(c, n, steps).actions[call.actionId], n.lastSeen);
  }
}
